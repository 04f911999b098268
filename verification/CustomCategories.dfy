/**
  What custom categories do to a group's indicator (backend/app/productivity/rollups.py). A member's
  indicator counts all of the member's events; the group row is computed from the three built-in
  times only. The indicator that does justice to the members is that of all their events together.
*/
module CustomCategories {
  import opened Common
  import opened Rollups

  function DayEvents(d: WorkDay): seq<Activity> {
    d.apps + d.sites
  }

  /** All events of some employees' days. */
  function AllEvents(days: seq<WorkDay>): seq<Activity> {
    if days == [] then [] else AllEvents(days[..|days| - 1]) + DayEvents(days[|days| - 1])
  }

  /** The indicator of all events together, custom categories included. */
  function Pooled(days: seq<WorkDay>, w: Weights): real {
    Indicator(Tally(AllEvents(days)), w)
  }

  /** The days of one group's members, in the order of the run. */
  function DaysIn(days: seq<WorkDay>, members: seq<Member>, axis: Grouping, group: Option<nat>): seq<WorkDay> {
    if days == [] then []
    else
      var d := days[|days| - 1];
      DaysIn(days[..|days| - 1], members, axis, group) +
      (if GroupOf(members, axis, d.member.id) == group then [d] else [])
  }

  /** The part of the indicator's numerator that custom categories contribute. */
  function CustomWeight(events: seq<Activity>, w: Weights): real {
    if events == [] then 0.0
    else
      var e := events[|events| - 1];
      CustomWeight(events[..|events| - 1], w) +
      (if IsBuiltIn(e.category) then 0.0 else Times(e.seconds as real, WeightFor(w, e.category)))
  }

  function BuiltInSeconds(events: seq<Activity>): int {
    EventSeconds(events, Productive) + EventSeconds(events, Neutral) + EventSeconds(events, Unproductive)
  }

  /** The part that the built-in categories contribute: what the group row's indicator is computed from. */
  function BuiltInWeight(events: seq<Activity>, w: Weights): real {
    Score(EventSeconds(events, Productive), EventSeconds(events, Neutral), EventSeconds(events, Unproductive), w)
  }

  ghost predicate NonNegative(days: seq<WorkDay>) {
    forall e :: e in AllEvents(days) ==> e.seconds >= 0
  }

  // ---------- the numerator splits ----------

  lemma ScoreOfOne(e: Activity, w: Weights)
    requires IsBuiltIn(e.category)
    ensures Score(if e.category.Productive? then e.seconds else 0, if e.category.Neutral? then e.seconds else 0,
                  if e.category.Unproductive? then e.seconds else 0, w) ==
            Times(e.seconds as real, WeightFor(w, e.category))
  {
    ZeroTimes(WeightFor(w, Productive));
    ZeroTimes(WeightFor(w, Neutral));
    ZeroTimes(WeightFor(w, Unproductive));
    hide Times, WeightFor;
  }

  lemma ZeroTimes(k: real)
    ensures Times(0 as real, k) == 0.0
  {
  }

  lemma {:induction false} WeightSplits(events: seq<Activity>, w: Weights)
    ensures EventWeight(events, w) == BuiltInWeight(events, w) + CustomWeight(events, w)
  {
    if events == [] {
      ZeroTimes(WeightFor(w, Productive));
      ZeroTimes(WeightFor(w, Neutral));
      ZeroTimes(WeightFor(w, Unproductive));
    } else {
      var n := |events| - 1;
      var e := events[n];
      WeightSplits(events[..n], w);
      if IsBuiltIn(e.category) {
        ScoreAdds(EventSeconds(events[..n], Productive), EventSeconds(events[..n], Neutral),
                  EventSeconds(events[..n], Unproductive),
                  if e.category.Productive? then e.seconds else 0, if e.category.Neutral? then e.seconds else 0,
                  if e.category.Unproductive? then e.seconds else 0, w);
        ScoreOfOne(e, w);
      }
      hide Score, Times, WeightFor;
    }
  }

  /** What the pooled indicator is a quotient of. */
  lemma PooledIs(days: seq<WorkDay>, w: Weights)
    ensures var es := AllEvents(days);
            var total := BuiltInSeconds(es) + CustomSeconds(es);
            Pooled(days, w) == if total <= 0 then 0.0 else 100.0 * EventWeight(es, w) / total as real
  {
    TallyIsEventTime(AllEvents(days), Productive);
    TallyWeighsEvents(AllEvents(days), w);
    hide Tally, Total, Weighted, EventSeconds, CustomSeconds, EventWeight, AllEvents;
  }

  // ---------- sums over members are sums over their events ----------

  lemma {:induction false} SecondsConcat(a: seq<Activity>, b: seq<Activity>, c: Category)
    ensures EventSeconds(a + b, c) == EventSeconds(a, c) + EventSeconds(b, c)
    ensures CustomSeconds(a + b) == CustomSeconds(a) + CustomSeconds(b)
  {
    if b == [] {
      assert a + b == a;
    } else {
      var n := |b| - 1;
      assert (a + b)[..|a + b| - 1] == a + b[..n];
      SecondsConcat(a, b[..n], c);
    }
  }

  lemma {:induction false} WeightConcat(a: seq<Activity>, b: seq<Activity>, w: Weights)
    ensures EventWeight(a + b, w) == EventWeight(a, w) + EventWeight(b, w)
  {
    hide Times, WeightFor;
    if b == [] {
      assert a + b == a;
    } else {
      var n := |b| - 1;
      assert (a + b)[..|a + b| - 1] == a + b[..n];
      WeightConcat(a, b[..n], w);
    }
  }

  /** The columns of an employee's row; idle and worked seconds are 0 without an attendance row. */
  lemma DayRowIs(d: WorkDay, w: Weights)
    ensures var r, es := DayRow(d, w), DayEvents(d);
            r.employee == d.member.id &&
            (d.attendance == None ==> r.idle == 0 && r.worked == 0) &&
            (forall idle, worked :: d.attendance == Some((idle, worked)) ==> r.idle == idle && r.worked == worked) &&
            r.productive == EventSeconds(es, Productive) && r.neutral == EventSeconds(es, Neutral) &&
            r.unproductive == EventSeconds(es, Unproductive) && r.tracked == BuiltInSeconds(es) + CustomSeconds(es) &&
            r.indicator == Indicator(Tally(es), w)
  {
    TallyIsEventTime(DayEvents(d), Productive);
    TallyIsEventTime(DayEvents(d), Neutral);
    TallyIsEventTime(DayEvents(d), Unproductive);
    hide Indicator, Tally;
  }

  lemma DaysMore(days: seq<WorkDay>, w: Weights)
    requires days != []
    ensures var rest, d := days[..|days| - 1], days[|days| - 1];
            AllEvents(days) == AllEvents(rest) + DayEvents(d) && DayRows(days, w) == DayRows(rest, w) + [DayRow(d, w)]
  {
  }

  predicate Measures(m: Measure, c: Category) {
    (m.ProductiveTime? && c.Productive?) || (m.NeutralTime? && c.Neutral?) || (m.UnproductiveTime? && c.Unproductive?)
  }

  lemma DayMeasures(d: WorkDay, w: Weights, m: Measure, c: Category)
    requires Measures(m, c)
    ensures Value(m, DayRow(d, w)) == EventSeconds(DayEvents(d), c)
    ensures Value(Tracked, DayRow(d, w)) == BuiltInSeconds(DayEvents(d)) + CustomSeconds(DayEvents(d))
  {
    DayRowIs(d, w);
    hide DayRow, DayEvents, EventSeconds, CustomSeconds;
  }

  lemma {:induction false} SumIsEvents(days: seq<WorkDay>, w: Weights, m: Measure, c: Category)
    requires Measures(m, c)
    ensures Sum(m, DayRows(days, w)) == EventSeconds(AllEvents(days), c)
  {
    if days != [] {
      hide *;
      var rest, d := days[..|days| - 1], days[|days| - 1];
      DaysMore(days, w);
      SumIsEvents(rest, w, m, c);
      DayMeasures(d, w, m, c);
      SumMore(m, DayRows(rest, w), DayRow(d, w));
      SecondsConcat(AllEvents(rest), DayEvents(d), c);
    }
  }

  lemma BuiltInConcat(a: seq<Activity>, b: seq<Activity>)
    ensures BuiltInSeconds(a + b) == BuiltInSeconds(a) + BuiltInSeconds(b)
    ensures CustomSeconds(a + b) == CustomSeconds(a) + CustomSeconds(b)
  {
    SecondsConcat(a, b, Productive);
    SecondsConcat(a, b, Neutral);
    SecondsConcat(a, b, Unproductive);
    hide EventSeconds, CustomSeconds;
  }

  lemma {:induction false} TrackedIsEvents(days: seq<WorkDay>, w: Weights)
    ensures Sum(Tracked, DayRows(days, w)) == BuiltInSeconds(AllEvents(days)) + CustomSeconds(AllEvents(days))
  {
    if days != [] {
      assert Measures(ProductiveTime, Productive);
      hide *;
      var rest, d := days[..|days| - 1], days[|days| - 1];
      DaysMore(days, w);
      TrackedIsEvents(rest, w);
      DayMeasures(d, w, ProductiveTime, Productive);
      SumMore(Tracked, DayRows(rest, w), DayRow(d, w));
      BuiltInConcat(AllEvents(rest), DayEvents(d));
    }
  }

  lemma SumsAreEvents(days: seq<WorkDay>, w: Weights)
    ensures var rows, es := DayRows(days, w), AllEvents(days);
            Sum(ProductiveTime, rows) == EventSeconds(es, Productive) &&
            Sum(NeutralTime, rows) == EventSeconds(es, Neutral) &&
            Sum(UnproductiveTime, rows) == EventSeconds(es, Unproductive) &&
            Sum(Tracked, rows) == BuiltInSeconds(es) + CustomSeconds(es)
  {
    SumIsEvents(days, w, ProductiveTime, Productive);
    SumIsEvents(days, w, NeutralTime, Neutral);
    SumIsEvents(days, w, UnproductiveTime, Unproductive);
    TrackedIsEvents(days, w);
    hide *;
  }

  lemma SumMore(m: Measure, rows: seq<Row>, r: Row)
    ensures Sum(m, rows + [r]) == Sum(m, rows) + Value(m, r)
  {
    assert (rows + [r])[..|rows|] == rows;
  }

  lemma {:induction false} ThoseAreDays(
    days: seq<WorkDay>, members: seq<Member>, axis: Grouping, group: Option<nat>, w: Weights)
    ensures Those(DayRows(days, w), members, axis, group) == DayRows(DaysIn(days, members, axis, group), w)
  {
    if days != [] {
      var n := |days| - 1;
      assert DayRow(days[n], w).employee == days[n].member.id;
      hide DayRow, GroupOf;
      ThoseAreDays(days[..n], members, axis, group, w);
      assert DayRows(days, w)[..n] == DayRows(days[..n], w);
      var rest, d := DaysIn(days[..n], members, axis, group), days[n];
      assert DayRows(rest + [d], w) == DayRows(rest, w) + [DayRow(d, w)];
    }
  }

  // ---------- all events together lie between the members ----------

  /** The events' indicator, if they have any time, lies between lo and hi. */
  ghost predicate Within(lo: real, hi: real, events: seq<Activity>, w: Weights) {
    var total := (BuiltInSeconds(events) + CustomSeconds(events)) as real;
    Times(total, lo) <= 100.0 * EventWeight(events, w) <= Times(total, hi)
  }

  lemma WithinIs(lo: real, hi: real, events: seq<Activity>, w: Weights)
    ensures var total := (BuiltInSeconds(events) + CustomSeconds(events)) as real;
            Within(lo, hi, events, w) <==>
            Times(total, lo) <= 100.0 * EventWeight(events, w) <= Times(total, hi)
  {
  }

  lemma {:induction false} NoTimeNoWeight(events: seq<Activity>, w: Weights)
    requires forall e :: e in events ==> e.seconds >= 0
    ensures 0 <= BuiltInSeconds(events) && 0 <= CustomSeconds(events)
    ensures BuiltInSeconds(events) == 0 ==> BuiltInWeight(events, w) == 0.0
    ensures BuiltInSeconds(events) + CustomSeconds(events) == 0 ==> EventWeight(events, w) == 0.0
  {
    if events != [] {
      var n := |events| - 1;
      assert events[n] in events;
      NoTimeNoWeight(events[..n], w);
      EachNonNegative(events);
      EachNonNegative(events[..n]);
      ZeroTimes(WeightFor(w, events[n].category));
    }
    EachNonNegative(events);
    ZeroTimes(WeightFor(w, Productive));
    ZeroTimes(WeightFor(w, Neutral));
    ZeroTimes(WeightFor(w, Unproductive));
    hide Times, WeightFor;
  }

  lemma {:induction false} EachNonNegative(events: seq<Activity>)
    requires forall e :: e in events ==> e.seconds >= 0
    ensures EventSeconds(events, Productive) >= 0 && EventSeconds(events, Neutral) >= 0
    ensures EventSeconds(events, Unproductive) >= 0 && CustomSeconds(events) >= 0
  {
    if events != [] {
      assert events[|events| - 1] in events;
      EachNonNegative(events[..|events| - 1]);
    }
  }

  lemma MemberWithin(d: WorkDay, w: Weights, lo: real, hi: real)
    requires forall e :: e in DayEvents(d) ==> e.seconds >= 0
    requires DayRow(d, w).tracked > 0 ==> lo <= DayRow(d, w).indicator <= hi
    ensures Within(lo, hi, DayEvents(d), w)
  {
    var es := DayEvents(d);
    DayRowIs(d, w);
    TallyIsEventTime(es, Productive);
    TallyWeighsEvents(es, w);
    NoTimeNoWeight(es, w);
    ZeroTimes(lo);
    ZeroTimes(hi);
    hide Tally, Weighted, EventWeight, Times, BuiltInSeconds, CustomSeconds, DayRow, DayEvents, Total;
    var total := BuiltInSeconds(es) + CustomSeconds(es);
    if total > 0 { Divided(EventWeight(es, w), total as real, lo, hi); }
  }

  lemma WithinAdds(a: seq<Activity>, b: seq<Activity>, w: Weights, lo: real, hi: real)
    requires Within(lo, hi, a, w) && Within(lo, hi, b, w)
    ensures Within(lo, hi, a + b, w)
  {
    BuiltInConcat(a, b);
    WeightConcat(a, b, w);
    hide BuiltInSeconds, CustomSeconds, EventWeight, Times;
    var s, t := (BuiltInSeconds(a) + CustomSeconds(a)) as real, (BuiltInSeconds(b) + CustomSeconds(b)) as real;
    assert (BuiltInSeconds(a + b) + CustomSeconds(a + b)) as real == s + t;
    Distribute(s, t, lo);
    Distribute(s, t, hi);
  }

  lemma {:induction false} AllWithin(days: seq<WorkDay>, w: Weights, lo: real, hi: real)
    requires NonNegative(days)
    requires forall d :: d in days && DayRow(d, w).tracked > 0 ==> lo <= DayRow(d, w).indicator <= hi
    ensures Within(lo, hi, AllEvents(days), w)
  {
    if days == [] {
      ZeroTimes(lo);
      ZeroTimes(hi);
    } else {
      var n := |days| - 1;
      assert days[n] in days && AllEvents(days) == AllEvents(days[..n]) + DayEvents(days[n]);
      AllWithin(days[..n], w, lo, hi);
      MemberWithin(days[n], w, lo, hi);
      WithinAdds(AllEvents(days[..n]), DayEvents(days[n]), w, lo, hi);
    }
  }

  /**
    For any categories whatever, the indicator of all members' events lies between any bounds that
    hold for the members with tracked time.
  */
  lemma PooledLiesBetweenMembers(days: seq<WorkDay>, w: Weights, lo: real, hi: real)
    requires NonNegative(days) && Sum(Tracked, DayRows(days, w)) > 0
    requires forall d :: d in days && DayRow(d, w).tracked > 0 ==> lo <= DayRow(d, w).indicator <= hi
    ensures lo <= Pooled(days, w) <= hi
  {
    hide *;
    AllWithin(days, w, lo, hi);
    SumsAreEvents(days, w);
    PooledIs(days, w);
    var es := AllEvents(days);
    WithinIs(lo, hi, es, w);
    Divided(EventWeight(es, w), (BuiltInSeconds(es) + CustomSeconds(es)) as real, lo, hi);
  }

  // ---------- when the group row is that indicator ----------

  lemma CrossProducts(s: real, v: real, b: real, c: real)
    requires b > 0.0 && c >= 0.0
    ensures 100.0 * s / b == 100.0 * (s + v) / (b + c) <==> Times(s, c) == Times(v, b)
  {
    var x, y := 100.0 * s / b, 100.0 * (s + v) / (b + c);
    assert x * b == 100.0 * s && y * (b + c) == 100.0 * (s + v);
    assert (x - y) * (b * (b + c)) == 100.0 * s * (b + c) - 100.0 * (s + v) * b by {
      assert x * b * (b + c) == 100.0 * s * (b + c);
      assert y * (b + c) * b == 100.0 * (s + v) * b;
    }
    assert 100.0 * s * (b + c) - 100.0 * (s + v) * b == 100.0 * (s * c - v * b);
    assert b * (b + c) > 0.0;
    NoZeroDivisors(x - y, b * (b + c));
  }

  lemma NoZeroDivisors(a: real, b: real)
    requires b > 0.0
    ensures a * b == 0.0 <==> a == 0.0
  {
    if a > 0.0 { assert a * b > 0.0; }
    if a < 0.0 { assert (0.0 - a) * b > 0.0; }
  }

  /**
    The exact condition, on the events and weights alone: custom and built-in time have the same
    average weight; or, without built-in time, custom time has no weight at all.
  */
  predicate CustomTimeFits(events: seq<Activity>, w: Weights) {
    if BuiltInSeconds(events) > 0
    then Times(BuiltInWeight(events, w), CustomSeconds(events) as real) ==
         Times(CustomWeight(events, w), BuiltInSeconds(events) as real)
    else CustomWeight(events, w) == 0.0
  }

  lemma SummaryIs(days: seq<WorkDay>, w: Weights)
    ensures var es := AllEvents(days);
            Summarize(DayRows(days, w), w).indicator ==
            if BuiltInSeconds(es) <= 0 then 0.0 else 100.0 * BuiltInWeight(es, w) / BuiltInSeconds(es) as real
  {
    var es := AllEvents(days);
    SumsAreEvents(days, w);
    ThreeBuckets(EventSeconds(es, Productive), EventSeconds(es, Neutral), EventSeconds(es, Unproductive), w);
    hide Indicator, Score, EventSeconds, CustomSeconds, DayRows, AllEvents, Sum;
  }

  lemma SummaryIsPooledExactly(days: seq<WorkDay>, w: Weights)
    requires NonNegative(days) && Sum(Tracked, DayRows(days, w)) > 0
    ensures Summarize(DayRows(days, w), w).indicator == Pooled(days, w) <==> CustomTimeFits(AllEvents(days), w)
  {
    var es := AllEvents(days);
    NoTimeNoWeight(es, w);
    hide *;
    SumsAreEvents(days, w);
    SummaryIs(days, w);
    PooledIs(days, w);
    WeightSplits(es, w);
    FitsIs(es, w);
    QuotientsAgree(BuiltInSeconds(es), CustomSeconds(es), BuiltInWeight(es, w), CustomWeight(es, w));
  }

  lemma FitsIs(events: seq<Activity>, w: Weights)
    ensures var b, c := BuiltInSeconds(events), CustomSeconds(events);
            CustomTimeFits(events, w) <==>
            if b > 0 then Times(BuiltInWeight(events, w), c as real) == Times(CustomWeight(events, w), b as real)
            else CustomWeight(events, w) == 0.0
  {
  }

  lemma QuotientsAgree(b: int, c: int, s: real, v: real)
    requires b >= 0 && c >= 0 && b + c > 0 && (b == 0 ==> s == 0.0)
    ensures (if b <= 0 then 0.0 else 100.0 * s / b as real) == 100.0 * (s + v) / (b + c) as real <==>
            if b > 0 then Times(s, c as real) == Times(v, b as real) else v == 0.0
  {
    assert (b + c) as real == b as real + c as real;
    hide Times;
    if b > 0 {
      CrossProducts(s, v, b as real, c as real);
    } else {
      NoQuotient(v, c as real);
    }
  }

  lemma NoQuotient(v: real, c: real)
    requires c > 0.0
    ensures 100.0 * v / c == 0.0 <==> v == 0.0
  {
  }

  /**
    The row that the run writes for a group has the indicator of all its members' events exactly
    when their custom time fits.
  */
  lemma GroupIsPooledExactly(
    days: seq<WorkDay>, members: seq<Member>, axis: Grouping, id: nat, w: Weights)
    requires var mine := DaysIn(days, members, axis, Some(id));
             NonNegative(mine) && Sum(Tracked, DayRows(mine, w)) > 0
    ensures var mine := DaysIn(days, members, axis, Some(id));
            var row := Summarize(Those(DayRows(days, w), members, axis, Some(id)), w);
            row.indicator == Pooled(mine, w) <==> CustomTimeFits(AllEvents(mine), w)
  {
    ThoseAreDays(days, members, axis, Some(id), w);
    SummaryIsPooledExactly(DaysIn(days, members, axis, Some(id)), w);
    hide *;
  }

  /**
    A group's indicator keeps to given bounds, such as its members' least and greatest, exactly when
    its built-in time alone does; without any, exactly when they allow for 0.
  */
  lemma BoundSurvivesExactly(days: seq<WorkDay>, w: Weights, lo: real, hi: real)
    requires NonNegative(days)
    ensures var es := AllEvents(days);
            lo <= Summarize(DayRows(days, w), w).indicator <= hi <==>
            var total := BuiltInSeconds(es);
            if total > 0 then Times(total as real, lo) <= 100.0 * BuiltInWeight(es, w) <= Times(total as real, hi)
            else lo <= 0.0 <= hi
  {
    hide *;
    SummaryIs(days, w);
    var es := AllEvents(days);
    if BuiltInSeconds(es) > 0 { Divided(BuiltInWeight(es, w), BuiltInSeconds(es) as real, lo, hi); }
  }

  /** A group of one has its member's indicator exactly when the member's custom time fits. */
  lemma OneMemberExactly(d: WorkDay, w: Weights)
    requires (forall e :: e in DayEvents(d) ==> e.seconds >= 0) && DayRow(d, w).tracked > 0
    ensures Summarize([DayRow(d, w)], w).indicator == DayRow(d, w).indicator <==> CustomTimeFits(DayEvents(d), w)
  {
    assert [d][..0] == [] && AllEvents([d]) == [] + DayEvents(d) == DayEvents(d);
    assert DayRows([d], w) == [DayRow(d, w)];
    assert [DayRow(d, w)][..0] == [];
    DayRowIs(d, w);
    hide DayRow, DayEvents, Summarize, Tally, Indicator, CustomTimeFits;
    SummaryIsPooledExactly([d], w);
  }
}
