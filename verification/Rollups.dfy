/**
  Daily productivity rollups: backend/app/productivity/rollups.py, with the classification
  choice and the indicator of backend/app/productivity/resolver.py. Indicators are exact.
*/
module Rollups {
  import opened Common

  // ---------- classification ----------

  datatype Scope = TeamScope | DepartmentScope | OrganizationScope | OtherScope

  datatype Rule = Rule(scope: Scope, scopeId: nat, category: nat)

  function Rank(s: Scope): nat {
    match s case TeamScope => 3 case DepartmentScope => 2 case OrganizationScope => 1 case OtherScope => 0
  }

  predicate Matches(r: Rule, team: Option<nat>, department: Option<nat>) {
    (r.scope.TeamScope? ==> team == Some(r.scopeId)) && (r.scope.DepartmentScope? ==> department == Some(r.scopeId))
  }

  /** A team's rule is the most specific, then a department's, then the organization's. */
  predicate AtMostAsSpecific(a: Scope, b: Scope) {
    (a == TeamScope ==> b == TeamScope) && (a == DepartmentScope ==> b in {TeamScope, DepartmentScope}) &&
    (a == OrganizationScope ==> b != OtherScope)
  }

  /** Chooses the first of the most specific rules that match. */
  method PickCategory(rules: seq<Rule>, team: Option<nat>, department: Option<nat>) returns (best: Option<nat>)
    ensures best.None? <==> forall i :: 0 <= i < |rules| ==> !Matches(rules[i], team, department)
    ensures best.Some? ==> exists w ::
      0 <= w < |rules| && Matches(rules[w], team, department) && best == Some(rules[w].category) &&
      (forall i :: 0 <= i < |rules| && Matches(rules[i], team, department) ==>
        AtMostAsSpecific(rules[i].scope, rules[w].scope)) &&
      (forall i :: 0 <= i < w && Matches(rules[i], team, department) ==> rules[i].scope != rules[w].scope)
  {
    best := None;
    var bestRank: int := -1;
    ghost var w: int := -1;
    for i := 0 to |rules|
      invariant best.None? <==> w == -1
      invariant best.None? ==> bestRank == -1 && forall k :: 0 <= k < i ==> !Matches(rules[k], team, department)
      invariant -1 <= w < i
      invariant w >= 0 ==>
        Matches(rules[w], team, department) && best == Some(rules[w].category) && bestRank == Rank(rules[w].scope)
      invariant forall k :: 0 <= k < i && Matches(rules[k], team, department) ==> Rank(rules[k].scope) <= bestRank
      invariant forall k :: 0 <= k < w && Matches(rules[k], team, department) ==> Rank(rules[k].scope) < bestRank
    {
      var r := rules[i];
      if r.scope.TeamScope? && team != Some(r.scopeId) { continue; }
      if r.scope.DepartmentScope? && department != Some(r.scopeId) { continue; }
      if Rank(r.scope) > bestRank {
        bestRank := Rank(r.scope);
        best := Some(r.category);
        w := i;
      }
    }
  }

  // ---------- one employee's day ----------

  datatype Category = Productive | Neutral | Unproductive | Custom(name: string)

  type Weights = map<Category, real>

  function WeightFor(w: Weights, c: Category): real {
    if c in w then w[c] else 0.5
  }

  /** A classified application or website event. */
  datatype Activity = Activity(category: Category, seconds: int)

  /** Seconds by category, in the order the categories first appear. */
  type Buckets = seq<Activity>

  const NO_TIME: Buckets := [Activity(Productive, 0), Activity(Neutral, 0), Activity(Unproductive, 0)]

  function AddTime(bs: Buckets, c: Category, seconds: int): Buckets {
    if bs == [] then [Activity(c, seconds)]
    else if bs[0].category == c then [Activity(c, bs[0].seconds + seconds)] + bs[1..]
    else [bs[0]] + AddTime(bs[1..], c, seconds)
  }

  function SecondsOf(bs: Buckets, c: Category): int {
    if bs == [] then 0 else (if bs[0].category == c then bs[0].seconds else 0) + SecondsOf(bs[1..], c)
  }

  function Total(bs: Buckets): int {
    if bs == [] then 0 else bs[0].seconds + Total(bs[1..])
  }

  function Weighted(bs: Buckets, w: Weights): real {
    if bs == [] then 0.0 else Times(bs[0].seconds as real, WeightFor(w, bs[0].category)) + Weighted(bs[1..], w)
  }

  /** compute_indicator before rounding: 100 * weighted / total, or 0 without time. */
  function Indicator(bs: Buckets, w: Weights): real {
    if Total(bs) <= 0 then 0.0 else 100.0 * Weighted(bs, w) / Total(bs) as real
  }

  function Tally(events: seq<Activity>): Buckets {
    if events == [] then NO_TIME
    else AddTime(Tally(events[..|events| - 1]), events[|events| - 1].category, events[|events| - 1].seconds)
  }

  /** Multiplication under a name, so that proofs can treat products as they stand. */
  function Times(a: real, b: real): real {
    a * b
  }

  lemma Distribute(a: real, b: real, k: real)
    ensures Times(a + b, k) == Times(a, k) + Times(b, k)
  {
  }

  lemma {:induction false} AddTimeAdds(bs: Buckets, c: Category, seconds: int, d: Category)
    ensures Total(AddTime(bs, c, seconds)) == Total(bs) + seconds
    ensures SecondsOf(AddTime(bs, c, seconds), d) == SecondsOf(bs, d) + (if c == d then seconds else 0)
  {
    var r := AddTime(bs, c, seconds);
    if bs != [] {
      if bs[0].category == c {
        assert r[1..] == bs[1..];
      } else {
        AddTimeAdds(bs[1..], c, seconds, d);
        assert r[1..] == AddTime(bs[1..], c, seconds);
      }
    }
  }

  /** The numerator of the indicator grows by the new time at its category's weight. */
  lemma {:induction false} AddTimeWeighs(bs: Buckets, c: Category, seconds: int, w: Weights)
    ensures Weighted(AddTime(bs, c, seconds), w) == Weighted(bs, w) + Times(seconds as real, WeightFor(w, c))
  {
    var r := AddTime(bs, c, seconds);
    if bs == [] {
      assert r[1..] == [];
    } else if bs[0].category == c {
      assert r[1..] == bs[1..];
      Distribute(bs[0].seconds as real, seconds as real, WeightFor(w, c));
    } else {
      AddTimeWeighs(bs[1..], c, seconds, w);
      assert r[1..] == AddTime(bs[1..], c, seconds);
    }
  }

  lemma Buckets3(p: int, n: int, u: int, c: Category, w: Weights)
    ensures var bs := [Activity(Productive, p), Activity(Neutral, n), Activity(Unproductive, u)];
            Total(bs) == p + n + u &&
            SecondsOf(bs, c) ==
            (match c case Productive => p case Neutral => n case Unproductive => u case Custom(_) => 0) &&
            Weighted(bs, w) ==
            Times(p as real, WeightFor(w, Productive)) + Times(n as real, WeightFor(w, Neutral)) +
            Times(u as real, WeightFor(w, Unproductive))
  {
    var bs := [Activity(Productive, p), Activity(Neutral, n), Activity(Unproductive, u)];
    var two := [Activity(Neutral, n), Activity(Unproductive, u)];
    var one := [Activity(Unproductive, u)];
    assert bs[1..] == two && two[1..] == one && one[1..] == [];
    assert Total(one) == u && Total(two) == n + u;
    assert SecondsOf(one, c) == if c.Unproductive? then u else 0;
    assert SecondsOf(two, c) == (if c.Neutral? then n else 0) + SecondsOf(one, c);
    assert Weighted(one, w) == Times(u as real, WeightFor(w, Unproductive));
    assert Weighted(two, w) == Times(n as real, WeightFor(w, Neutral)) + Weighted(one, w);
  }

  function EventSeconds(events: seq<Activity>, c: Category): int {
    if events == [] then 0
    else EventSeconds(events[..|events| - 1], c) +
         (if events[|events| - 1].category == c then events[|events| - 1].seconds else 0)
  }

  predicate IsBuiltIn(c: Category) {
    !c.Custom?
  }

  function CustomSeconds(events: seq<Activity>): int {
    if events == [] then 0
    else CustomSeconds(events[..|events| - 1]) +
         (if IsBuiltIn(events[|events| - 1].category) then 0 else events[|events| - 1].seconds)
  }

  /** The indicator's numerator over the raw events. */
  function EventWeight(events: seq<Activity>, w: Weights): real {
    if events == [] then 0.0
    else EventWeight(events[..|events| - 1], w) +
         Times(events[|events| - 1].seconds as real, WeightFor(w, events[|events| - 1].category))
  }

  /** Each category's bucket is the time of its events, and tracked time is the time of all events. */
  lemma {:induction false} TallyIsEventTime(events: seq<Activity>, c: Category)
    ensures SecondsOf(Tally(events), c) == EventSeconds(events, c)
    ensures Total(Tally(events)) ==
            EventSeconds(events, Productive) + EventSeconds(events, Neutral) + EventSeconds(events, Unproductive) +
              CustomSeconds(events)
  {
    if events != [] {
      var n := |events| - 1;
      TallyIsEventTime(events[..n], c);
      AddTimeAdds(Tally(events[..n]), events[n].category, events[n].seconds, c);
    } else {
      Buckets3(0, 0, 0, c, map[]);
    }
  }

  lemma TallyUnfolds(events: seq<Activity>)
    requires events != []
    ensures var n := |events| - 1; Tally(events) == AddTime(Tally(events[..n]), events[n].category, events[n].seconds)
  {
  }

  /** The indicator's numerator is that of all events, custom categories included. */
  lemma {:induction false} TallyWeighsEvents(events: seq<Activity>, w: Weights)
    ensures Weighted(Tally(events), w) == EventWeight(events, w)
  {
    if events != [] {
      hide Tally, AddTime, Weighted, WeightFor, Times;
      var n := |events| - 1;
      TallyUnfolds(events);
      TallyWeighsEvents(events[..n], w);
      AddTimeWeighs(Tally(events[..n]), events[n].category, events[n].seconds, w);
    } else {
      Buckets3(0, 0, 0, Productive, w);
    }
  }

  datatype Row = Row(
    employee: nat, tracked: int, productive: int, neutral: int, unproductive: int,
    idle: int, worked: int, indicator: real)

  /** idle and worked come from the day's attendance row, or are 0 without one. */
  function EmployeeRow(
    employee: nat, apps: seq<Activity>, sites: seq<Activity>, idle: int, worked: int, w: Weights): Row {
    var bs := Tally(apps + sites);
    Row(employee, Total(bs), SecondsOf(bs, Productive), SecondsOf(bs, Neutral), SecondsOf(bs, Unproductive),
        idle, worked, Indicator(bs, w))
  }

  /** tracked = productive + neutral + unproductive holds exactly when no custom-category time was logged. */
  lemma TrackedIsThreeCategoriesExactly(
    employee: nat, apps: seq<Activity>, sites: seq<Activity>, idle: int, worked: int, w: Weights)
    ensures var r := EmployeeRow(employee, apps, sites, idle, worked, w);
            r.tracked == r.productive + r.neutral + r.unproductive <==> CustomSeconds(apps + sites) == 0
  {
    TallyIsEventTime(apps + sites, Productive);
    TallyIsEventTime(apps + sites, Neutral);
    TallyIsEventTime(apps + sites, Unproductive);
  }

  method ComputeEmployeeRollup(
    employee: nat, apps: seq<Activity>, sites: seq<Activity>, idle: int, worked: int, w: Weights) returns (r: Row)
    ensures r == EmployeeRow(employee, apps, sites, idle, worked, w)
  {
    var bs := NO_TIME;
    for i := 0 to |apps|
      invariant bs == Tally(apps[..i])
    {
      assert apps[..i + 1][..i] == apps[..i];
      bs := AddTime(bs, apps[i].category, apps[i].seconds);
    }
    assert apps[..|apps|] == apps && apps + sites[..0] == apps;
    for i := 0 to |sites|
      invariant bs == Tally(apps + sites[..i])
    {
      assert (apps + sites[..i + 1])[..|apps| + i] == apps + sites[..i];
      bs := AddTime(bs, sites[i].category, sites[i].seconds);
    }
    assert apps + sites[..|sites|] == apps + sites;
    r := Row(employee, Total(bs), SecondsOf(bs, Productive), SecondsOf(bs, Neutral), SecondsOf(bs, Unproductive),
             idle, worked, Indicator(bs, w));
  }

  // ---------- groups ----------

  datatype Member = Member(id: nat, team: Option<nat>, department: Option<nat>)

  datatype Grouping = ByTeam | ByDepartment

  /** The group of an employee id; a repeated id takes its last member, an unknown one has no group. */
  function GroupOf(members: seq<Member>, axis: Grouping, id: nat): Option<nat> {
    if members == [] then None
    else
      var m := members[|members| - 1];
      if m.id == id then (if axis.ByTeam? then m.team else m.department)
      else GroupOf(members[..|members| - 1], axis, id)
  }

  datatype Group = Group(id: nat, rows: seq<Row>)

  function AppendTo(gs: seq<Group>, id: nat, r: Row): seq<Group> {
    if gs == [] then [Group(id, [r])]
    else if gs[0].id == id then [Group(id, gs[0].rows + [r])] + gs[1..]
    else [gs[0]] + AppendTo(gs[1..], id, r)
  }

  function Groups(rows: seq<Row>, members: seq<Member>, axis: Grouping): seq<Group> {
    if rows == [] then []
    else
      var r := rows[|rows| - 1];
      var before := Groups(rows[..|rows| - 1], members, axis);
      match GroupOf(members, axis, r.employee) case None => before case Some(id) => AppendTo(before, id, r)
  }

  function RowsOf(gs: seq<Group>, id: nat): seq<Row> {
    if gs == [] then [] else if gs[0].id == id then gs[0].rows else RowsOf(gs[1..], id)
  }

  /** The rows of the employees in one group (or in none), in order. */
  function Those(rows: seq<Row>, members: seq<Member>, axis: Grouping, group: Option<nat>): seq<Row> {
    if rows == [] then []
    else Those(rows[..|rows| - 1], members, axis, group) +
         (if GroupOf(members, axis, rows[|rows| - 1].employee) == group then [rows[|rows| - 1]] else [])
  }

  ghost predicate DistinctIds(gs: seq<Group>) {
    forall i, j :: 0 <= i < j < |gs| ==> gs[i].id != gs[j].id
  }

  lemma {:induction false} AppendToGroup(gs: seq<Group>, id: nat, r: Row, other: nat)
    ensures RowsOf(AppendTo(gs, id, r), other) == RowsOf(gs, other) + (if id == other then [r] else [])
  {
    if gs != [] && gs[0].id != id { AppendToGroup(gs[1..], id, r, other); }
  }

  lemma AppendToKeepsDistinct(gs: seq<Group>, id: nat, r: Row)
    requires DistinctIds(gs)
    ensures DistinctIds(AppendTo(gs, id, r))
  {
    AppendToIds(gs, id, r);
    hide AppendTo;
  }

  /** Appending to a group keeps the ids in place, or adds one at the end. */
  lemma {:induction false} AppendToIds(gs: seq<Group>, id: nat, r: Row)
    ensures var out := AppendTo(gs, id, r);
            |gs| <= |out| <= |gs| + 1 && (forall i :: 0 <= i < |gs| ==> out[i].id == gs[i].id) &&
            (|out| == |gs| + 1 ==> out[|gs|].id == id && forall i :: 0 <= i < |gs| ==> gs[i].id != id)
  {
    if gs != [] && gs[0].id != id { AppendToIds(gs[1..], id, r); }
  }

  /** Grouping puts each row in its employee's group, once and in order. */
  lemma {:induction false} GroupsAre(rows: seq<Row>, members: seq<Member>, axis: Grouping, id: nat)
    ensures DistinctIds(Groups(rows, members, axis))
    ensures RowsOf(Groups(rows, members, axis), id) == Those(rows, members, axis, Some(id))
  {
    if rows != [] {
      var n := |rows| - 1;
      GroupsAre(rows[..n], members, axis, id);
      match GroupOf(members, axis, rows[n].employee)
      case None =>
      case Some(gid) =>
        AppendToGroup(Groups(rows[..n], members, axis), gid, rows[n], id);
        AppendToKeepsDistinct(Groups(rows[..n], members, axis), gid, rows[n]);
    }
  }

  /** Members listed once have the team and the department they are listed with; others have none. */
  lemma {:induction false} GroupOfMember(members: seq<Member>, k: nat)
    requires k < |members| && forall i :: 0 <= i < |members| && i != k ==> members[i].id != members[k].id
    ensures GroupOf(members, ByTeam, members[k].id) == members[k].team
    ensures GroupOf(members, ByDepartment, members[k].id) == members[k].department
  {
    if k < |members| - 1 { GroupOfMember(members[..|members| - 1], k); }
  }

  lemma {:induction false} GroupOfStranger(members: seq<Member>, axis: Grouping, id: nat)
    requires forall i :: 0 <= i < |members| ==> members[i].id != id
    ensures GroupOf(members, axis, id) == None
  {
    if members != [] { GroupOfStranger(members[..|members| - 1], axis, id); }
  }

  // ---------- group rows ----------

  datatype Measure = Tracked | ProductiveTime | NeutralTime | UnproductiveTime | IdleTime | Headcount

  function Value(m: Measure, r: Row): int {
    match m
    case Tracked => r.tracked
    case ProductiveTime => r.productive
    case NeutralTime => r.neutral
    case UnproductiveTime => r.unproductive
    case IdleTime => r.idle
    case Headcount => 1
  }

  function Sum(m: Measure, rows: seq<Row>): int {
    if rows == [] then 0 else Sum(m, rows[..|rows| - 1]) + Value(m, rows[|rows| - 1])
  }

  datatype GroupRow = GroupRow(
    employees: int, tracked: int, productive: int, neutral: int, unproductive: int, idle: int, indicator: real)

  function GroupValue(m: Measure, g: GroupRow): int {
    match m
    case Tracked => g.tracked
    case ProductiveTime => g.productive
    case NeutralTime => g.neutral
    case UnproductiveTime => g.unproductive
    case IdleTime => g.idle
    case Headcount => g.employees
  }

  function Summarize(rows: seq<Row>, w: Weights): GroupRow {
    var p, n, u := Sum(ProductiveTime, rows), Sum(NeutralTime, rows), Sum(UnproductiveTime, rows);
    GroupRow(|rows|, Sum(Tracked, rows), p, n, u, Sum(IdleTime, rows),
             Indicator([Activity(Productive, p), Activity(Neutral, n), Activity(Unproductive, u)], w))
  }

  /** Column by column, a group row counts its rows and adds up their times. */
  lemma SummaryGrows(rows: seq<Row>, r: Row, w: Weights)
    ensures var g, h := Summarize(rows, w), Summarize(rows + [r], w);
            h.employees == g.employees + 1 && h.tracked == g.tracked + r.tracked &&
            h.productive == g.productive + r.productive && h.neutral == g.neutral + r.neutral &&
            h.unproductive == g.unproductive + r.unproductive && h.idle == g.idle + r.idle
  {
    assert (rows + [r])[..|rows|] == rows;
    hide Indicator;
  }

  lemma EmptySummary(w: Weights)
    ensures Summarize([], w) == GroupRow(0, 0, 0, 0, 0, 0, 0.0)
  {
    ThreeBuckets(0, 0, 0, w);
  }

  function SumOfGroups(m: Measure, gs: seq<Group>, w: Weights): int {
    if gs == [] then 0 else GroupValue(m, Summarize(gs[0].rows, w)) + SumOfGroups(m, gs[1..], w)
  }

  lemma {:induction false} SumIsGroupValue(m: Measure, rows: seq<Row>, w: Weights)
    ensures GroupValue(m, Summarize(rows, w)) == Sum(m, rows)
  {
    if m.Headcount? && rows != [] { SumIsGroupValue(m, rows[..|rows| - 1], w); }
  }

  lemma {:induction false} AppendToAddsOnce(m: Measure, gs: seq<Group>, id: nat, r: Row, w: Weights)
    ensures SumOfGroups(m, AppendTo(gs, id, r), w) == SumOfGroups(m, gs, w) + Value(m, r)
  {
    if gs == [] {
      SumIsGroupValue(m, [r], w);
      assert [r][..0] == [];
    } else if gs[0].id == id {
      SumIsGroupValue(m, gs[0].rows, w);
      SumIsGroupValue(m, gs[0].rows + [r], w);
      assert (gs[0].rows + [r])[..|gs[0].rows|] == gs[0].rows;
    } else {
      AppendToAddsOnce(m, gs[1..], id, r, w);
    }
  }

  /** Group rows plus the employees without a group add up to the employee rows, in every measure. */
  lemma {:induction false} RollupConserves(m: Measure, rows: seq<Row>, members: seq<Member>, axis: Grouping, w: Weights)
    ensures SumOfGroups(m, Groups(rows, members, axis), w) + Sum(m, Those(rows, members, axis, None)) == Sum(m, rows)
  {
    if rows != [] {
      var n := |rows| - 1;
      var r := rows[n];
      var before := Those(rows[..n], members, axis, None);
      RollupConserves(m, rows[..n], members, axis, w);
      match GroupOf(members, axis, r.employee)
      case None => assert (before + [r])[..|before|] == before;
      case Some(id) =>
        AppendToAddsOnce(m, Groups(rows[..n], members, axis), id, r, w);
        assert before + [] == before;
    }
  }

  // ---------- bounds on indicators ----------

  function Score(p: int, n: int, u: int, w: Weights): real {
    Times(p as real, WeightFor(w, Productive)) + Times(n as real, WeightFor(w, Neutral)) +
      Times(u as real, WeightFor(w, Unproductive))
  }

  function ScoreIndicator(p: int, n: int, u: int, w: Weights): real {
    if p + n + u <= 0 then 0.0 else 100.0 * Score(p, n, u, w) / (p + n + u) as real
  }

  lemma ThreeBuckets(p: int, n: int, u: int, w: Weights)
    ensures Indicator([Activity(Productive, p), Activity(Neutral, n), Activity(Unproductive, u)], w) ==
            ScoreIndicator(p, n, u, w)
  {
    Buckets3(p, n, u, Productive, w);
  }

  /** A row of an employee whose time is non-negative and in the built-in categories only. */
  ghost predicate Plain(r: Row, w: Weights) {
    r.productive >= 0 && r.neutral >= 0 && r.unproductive >= 0 &&
    r.tracked == r.productive + r.neutral + r.unproductive &&
    r.indicator == ScoreIndicator(r.productive, r.neutral, r.unproductive, w)
  }

  lemma AddTimeTo3(p: int, n: int, u: int, e: Activity)
    requires IsBuiltIn(e.category)
    ensures var bs := [Activity(Productive, p), Activity(Neutral, n), Activity(Unproductive, u)];
            AddTime(bs, e.category, e.seconds) ==
            [Activity(Productive, if e.category.Productive? then p + e.seconds else p),
             Activity(Neutral, if e.category.Neutral? then n + e.seconds else n),
             Activity(Unproductive, if e.category.Unproductive? then u + e.seconds else u)]
  {
    var one, two := [Activity(Unproductive, u)], [Activity(Neutral, n), Activity(Unproductive, u)];
    assert two[1..] == one && ([Activity(Productive, p)] + two)[1..] == two && one[1..] == [];
    assert [Activity(Productive, p), Activity(Neutral, n), Activity(Unproductive, u)] ==
           [Activity(Productive, p)] + two;
    if e.category.Unproductive? {
      assert AddTime(one, e.category, e.seconds) == [Activity(Unproductive, u + e.seconds)];
    }
    if !e.category.Productive? {
      assert AddTime(two, e.category, e.seconds) ==
        [Activity(Neutral, if e.category.Neutral? then n + e.seconds else n),
         Activity(Unproductive, if e.category.Unproductive? then u + e.seconds else u)];
    }
  }

  lemma {:induction false} BuiltInTally(events: seq<Activity>)
    requires forall e :: e in events ==> IsBuiltIn(e.category) && e.seconds >= 0
    ensures Tally(events) == [Activity(Productive, EventSeconds(events, Productive)),
                              Activity(Neutral, EventSeconds(events, Neutral)),
                              Activity(Unproductive, EventSeconds(events, Unproductive))]
    ensures EventSeconds(events, Productive) >= 0 && EventSeconds(events, Neutral) >= 0 &&
            EventSeconds(events, Unproductive) >= 0
  {
    if events != [] {
      var n := |events| - 1;
      assert events[n] in events;
      BuiltInTally(events[..n]);
      AddTimeTo3(EventSeconds(events[..n], Productive), EventSeconds(events[..n], Neutral),
        EventSeconds(events[..n], Unproductive), events[n]);
    }
  }

  lemma BuiltInRowIsPlain(employee: nat, apps: seq<Activity>, sites: seq<Activity>, idle: int, worked: int, w: Weights)
    requires forall e :: e in apps + sites ==> IsBuiltIn(e.category) && e.seconds >= 0
    ensures Plain(EmployeeRow(employee, apps, sites, idle, worked, w), w)
  {
    var events := apps + sites;
    BuiltInTally(events);
    TallyIsEventTime(events, Productive);
    TallyIsEventTime(events, Neutral);
    TallyIsEventTime(events, Unproductive);
    NoCustomSeconds(events);
    ThreeBuckets(
      EventSeconds(events, Productive), EventSeconds(events, Neutral), EventSeconds(events, Unproductive), w);
  }

  lemma {:induction false} NoCustomSeconds(events: seq<Activity>)
    requires forall e :: e in events ==> IsBuiltIn(e.category)
    ensures CustomSeconds(events) == 0
  {
    if events != [] {
      assert events[|events| - 1] in events;
      NoCustomSeconds(events[..|events| - 1]);
    }
  }

  lemma Divided(score: real, total: real, lo: real, hi: real)
    requires total > 0.0
    ensures Times(total, lo) <= 100.0 * score <= Times(total, hi) <==> lo <= 100.0 * score / total <= hi
  {
    var q := 100.0 * score / total;
    assert Times(total, q) == 100.0 * score;
    TimesMonotone(total, lo, q);
    TimesMonotone(total, q, hi);
    hide Times;
  }

  lemma TimesMonotone(k: real, a: real, b: real)
    requires k > 0.0
    ensures Times(k, a) <= Times(k, b) <==> a <= b
  {
    if a <= b { assert k * a <= k * b; } else { assert k * a > k * b; }
  }

  ghost predicate Between(lo: real, hi: real, p: int, n: int, u: int, w: Weights) {
    Times((p + n + u) as real, lo) <= 100.0 * Score(p, n, u, w) <= Times((p + n + u) as real, hi)
  }

  lemma PlainRowBetween(r: Row, w: Weights, lo: real, hi: real)
    requires Plain(r, w) && (r.tracked > 0 ==> lo <= r.indicator <= hi)
    ensures Between(lo, hi, r.productive, r.neutral, r.unproductive, w)
  {
    if r.tracked > 0 {
      Divided(Score(r.productive, r.neutral, r.unproductive, w), r.tracked as real, lo, hi);
      hide Times, Score;
    }
  }

  lemma BetweenAdds(lo: real, hi: real, p: int, n: int, u: int, p': int, n': int, u': int, w: Weights)
    requires Between(lo, hi, p, n, u, w) && Between(lo, hi, p', n', u', w)
    ensures Between(lo, hi, p + p', n + n', u + u', w)
  {
    hide Times, Score;
    ScoreAdds(p, n, u, p', n', u', w);
    var t, t' := (p + n + u) as real, (p' + n' + u') as real;
    assert ((p + p') + (n + n') + (u + u')) as real == t + t';
    Distribute(t, t', lo);
    Distribute(t, t', hi);
  }

  lemma ScoreAdds(p: int, n: int, u: int, p': int, n': int, u': int, w: Weights)
    ensures Score(p + p', n + n', u + u', w) == Score(p, n, u, w) + Score(p', n', u', w)
  {
    hide Times, WeightFor;
    assert (p + p') as real == p as real + p' as real;
    assert (n + n') as real == n as real + n' as real;
    assert (u + u') as real == u as real + u' as real;
    Distribute(p as real, p' as real, WeightFor(w, Productive));
    Distribute(n as real, n' as real, WeightFor(w, Neutral));
    Distribute(u as real, u' as real, WeightFor(w, Unproductive));
  }

  lemma {:induction false} RowsBetween(rows: seq<Row>, w: Weights, lo: real, hi: real)
    requires forall r :: r in rows ==> Plain(r, w) && (r.tracked > 0 ==> lo <= r.indicator <= hi)
    ensures Between(lo, hi, Sum(ProductiveTime, rows), Sum(NeutralTime, rows), Sum(UnproductiveTime, rows), w)
    ensures Sum(Tracked, rows) == Sum(ProductiveTime, rows) + Sum(NeutralTime, rows) + Sum(UnproductiveTime, rows)
  {
    if rows != [] {
      var n := |rows| - 1;
      var r := rows[n];
      assert r in rows;
      RowsBetween(rows[..n], w, lo, hi);
      PlainRowBetween(r, w, lo, hi);
      BetweenAdds(lo, hi, Sum(ProductiveTime, rows[..n]), Sum(NeutralTime, rows[..n]), Sum(UnproductiveTime, rows[..n]),
                  r.productive, r.neutral, r.unproductive, w);
    }
  }

  /**
    With only the built-in categories a group's indicator lies between any bounds that hold for
    its members with tracked time: in particular between the least and the greatest of them.
  */
  lemma GroupLiesBetweenMembers(rows: seq<Row>, w: Weights, lo: real, hi: real)
    requires forall r :: r in rows ==> Plain(r, w) && (r.tracked > 0 ==> lo <= r.indicator <= hi)
    requires Summarize(rows, w).tracked > 0
    ensures lo <= Summarize(rows, w).indicator <= hi
  {
    hide Sum, Score, WeightFor, Plain, Indicator, Times;
    RowsBetween(rows, w, lo, hi);
    var p, n, u := Sum(ProductiveTime, rows), Sum(NeutralTime, rows), Sum(UnproductiveTime, rows);
    ThreeBuckets(p, n, u, w);
    Divided(Score(p, n, u, w), (p + n + u) as real, lo, hi);
  }

  /** Weights between 0 and 1 keep any indicator between 0 and 100, custom categories included. */
  lemma IndicatorInPercent(bs: Buckets, w: Weights)
    requires (forall b :: b in bs ==> b.seconds >= 0) && forall c :: c in w ==> 0.0 <= w[c] <= 1.0
    ensures 0.0 <= Indicator(bs, w) <= 100.0
  {
    WeightedInRange(bs, w);
    hide Weighted, Times;
    if Total(bs) > 0 {
      ScaleBy100(Weighted(bs, w), Total(bs) as real);
      Divided(Weighted(bs, w), Total(bs) as real, 0.0, 100.0);
    }
  }

  lemma ScaleBy100(score: real, total: real)
    requires 0.0 <= score <= total
    ensures Times(total, 0.0) <= 100.0 * score <= Times(total, 100.0)
  {
  }

  lemma {:induction false} WeightedInRange(bs: Buckets, w: Weights)
    requires (forall b :: b in bs ==> b.seconds >= 0) && forall c :: c in w ==> 0.0 <= w[c] <= 1.0
    ensures 0 <= Total(bs) && 0.0 <= Weighted(bs, w) <= Total(bs) as real
  {
    if bs != [] {
      WeightedInRange(bs[1..], w);
      WeightedBounds(bs[0].seconds, WeightFor(w, bs[0].category));
      assert Total(bs) as real == bs[0].seconds as real + Total(bs[1..]) as real;
      hide Times;
    }
  }

  lemma {:induction false} AddTimeNonNegative(bs: Buckets, c: Category, seconds: int)
    requires seconds >= 0 && forall b :: b in bs ==> b.seconds >= 0
    ensures forall b :: b in AddTime(bs, c, seconds) ==> b.seconds >= 0
  {
    if bs != [] && bs[0].category != c { AddTimeNonNegative(bs[1..], c, seconds); }
  }

  lemma {:induction false} TallyNonNegative(events: seq<Activity>)
    requires forall e :: e in events ==> e.seconds >= 0
    ensures forall b :: b in Tally(events) ==> b.seconds >= 0
  {
    if events != [] {
      var n := |events| - 1;
      assert events[n] in events;
      TallyNonNegative(events[..n]);
      AddTimeNonNegative(Tally(events[..n]), events[n].category, events[n].seconds);
    }
  }

  /** Time of a single category scores 100 times the category's weight, which is 0.5 if it has none. */
  lemma {:induction false} OneCategoryScores(events: seq<Activity>, c: Category, w: Weights)
    requires forall e :: e in events ==> e.category == c
    requires Total(Tally(events)) > 0
    ensures Indicator(Tally(events), w) == 100.0 * (if c in w then w[c] else 0.5)
  {
    TallyWeighsEvents(events, w);
    OneCategoryWeight(events, c, w);
    var total, k := Total(Tally(events)), WeightFor(w, c);
    assert Weighted(Tally(events), w) == Times(total as real, k);
    hide Tally, Total, Weighted, EventWeight;
    QuotientOfProduct(total as real, k);
  }

  lemma QuotientOfProduct(total: real, k: real)
    requires total > 0.0
    ensures 100.0 * Times(total, k) / total == 100.0 * k
  {
  }

  lemma {:induction false} OneCategoryWeight(events: seq<Activity>, c: Category, w: Weights)
    requires forall e :: e in events ==> e.category == c
    ensures EventWeight(events, w) == Times(Total(Tally(events)) as real, WeightFor(w, c))
  {
    if events != [] {
      var n := |events| - 1;
      assert events[n] in events;
      OneCategoryWeight(events[..n], c, w);
      TallyUnfolds(events);
      AddTimeAdds(Tally(events[..n]), c, events[n].seconds, c);
      assert Total(Tally(events)) as real == Total(Tally(events[..n])) as real + events[n].seconds as real;
      hide Tally, AddTime, Times, WeightFor;
      Distribute(Total(Tally(events[..n])) as real, events[n].seconds as real, WeightFor(w, c));
    } else {
      Buckets3(0, 0, 0, c, w);
    }
  }

  /** So every employee row's indicator is a percentage, whatever its categories; so is every group's. */
  lemma RowsInPercent(employee: nat, apps: seq<Activity>, sites: seq<Activity>, idle: int, worked: int, w: Weights)
    requires (forall e :: e in apps + sites ==> e.seconds >= 0) && forall c :: c in w ==> 0.0 <= w[c] <= 1.0
    ensures 0.0 <= EmployeeRow(employee, apps, sites, idle, worked, w).indicator <= 100.0
  {
    TallyNonNegative(apps + sites);
    IndicatorInPercent(Tally(apps + sites), w);
    hide Indicator, Tally;
  }

  lemma {:induction false} SumNonNegative(m: Measure, rows: seq<Row>)
    requires forall r :: r in rows ==> Value(m, r) >= 0
    ensures Sum(m, rows) >= 0
  {
    if rows != [] {
      assert rows[|rows| - 1] in rows;
      SumNonNegative(m, rows[..|rows| - 1]);
    }
  }

  lemma GroupInPercent(rows: seq<Row>, w: Weights)
    requires forall c :: c in w ==> 0.0 <= w[c] <= 1.0
    requires forall r :: r in rows ==> r.productive >= 0 && r.neutral >= 0 && r.unproductive >= 0
    ensures 0.0 <= Summarize(rows, w).indicator <= 100.0
  {
    SumNonNegative(ProductiveTime, rows);
    SumNonNegative(NeutralTime, rows);
    SumNonNegative(UnproductiveTime, rows);
    hide Indicator, Sum;
    var p, n, u := Sum(ProductiveTime, rows), Sum(NeutralTime, rows), Sum(UnproductiveTime, rows);
    IndicatorInPercent([Activity(Productive, p), Activity(Neutral, n), Activity(Unproductive, u)], w);
  }

  lemma WeightedBounds(seconds: int, weight: real)
    requires seconds >= 0 && 0.0 <= weight <= 1.0
    ensures 0.0 <= Times(seconds as real, weight) <= seconds as real
  {
    var s := seconds as real;
    if seconds > 0 {
      TimesMonotone(s, 0.0, weight);
      TimesMonotone(s, weight, 1.0);
      assert Times(s, 0.0) == 0.0 && Times(s, 1.0) == s;
    } else {
      assert Times(0.0, weight) == 0.0;
    }
  }

  /** A custom category breaks the bound: its time counts for the employee but not for the group. */
  lemma CustomCategoryBreaksBound()
    ensures var w: Weights := map[Custom("deep work") := 1.0];
            var r := EmployeeRow(1, [Activity(Custom("deep work"), 60)], [], 0, 0, w);
            r.tracked > 0 && r.indicator == 100.0 && Summarize([r], w).tracked > 0 && Summarize([r], w).indicator == 0.0
  {
    var c := Custom("deep work");
    var w: Weights := map[c := 1.0];
    var events := [Activity(c, 60)];
    assert events + [] == events && events[..0] == [];
    var bs := Tally(events);
    AddTimeAdds(NO_TIME, c, 60, Productive);
    AddTimeAdds(NO_TIME, c, 60, Neutral);
    AddTimeAdds(NO_TIME, c, 60, Unproductive);
    AddTimeWeighs(NO_TIME, c, 60, w);
    Buckets3(0, 0, 0, Productive, w);
    Buckets3(0, 0, 0, Neutral, w);
    Buckets3(0, 0, 0, Unproductive, w);
    var r := EmployeeRow(1, events, [], 0, 0, w);
    assert [r][..0] == [];
    ThreeBuckets(0, 0, 0, w);
  }

  // ---------- the run ----------

  /** A group with rows gets their summary; a group without any keeps what the table held. */
  predicate Written(before: map<nat, GroupRow>, after: map<nat, GroupRow>, id: nat, rows: seq<Row>, w: Weights) {
    if rows != [] then id in after && after[id] == Summarize(rows, w)
    else (id in after <==> id in before) && (id in before ==> after[id] == before[id])
  }

  /** An active employee's day: classified events, and idle and worked seconds of the attendance row, if any. */
  datatype WorkDay = WorkDay(
    member: Member, apps: seq<Activity>, sites: seq<Activity>, attendance: Option<(int, int)>)

  function DayRow(d: WorkDay, w: Weights): Row {
    EmployeeRow(d.member.id, d.apps, d.sites,
                if d.attendance.Some? then d.attendance.value.0 else 0,
                if d.attendance.Some? then d.attendance.value.1 else 0, w)
  }

  function DayRows(days: seq<WorkDay>, w: Weights): seq<Row> {
    seq(|days|, i requires 0 <= i < |days| => DayRow(days[i], w))
  }

  function Members(days: seq<WorkDay>): seq<Member> {
    seq(|days|, i requires 0 <= i < |days| => days[i].member)
  }

  /** The last day listed for an employee; ids are unique in the source, so the only one. */
  function LastDay(days: seq<WorkDay>, id: nat): Option<WorkDay> {
    if days == [] then None
    else if days[|days| - 1].member.id == id then Some(days[|days| - 1])
    else LastDay(days[..|days| - 1], id)
  }

  /** An employee considered gets the day's row; any other keeps what the table held. */
  predicate RowWritten(before: map<nat, Row>, after: map<nat, Row>, id: nat, day: Option<WorkDay>, w: Weights) {
    match day
    case Some(d) => id in after && after[id] == DayRow(d, w)
    case None => (id in after <==> id in before) && (id in before ==> after[id] == before[id])
  }

  /** The rollup tables of one organization and day. */
  class RollupTables {
    var employees: map<nat, Row>
    var teams: map<nat, GroupRow>
    var departments: map<nat, GroupRow>

    constructor ()
      ensures employees == map[] && teams == map[] && departments == map[]
    {
      employees, teams, departments := map[], map[], map[];
    }

    method GroupRows(rows: seq<Row>, members: seq<Member>, axis: Grouping) returns (groups: seq<Group>)
      ensures groups == Groups(rows, members, axis)
      ensures DistinctIds(groups)
      ensures forall id: nat :: RowsOf(groups, id) == Those(rows, members, axis, Some(id))
    {
      groups := [];
      for i := 0 to |rows|
        invariant groups == Groups(rows[..i], members, axis)
      {
        assert rows[..i + 1][..i] == rows[..i];
        var gid := GroupOf(members, axis, rows[i].employee);
        if gid.None? { continue; }
        groups := AppendTo(groups, gid.value, rows[i]);
      }
      assert rows[..|rows|] == rows;
      GroupsAre(rows, members, axis, 0);
      forall id: nat ensures RowsOf(groups, id) == Those(rows, members, axis, Some(id)) {
        GroupsAre(rows, members, axis, id);
      }
    }

    /** Writes one row per group over what the table held; other rows of the table stay. */
    method Aggregate(table: map<nat, GroupRow>, rows: seq<Row>, members: seq<Member>, axis: Grouping, w: Weights)
      returns (result: map<nat, GroupRow>)
      ensures forall id: nat :: Written(table, result, id, Those(rows, members, axis, Some(id)), w)
    {
      var groups := GroupRows(rows, members, axis);
      GroupsNonEmpty(rows, members, axis);
      hide RowsOf, Those, Summarize, Groups;
      NoRows();
      result := table;
      for i := 0 to |groups|
        invariant forall id: nat :: Written(table, result, id, RowsOf(groups[..i], id), w)
      {
        ghost var before, next := result, groups[..i + 1];
        result := result[groups[i].id := Summarize(groups[i].rows, w)];
        forall id: nat ensures Written(table, result, id, RowsOf(next, id), w) {
          RowsOfPrefix(groups, i, id);
          assert Written(table, before, id, RowsOf(groups[..i], id), w);
          assert groups[i] in groups;
        }
      }
      assert groups[..|groups|] == groups;
    }

    /** The employee part of the run: one row per employee considered, in order. */
    method ComputeEmployeeRollups(days: seq<WorkDay>, w: Weights) returns (rows: seq<Row>)
      modifies this`employees
      ensures rows == DayRows(days, w)
      ensures forall id: nat :: RowWritten(old(employees), employees, id, LastDay(days, id), w)
    {
      hide EmployeeRow;
      rows := [];
      for i := 0 to |days|
        invariant |rows| == i && forall k :: 0 <= k < i ==> rows[k] == DayRow(days[k], w)
        invariant forall id: nat :: RowWritten(old(employees), employees, id, LastDay(days[..i], id), w)
      {
        assert days[..i + 1][..i] == days[..i];
        var d := days[i];
        var idle, worked := 0, 0;
        if d.attendance.Some? { idle, worked := d.attendance.value.0, d.attendance.value.1; }
        var row := ComputeEmployeeRollup(d.member.id, d.apps, d.sites, idle, worked, w);
        employees := employees[d.member.id := row];
        rows := rows + [row];
      }
      assert days[..|days|] == days;
    }

    /** Writes every employee's row, then both group tables from those rows; returns how many. */
    method ComputeOrgRollups(days: seq<WorkDay>, w: Weights) returns (count: nat)
      modifies this
      ensures count == |days|
      ensures forall id: nat :: RowWritten(old(employees), employees, id, LastDay(days, id), w)
      ensures forall id: nat ::
                Written(old(teams), teams, id, Those(DayRows(days, w), Members(days), ByTeam, Some(id)), w)
      ensures forall id: nat ::
                Written(old(departments), departments, id,
                  Those(DayRows(days, w), Members(days), ByDepartment, Some(id)), w)
    {
      hide Those, RowWritten, Written, DayRow;
      var rows := ComputeEmployeeRollups(days, w);
      teams := Aggregate(teams, rows, Members(days), ByTeam, w);
      departments := Aggregate(departments, rows, Members(days), ByDepartment, w);
      count := |rows|;
    }
  }

  lemma NoRows()
    ensures forall gs: seq<Group>, id: nat :: gs == [] ==> RowsOf(gs, id) == []
  {
  }

  lemma {:induction false} AppendToNonEmpty(gs: seq<Group>, id: nat, r: Row)
    requires forall g :: g in gs ==> g.rows != []
    ensures forall g :: g in AppendTo(gs, id, r) ==> g.rows != []
  {
    if gs != [] && gs[0].id != id {
      AppendToNonEmpty(gs[1..], id, r);
      assert gs[0] in gs;
    }
  }

  lemma {:induction false} GroupsNonEmpty(rows: seq<Row>, members: seq<Member>, axis: Grouping)
    ensures forall g :: g in Groups(rows, members, axis) ==> g.rows != []
  {
    if rows != [] {
      var n := |rows| - 1;
      GroupsNonEmpty(rows[..n], members, axis);
      match GroupOf(members, axis, rows[n].employee)
      case None =>
      case Some(id) => AppendToNonEmpty(Groups(rows[..n], members, axis), id, rows[n]);
    }
  }

  lemma {:induction false} RowsOfPrefix(gs: seq<Group>, i: nat, id: nat)
    requires i < |gs| && DistinctIds(gs) && forall g :: g in gs ==> g.rows != []
    ensures RowsOf(gs[..i + 1], id) == if id == gs[i].id then gs[i].rows else RowsOf(gs[..i], id)
  {
    if i == 0 {
      assert gs[..1] == [gs[0]];
    } else {
      RowsOfPrefix(gs[1..], i - 1, id);
      assert gs[..i + 1][1..] == gs[1..][..i] && gs[..i][1..] == gs[1..][..i - 1];
    }
  }
}
