/** When ensure_daily_shifts (backend/app/shifts/scheduler.py) creates one shift per day. */
module DailyShifts {
  import opened Common
  import opened Clock
  import opened ShiftModel
  import opened ShiftSteps
  import opened ShiftInvariant
  import opened ShiftSweeps
  import opened ShiftHistory

  /** No employee has two shifts scheduled to start on one UTC date. */
  ghost predicate OnePerDay(tb: Tables) {
    forall a, b ::
      a in tb.shifts && b in tb.shifts && a != b && tb.shifts[a].terms.employee == tb.shifts[b].terms.employee &&
      tb.shifts[a].terms.schedStart.Some? && tb.shifts[b].terms.schedStart.Some?
      ==> DateOf(tb.shifts[a].terms.schedStart.value) != DateOf(tb.shifts[b].terms.schedStart.value)
  }

  /** Every window the plan offers starts, in UTC, on the day it is planned for. */
  predicate DatesAgree(day: Date, plan: seq<Candidate>) {
    forall i :: 0 <= i < |plan| ==> plan[i].terms.schedStart.Some? ==> DateOf(plan[i].terms.schedStart.value) == day
  }

  lemma {:induction false} DailyKeepsOnePerDay(tb: Tables, day: Date, plan: seq<Candidate>)
    requires OnePerDay(tb) && DatesAgree(day, plan)
    ensures OnePerDay(EnsureDaily(tb, day, plan).0)
  {
    if plan != [] {
      var n := |plan| - 1;
      DailyKeepsOnePerDay(tb, day, plan[..n]);
      EnsureOneKeepsOnePerDay(EnsureDaily(tb, day, plan[..n]).0, day, plan[n]);
    }
  }

  lemma EnsureOneKeepsOnePerDay(tb: Tables, day: Date, c: Candidate)
    requires OnePerDay(tb) && (c.terms.schedStart.Some? ==> DateOf(c.terms.schedStart.value) == day)
    ensures OnePerDay(EnsureOne(tb, day, c).0)
  {
  }

  /** The daily run adds exactly the shifts it counts, each with a scheduled start. */
  lemma {:induction false} DailyAddsWhatItCounts(tb: Tables, day: Date, plan: seq<Candidate>)
    ensures var (tb', n) := EnsureDaily(tb, day, plan);
            |tb'.shifts| == |tb.shifts| + n && tb.shifts.Keys <= tb'.shifts.Keys &&
            forall sid :: sid in tb'.shifts && sid !in tb.shifts ==>
              tb'.shifts[sid].terms.schedStart.Some? && tb'.shifts[sid].state.Available? &&
              exists c :: c in plan && c.sid == sid && c.terms == tb'.shifts[sid].terms && !c.suppressed
  {
    if plan != [] {
      var n := |plan| - 1;
      DailyAddsWhatItCounts(tb, day, plan[..n]);
      assert plan == plan[..n] + [plan[n]];
    }
  }

  ghost predicate SameTerms(tb: Tables, tb': Tables) {
    tb'.shifts.Keys == tb.shifts.Keys &&
    forall sid :: sid in tb.shifts ==> tb'.shifts[sid].terms == tb.shifts[sid].terms
  }

  lemma SameTermsSameDays(tb: Tables, tb': Tables)
    requires OnePerDay(tb) && SameTerms(tb, tb')
    ensures OnePerDay(tb')
  {
    hide DateOf;
  }

  lemma ServeKeepsTerms(tb: Tables, sid: ShiftId, t: Time, a: Action, eventId: Option<string>)
    requires Serve(tb, sid, t, a, eventId).Ok?
    ensures SameTerms(tb, Serve(tb, sid, t, a, eventId).value)
  {
    hide DeriveRow, Decide, KeyUsed, RowKey, BreaksOf;
    if !IsReplay(tb, sid, t, a, eventId) {
      DecideOwnsItsEvents(sid, tb.shifts[sid], BreaksOf(tb, sid), t, a, eventId);
    }
  }

  lemma SweptKeepsTerms(tb: Tables, tb': Tables, t: Time, job: Job, fired: set<ShiftId>)
    requires Swept(tb, tb', t, job, fired)
    ensures SameTerms(tb, tb')
  {
    hide BreaksOf, FiredBreaks, FiredShift, Selects, Due;
    forall sid | sid in tb.shifts ensures tb'.shifts[sid].terms == tb.shifts[sid].terms {
      if sid in fired { TermsStay(job, tb.shifts[sid], t); }
    }
  }

  lemma SweepKeepsTerms(tb: Tables, now: Time, t: Time, job: Job, order: seq<ShiftId>)
    requires Inv(tb, now) && now <= t && IsQuery(tb, job, order)
    ensures Sweep(tb, t, job, order).Ok? && SameTerms(tb, Sweep(tb, t, job, order).value.0)
  {
    SweepEffect(tb, now, t, job, order);
    hide Inv, Sweep, DueSet, Swept, SweptAttendance, SweptLog, SameTerms, IsQuery;
    SweptKeepsTerms(tb, Sweep(tb, t, job, order).value.0, t, job, DueSet(tb, t, job, order));
  }

  /** Every command but a manual creation keeps the shifts and their terms, or adds daily ones. */
  lemma ExecKeepsOnePerDay(tb: Tables, now: Time, st: Step)
    requires Inv(tb, now) && now <= st.at && Possible(tb, st.cmd) && OnePerDay(tb)
    requires !st.cmd.Create? && (st.cmd.Daily? ==> DatesAgree(st.cmd.day, st.cmd.plan))
    ensures OnePerDay(Exec(tb, st))
  {
    hide Inv, OnePerDay, Serve, Sweep, SameTerms, IsQuery, DatesAgree;
    match st.cmd
    case Request(sid, a, eventId) =>
      if Serve(tb, sid, st.at, a, eventId).Ok? {
        ServeKeepsTerms(tb, sid, st.at, a, eventId);
        SameTermsSameDays(tb, Exec(tb, st));
      }
    case Daily(day, plan) => DailyKeepsOnePerDay(tb, day, plan);
    case RunSweep(job, order) =>
      SweepKeepsTerms(tb, now, st.at, job, order);
      SameTermsSameDays(tb, Exec(tb, st));
  }

  ghost predicate DailyOnly(steps: seq<Step>) {
    forall i :: 0 <= i < |steps| ==>
      !steps[i].cmd.Create? && (steps[i].cmd.Daily? ==> DatesAgree(steps[i].cmd.day, steps[i].cmd.plan))
  }

  /**
    In every history whose shifts all come from daily runs with agreeing dates, no employee has
    two shifts on one day, however often the daily run is repeated.
  */
  lemma {:induction false} OneShiftPerDay(tb: Tables, from: Time, steps: seq<Step>)
    requires Inv(tb, from) && OnePerDay(tb) && IsHistory(tb, from, steps) && DailyOnly(steps)
    ensures OnePerDay(Run(tb, steps))
  {
    if steps != [] {
      var n := |steps| - 1;
      OneShiftPerDay(tb, from, steps[..n]);
      RunKeeps(tb, from, steps[..n]);
      ExecKeepsOnePerDay(Run(tb, steps[..n]), ClockAfter(from, steps[..n]), steps[n]);
    }
  }

  // ---------- exactly when a day gets a second shift ----------

  /**
    What makes the daily run give an employee a second shift on one UTC date: the window starts on a
    date that is taken, the planned day is free, and nothing of the employee's is active.
  */
  predicate DoublesUp(tb: Tables, day: Date, c: Candidate) {
    !c.suppressed && c.sid !in tb.shifts && c.terms.schedStart.Some? &&
    !HasActiveShift(tb, c.terms.employee) && !HasShiftOn(tb, c.terms.employee, day) &&
    HasShiftOn(tb, c.terms.employee, DateOf(c.terms.schedStart.value))
  }

  /** What makes a manual creation do so. */
  predicate CreationDoublesUp(tb: Tables, sid: ShiftId, terms: Terms) {
    sid !in tb.shifts && terms.schedStart.Some? && !HasActiveShift(tb, terms.employee) &&
    HasShiftOn(tb, terms.employee, DateOf(terms.schedStart.value))
  }

  /** A shift with these terms is added. */
  lemma AddedShiftExactly(tb: Tables, sid: ShiftId, terms: Terms)
    requires sid !in tb.shifts
    ensures OnePerDay(tb.(shifts := tb.shifts[sid := Shift(terms, Available, None, None, 0)])) <==>
            OnePerDay(tb) &&
            (terms.schedStart.Some? ==> !HasShiftOn(tb, terms.employee, DateOf(terms.schedStart.value)))
  {
    var tb' := tb.(shifts := tb.shifts[sid := Shift(terms, Available, None, None, 0)]);
    hide DateOf;
    assert forall x :: x in tb.shifts ==> x in tb'.shifts && tb'.shifts[x] == tb.shifts[x];
    if !OnePerDay(tb) {
      var a, b :| a in tb.shifts && b in tb.shifts && a != b &&
        tb.shifts[a].terms.employee == tb.shifts[b].terms.employee &&
        tb.shifts[a].terms.schedStart.Some? && tb.shifts[b].terms.schedStart.Some? &&
        DateOf(tb.shifts[a].terms.schedStart.value) == DateOf(tb.shifts[b].terms.schedStart.value);
      assert tb'.shifts[a] == tb.shifts[a] && tb'.shifts[b] == tb.shifts[b];
    }
    if terms.schedStart.Some? && HasShiftOn(tb, terms.employee, DateOf(terms.schedStart.value)) {
      var x :| x in tb.shifts && tb.shifts[x].terms.employee == terms.employee &&
        tb.shifts[x].terms.schedStart.Some? &&
        DateOf(tb.shifts[x].terms.schedStart.value) == DateOf(terms.schedStart.value);
      assert tb'.shifts[x].terms.employee == tb'.shifts[sid].terms.employee;
    }
  }

  lemma CreationExactly(tb: Tables, st: Step)
    requires st.cmd.Create?
    ensures OnePerDay(Exec(tb, st)) <==> OnePerDay(tb) && !CreationDoublesUp(tb, st.cmd.sid, st.cmd.terms)
  {
    if CreateShift(tb, st.cmd.sid, st.cmd.terms).Ok? { AddedShiftExactly(tb, st.cmd.sid, st.cmd.terms); }
    hide OnePerDay, HasActiveShift, HasShiftOn;
  }

  /** For one employee of the daily run. */
  lemma SecondShiftExactly(tb: Tables, day: Date, c: Candidate)
    ensures OnePerDay(EnsureOne(tb, day, c).0) <==> OnePerDay(tb) && !DoublesUp(tb, day, c)
  {
    if c.sid !in tb.shifts { AddedShiftExactly(tb, c.sid, c.terms); }
    hide OnePerDay, HasActiveShift, HasShiftOn;
  }

  /** Some candidate doubles up on the tables that those before it leave. */
  predicate PlanDoublesUp(tb: Tables, day: Date, plan: seq<Candidate>) {
    exists i :: 0 <= i < |plan| && DoublesUp(EnsureDaily(tb, day, plan[..i]).0, day, plan[i])
  }

  lemma {:induction false} PlanExactly(tb: Tables, day: Date, plan: seq<Candidate>)
    ensures OnePerDay(EnsureDaily(tb, day, plan).0) <==> OnePerDay(tb) && !PlanDoublesUp(tb, day, plan)
  {
    hide OnePerDay, DoublesUp, EnsureOne;
    if plan != [] {
      var n := |plan| - 1;
      PlanExactly(tb, day, plan[..n]);
      SecondShiftExactly(EnsureDaily(tb, day, plan[..n]).0, day, plan[n]);
      assert forall i :: 0 <= i <= n ==> plan[..n][..i] == plan[..i];
      assert PlanDoublesUp(tb, day, plan) <==>
             PlanDoublesUp(tb, day, plan[..n]) || DoublesUp(EnsureDaily(tb, day, plan[..n]).0, day, plan[n]);
    }
  }

  /** The run considers every employee once, and each new shift gets an id of its own. */
  ghost predicate ConsidersEachOnce(plan: seq<Candidate>) {
    forall i, j :: 0 <= i < j < |plan| ==>
      plan[i].terms.employee != plan[j].terms.employee && plan[i].sid != plan[j].sid
  }

  /** Nothing that concerns c has changed. */
  ghost predicate SameFor(tb: Tables, tb': Tables, c: Candidate) {
    (c.sid in tb.shifts <==> c.sid in tb'.shifts) &&
    (forall x :: x in tb.shifts ==> x in tb'.shifts && tb'.shifts[x] == tb.shifts[x]) &&
    (forall x :: x in tb'.shifts && x !in tb.shifts ==> tb'.shifts[x].terms.employee != c.terms.employee)
  }

  lemma SameForSameOutcome(tb: Tables, tb': Tables, day: Date, c: Candidate)
    requires SameFor(tb, tb', c)
    ensures DoublesUp(tb', day, c) <==> DoublesUp(tb, day, c)
  {
    var e := c.terms.employee;
    assert HasActiveShift(tb, e) <==> HasActiveShift(tb', e);
    forall d ensures HasShiftOn(tb, e, d) <==> HasShiftOn(tb', e, d) { }
    hide HasActiveShift, HasShiftOn;
  }

  lemma {:induction false} OthersKeepSame(tb: Tables, day: Date, plan: seq<Candidate>, c: Candidate)
    requires forall i :: 0 <= i < |plan| ==> plan[i].terms.employee != c.terms.employee && plan[i].sid != c.sid
    ensures SameFor(tb, EnsureDaily(tb, day, plan).0, c)
  {
    if plan != [] { OthersKeepSame(tb, day, plan[..|plan| - 1], c); }
  }

  /**
    The daily run over employees considered once each keeps one shift per employee and day exactly
    when none of its candidates doubles up on the tables as they are before the run.
  */
  lemma DailyRunExactly(tb: Tables, day: Date, plan: seq<Candidate>)
    requires OnePerDay(tb) && ConsidersEachOnce(plan)
    ensures OnePerDay(EnsureDaily(tb, day, plan).0) <==>
            forall i :: 0 <= i < |plan| ==> !DoublesUp(tb, day, plan[i])
  {
    PlanExactly(tb, day, plan);
    hide OnePerDay, DoublesUp, SameFor, EnsureDaily;
    forall i | 0 <= i < |plan|
      ensures DoublesUp(EnsureDaily(tb, day, plan[..i]).0, day, plan[i]) <==> DoublesUp(tb, day, plan[i])
    {
      OthersKeepSame(tb, day, plan[..i], plan[i]);
      SameForSameOutcome(tb, EnsureDaily(tb, day, plan[..i]).0, day, plan[i]);
    }
  }

  /** Only creations and daily runs can give a day a second shift. */
  predicate StepDoublesUp(tb: Tables, st: Step) {
    match st.cmd
    case Create(sid, terms) => CreationDoublesUp(tb, sid, terms)
    case Daily(day, plan) => PlanDoublesUp(tb, day, plan)
    case _ => false
  }

  lemma SameTermsSameDaysExactly(tb: Tables, tb': Tables)
    requires SameTerms(tb, tb')
    ensures OnePerDay(tb) <==> OnePerDay(tb')
  {
    assert SameTerms(tb', tb);
    if OnePerDay(tb) { SameTermsSameDays(tb, tb'); }
    if OnePerDay(tb') { SameTermsSameDays(tb', tb); }
  }

  lemma StepExactly(tb: Tables, now: Time, st: Step)
    requires Inv(tb, now) && now <= st.at && Possible(tb, st.cmd)
    ensures OnePerDay(Exec(tb, st)) <==> OnePerDay(tb) && !StepDoublesUp(tb, st)
  {
    hide Inv, OnePerDay, Serve, Sweep, EnsureDaily, SameTerms, IsQuery, PlanDoublesUp, CreationDoublesUp;
    match st.cmd
    case Create(_, _) => CreationExactly(tb, st);
    case Request(sid, a, eventId) =>
      if Serve(tb, sid, st.at, a, eventId).Ok? {
        ServeKeepsTerms(tb, sid, st.at, a, eventId);
        SameTermsSameDaysExactly(tb, Exec(tb, st));
      }
    case Daily(day, plan) => PlanExactly(tb, day, plan);
    case RunSweep(job, order) =>
      SweepKeepsTerms(tb, now, st.at, job, order);
      SameTermsSameDaysExactly(tb, Exec(tb, st));
  }

  lemma PrefixExactly(tb: Tables, from: Time, steps: seq<Step>, i: nat)
    requires Inv(tb, from) && IsHistory(tb, from, steps) && i < |steps|
    ensures OnePerDay(Run(tb, steps[..i + 1])) <==>
            OnePerDay(Run(tb, steps[..i])) && !StepDoublesUp(Run(tb, steps[..i]), steps[i])
  {
    hide *;
    HistoryPrefix(tb, from, steps, i);
    RunKeeps(tb, from, steps[..i]);
    StepExactly(Run(tb, steps[..i]), ClockAfter(from, steps[..i]), steps[i]);
  }

  lemma RunExactly(tb: Tables, from: Time, steps: seq<Step>)
    requires Inv(tb, from) && OnePerDay(tb) && IsHistory(tb, from, steps)
    ensures OnePerDay(Run(tb, steps)) <==>
            forall i :: 0 <= i < |steps| ==> !StepDoublesUp(Run(tb, steps[..i]), steps[i])
  {
    assert steps[..0] == [] && Run(tb, []) == tb && steps[..|steps|] == steps;
    hide *;
    var n := |steps|;
    var good := seq(n + 1, i requires 0 <= i <= n => OnePerDay(Run(tb, steps[..i])));
    var bad := seq(n, i requires 0 <= i < n => StepDoublesUp(Run(tb, steps[..i]), steps[i]));
    forall i | 0 <= i < n ensures good[i + 1] <==> good[i] && !bad[i] {
      PrefixExactly(tb, from, steps, i);
    }
    NeverTurnsBad(good, bad);
    assert forall i :: 0 <= i < n ==> bad[i] == StepDoublesUp(Run(tb, steps[..i]), steps[i]);
  }

  lemma {:induction false} NeverTurnsBad(good: seq<bool>, bad: seq<bool>)
    requires |good| == |bad| + 1 && good[0] && forall i :: 0 <= i < |bad| ==> (good[i + 1] <==> good[i] && !bad[i])
    ensures good[|bad|] <==> forall i :: 0 <= i < |bad| ==> !bad[i]
  {
    if bad != [] { NeverTurnsBad(good[..|bad|], bad[..|bad| - 1]); }
  }

  /** After any history every employee has one shift per day exactly when no step of it doubled up. */
  lemma OneShiftPerDayExactly(idle: map<ShiftId, seq<Interval>>, from: Time, steps: seq<Step>)
    requires IsHistory(EmptyTables(idle), from, steps)
    ensures var tb := EmptyTables(idle);
            OnePerDay(Run(tb, steps)) <==>
            forall i :: 0 <= i < |steps| ==> !StepDoublesUp(Run(tb, steps[..i]), steps[i])
  {
    assert Inv(EmptyTables(idle), from);
    assert OnePerDay(EmptyTables(idle));
    hide *;
    RunExactly(EmptyTables(idle), from, steps);
  }

  /**
    In particular, a window that starts on another UTC date than the planned day does not count as
    that day's shift, so as soon as it is over the very same window is created again, unless some
    other shift of the employee starts on the planned day.
  */
  lemma DisagreeingDateIsRecreated(tb: Tables, day: Date, c: Candidate, past: ShiftId)
    requires past in tb.shifts && tb.shifts[past].terms == c.terms && !c.suppressed && c.sid !in tb.shifts
    requires c.terms.schedStart.Some?
    ensures EnsureOne(tb, day, c).1 == 1 <==>
            !HasActiveShift(tb, c.terms.employee) && DateOf(c.terms.schedStart.value) != day &&
            forall sid ::
              (sid in tb.shifts && sid != past && tb.shifts[sid].terms.employee == c.terms.employee &&
               tb.shifts[sid].terms.schedStart.Some?) ==> DateOf(tb.shifts[sid].terms.schedStart.value) != day
    ensures EnsureOne(tb, day, c).1 == 1 ==> !OnePerDay(EnsureOne(tb, day, c).0)
  {
    if EnsureOne(tb, day, c).1 == 1 {
      var tb' := EnsureOne(tb, day, c).0;
      assert tb'.shifts[past].terms == tb'.shifts[c.sid].terms;
    }
  }
}
