/**
  Attendance is a cache of the shift tables. A row is fresh when deriving it again from the
  shift it names would write the same row.
*/
module AttendanceAgreement {
  import opened Common
  import opened Clock
  import opened ShiftModel
  import opened ShiftSteps
  import opened ShiftReplay
  import opened ShiftInvariant
  import opened ShiftSweeps
  import opened ShiftHistory

  /** A dated shift has a work date of its own; an undated one would take today's. */
  predicate Dated(s: Shift) {
    s.terms.schedStart.Some? || s.actualStart.Some?
  }

  predicate OnItsDate(s: Shift, day: Date) {
    Dated(s) && WorkDate(s, 0) == day
  }

  /**
    Every row names a shift of its employee. It is fresh unless the shift has since been dated
    to another day; such a row shows no actual start although the shift has one.
  */
  ghost predicate RowOk(tb: Tables, k: (EmployeeId, Date), r: Row) {
    r.shift in tb.shifts && tb.shifts[r.shift].terms.employee == k.0 &&
    var s := tb.shifts[r.shift];
    if !Dated(s) || OnItsDate(s, k.1) then r == FreshRow(tb, r.shift)
    else s.terms.schedStart.None? && r.actualStart.None?
  }

  ghost predicate AttendanceOk(tb: Tables) {
    forall k :: k in tb.attendance ==> RowOk(tb, k, tb.attendance[k])
  }

  ghost predicate AllOnTheirDate(tb: Tables) {
    forall k :: k in tb.attendance ==>
      tb.attendance[k].shift in tb.shifts && OnItsDate(tb.shifts[tb.attendance[k].shift], k.1)
  }

  /** An operation on one shift followed by a derivation of its row. */
  ghost predicate ServedOne(tb: Tables, tb': Tables, sid: ShiftId, t: Time) {
    sid in tb.shifts && tb'.idle == tb.idle && tb'.shifts.Keys == tb.shifts.Keys &&
    (forall x :: x in tb.shifts && x != sid ==> tb'.shifts[x] == tb.shifts[x] && BreaksOf(tb', x) == BreaksOf(tb, x)) &&
    tb'.shifts[sid].terms == tb.shifts[sid].terms &&
    (tb.shifts[sid].actualStart.Some? ==> tb'.shifts[sid].actualStart == tb.shifts[sid].actualStart) &&
    ((tb'.shifts[sid] == tb.shifts[sid] && BreaksOf(tb', sid) == BreaksOf(tb, sid)) || Dated(tb'.shifts[sid])) &&
    tb'.attendance == tb.attendance[RowKey(tb', sid, t) := FreshRow(tb', sid)]
  }

  lemma ServedKeepsRow(tb: Tables, tb': Tables, sid: ShiftId, t: Time, k: (EmployeeId, Date), r: Row)
    requires ServedOne(tb, tb', sid, t) && RowOk(tb, k, r) && k != RowKey(tb', sid, t)
    ensures RowOk(tb', k, r)
  {
    hide BreaksOf, ComputeDurations, DeriveStatus, BreakSeconds, IdleSeconds;
  }

  lemma ServedKeepsAttendance(tb: Tables, tb': Tables, sid: ShiftId, t: Time)
    requires ServedOne(tb, tb', sid, t) && AttendanceOk(tb)
    ensures AttendanceOk(tb')
    ensures AllOnTheirDate(tb) && Dated(tb'.shifts[sid]) ==> AllOnTheirDate(tb')
  {
    hide DeriveRow, RowOk;
    var key := RowKey(tb', sid, t);
    forall k | k in tb'.attendance ensures RowOk(tb', k, tb'.attendance[k]) {
      if k == key {
        NewRowOk(tb', sid, t);
      } else {
        ServedKeepsRow(tb, tb', sid, t, k, tb.attendance[k]);
      }
    }
    if AllOnTheirDate(tb) && Dated(tb'.shifts[sid]) {
      forall k | k in tb'.attendance
        ensures tb'.attendance[k].shift in tb'.shifts && OnItsDate(tb'.shifts[tb'.attendance[k].shift], k.1)
      {
        if k == key { NewRowOk(tb', sid, t); }
      }
    }
  }

  lemma NewRowOk(tb: Tables, sid: ShiftId, t: Time)
    requires sid in tb.shifts
    ensures RowOk(tb, RowKey(tb, sid, t), FreshRow(tb, sid))
    ensures FreshRow(tb, sid).shift == sid
    ensures Dated(tb.shifts[sid]) ==> OnItsDate(tb.shifts[sid], RowKey(tb, sid, t).1)
  {
    hide ComputeDurations, DeriveStatus, BreakSeconds, IdleSeconds;
  }

  // ---------- each operation ----------

  /** A replayed request for a shift that has neither a schedule nor a start. */
  predicate UndatedReplay(tb: Tables, sid: ShiftId, t: Time, a: Action, eventId: Option<string>) {
    sid in tb.shifts && IsReplay(tb, sid, t, a, eventId) && !Dated(tb.shifts[sid])
  }

  lemma StartedWhenUnderway(tb: Tables, now: Time, sid: ShiftId)
    requires Inv(tb, now) && sid in tb.shifts
    ensures Underway(tb.shifts[sid].state) ==> tb.shifts[sid].actualStart.Some?
    ensures tb.shifts[sid].state.Available? ==> tb.shifts[sid].actualStart.None?
    ensures !tb.shifts[sid].state.Scheduled?
  {
    assert ShiftOk(tb, sid);
    if IsActive(tb.shifts[sid].state) { RowsAreOk(tb, now, sid); }
  }

  lemma DecisionDates(sid: ShiftId, s: Shift, bs: seq<Break>, t: Time, a: Action, eventId: Option<string>)
    requires Decide(sid, s, bs, t, a, eventId).Ok?
    requires Underway(s.state) ==> s.actualStart.Some?
    requires s.state.Available? ==> s.actualStart.None?
    requires !s.state.Scheduled?
    ensures var s' := Decide(sid, s, bs, t, a, eventId).value.shift;
            s'.terms == s.terms && Dated(s') && (s.actualStart.Some? ==> s'.actualStart == s.actualStart)
  {
  }

  lemma TransitionDates(tb: Tables, now: Time, sid: ShiftId, t: Time, a: Action, eventId: Option<string>)
    requires Inv(tb, now) && sid in tb.shifts && Transition(tb, sid, t, a, eventId).Ok?
    ensures var tb' := Transition(tb, sid, t, a, eventId).value;
            if IsReplay(tb, sid, t, a, eventId) then tb' == tb
            else exists c ::
              tb' == Write(tb, sid, c) && c.shift.terms == tb.shifts[sid].terms && Dated(c.shift) &&
              (tb.shifts[sid].actualStart.Some? ==> c.shift.actualStart == tb.shifts[sid].actualStart)
  {
    StartedWhenUnderway(tb, now, sid);
    hide Inv, Decide, KeyUsed, Dated, BreaksOf;
    if !IsReplay(tb, sid, t, a, eventId) {
      DecisionDates(sid, tb.shifts[sid], BreaksOf(tb, sid), t, a, eventId);
      assert Transition(tb, sid, t, a, eventId).value ==
        Write(tb, sid, Decide(sid, tb.shifts[sid], BreaksOf(tb, sid), t, a, eventId).value);
    }
  }

  lemma ServeServesOne(tb: Tables, now: Time, sid: ShiftId, t: Time, a: Action, eventId: Option<string>)
    requires Inv(tb, now) && Serve(tb, sid, t, a, eventId).Ok?
    ensures ServedOne(tb, Serve(tb, sid, t, a, eventId).value, sid, t)
    ensures !Dated(Serve(tb, sid, t, a, eventId).value.shifts[sid]) <==> UndatedReplay(tb, sid, t, a, eventId)
  {
    hide Inv, Transition, IsReplay, FreshRow, RowKey, Dated, ServedOne, Write, BreaksOf;
    TransitionDates(tb, now, sid, t, a, eventId);
    var tb1 := Transition(tb, sid, t, a, eventId).value;
    if IsReplay(tb, sid, t, a, eventId) {
      WriteServesOne(tb, sid, t, Change(tb.shifts[sid], BreaksOf(tb, sid), []));
    } else {
      var c :| tb1 == Write(tb, sid, c) && c.shift.terms == tb.shifts[sid].terms && Dated(c.shift) &&
        (tb.shifts[sid].actualStart.Some? ==> c.shift.actualStart == tb.shifts[sid].actualStart);
      WriteServesOne(tb, sid, t, c);
    }
  }

  lemma WriteServesOne(tb: Tables, sid: ShiftId, t: Time, c: Change)
    requires sid in tb.shifts && c.shift.terms == tb.shifts[sid].terms
    requires tb.shifts[sid].actualStart.Some? ==> c.shift.actualStart == tb.shifts[sid].actualStart
    requires Dated(c.shift) || (c.shift == tb.shifts[sid] && c.breaks == BreaksOf(tb, sid))
    ensures sid in Write(tb, sid, c).shifts && Write(tb, sid, c).shifts[sid] == c.shift
    ensures ServedOne(tb, Derive(Write(tb, sid, c), sid, t), sid, t)
    ensures c.shift == tb.shifts[sid] ==> ServedOne(tb, Derive(tb, sid, t), sid, t)
  {
    hide DeriveRow, Dated, WorkDate;
  }

  lemma FiredDates(job: Job, s: Shift, t: Time)
    requires Selects(job, s.state) && Due(job, s.terms, t) && !s.state.Scheduled?
    requires Underway(s.state) ==> s.actualStart.Some?
    requires s.state.Available? ==> s.actualStart.None?
    ensures var s' := FiredShift(job, s, t);
            s'.terms == s.terms && Dated(s') && (s.actualStart.Some? ==> s'.actualStart == s.actualStart)
  {
  }

  lemma FiredServesOne(tb: Tables, tb': Tables, now: Time, sid: ShiftId, t: Time, job: Job)
    requires Inv(tb, now) && FiredOne(tb, tb', sid, t, job) && Selects(job, tb.shifts[sid].state)
    ensures ServedOne(tb, tb', sid, t) && Dated(tb'.shifts[sid])
  {
    hide Inv, BreaksOf, FreshRow, RowKey, Selects, ServedOne;
    StartedWhenUnderway(tb, now, sid);
    assert Due(job, tb.shifts[sid].terms, t);
    FiredDates(job, tb.shifts[sid], t);
    hide *;
    FiredOneServes(tb, tb', sid, t, job);
  }

  lemma FiredOneServes(tb: Tables, tb': Tables, sid: ShiftId, t: Time, job: Job)
    requires FiredOne(tb, tb', sid, t, job) && Due(job, tb.shifts[sid].terms, t)
    requires var s, s' := tb.shifts[sid], FiredShift(job, tb.shifts[sid], t);
             s'.terms == s.terms && Dated(s') && (s.actualStart.Some? ==> s'.actualStart == s.actualStart)
    ensures ServedOne(tb, tb', sid, t) && Dated(tb'.shifts[sid])
  {
    hide FreshRow, RowKey, BreaksOf, FiredBreaks, FiredShift, FiredLog, Dated, Due;
  }

  lemma {:induction false} SweepKeepsAttendance(tb: Tables, now: Time, t: Time, job: Job, order: seq<ShiftId>)
    requires Inv(tb, now) && now <= t && SelectedOnce(tb, job, order) && AttendanceOk(tb)
    ensures Sweep(tb, t, job, order).Ok? && AttendanceOk(Sweep(tb, t, job, order).value.0)
    ensures AllOnTheirDate(tb) ==> AllOnTheirDate(Sweep(tb, t, job, order).value.0)
  {
    if order != [] {
      var sid, rest := order[|order| - 1], order[..|order| - 1];
      assert order == rest + [sid] && sid !in rest;
      hide Inv, SweepResult, Fire, Fires, Selects, DueSet, AttendanceOk, AllOnTheirDate;
      SweepKeepsAttendance(tb, now, t, job, rest);
      SweepEffect(tb, now, t, job, rest);
      var (tb1, n) := Sweep(tb, t, job, rest).value;
      DueSetMore(tb, t, job, rest, sid);
      UnfiredStays(tb, tb1, n, t, job, DueSet(tb, t, job, rest), sid);
      SweepMore(tb, t, job, rest, sid);
      hide Sweep;
      if Fires(tb, t, job, sid) {
        FireKeepsAttendance(tb, tb1, t, job, sid);
      }
    }
  }

  lemma FireKeepsAttendance(tb: Tables, tb1: Tables, t: Time, job: Job, sid: ShiftId)
    requires Inv(tb1, t) && AttendanceOk(tb1)
    requires Fires(tb, t, job, sid) && sid in tb1.shifts && tb1.shifts[sid] == tb.shifts[sid]
    ensures Fire(tb1, sid, t, job).Ok? && AttendanceOk(Fire(tb1, sid, t, job).value)
    ensures AllOnTheirDate(tb1) ==> AllOnTheirDate(Fire(tb1, sid, t, job).value)
  {
    hide Inv, Fire, AttendanceOk, AllOnTheirDate;
    FireEffect(tb1, sid, t, t, job);
    FiredServesOne(tb1, Fire(tb1, sid, t, job).value, t, sid, t, job);
    ServedKeepsAttendance(tb1, Fire(tb1, sid, t, job).value, sid, t);
  }

  lemma CreateKeepsAttendance(tb: Tables, sid: ShiftId, terms: Terms)
    requires CreateShift(tb, sid, terms).Ok? && AttendanceOk(tb)
    ensures AttendanceOk(CreateShift(tb, sid, terms).value)
    ensures AllOnTheirDate(tb) ==> AllOnTheirDate(CreateShift(tb, sid, terms).value)
  {
    var tb' := CreateShift(tb, sid, terms).value;
    hide DeriveRow, CreateShift;
    forall k | k in tb'.attendance ensures RowOk(tb', k, tb'.attendance[k]) {
      assert RowOk(tb, k, tb.attendance[k]);
    }
  }

  lemma {:induction false} DailyKeepsAttendance(tb: Tables, day: Date, plan: seq<Candidate>)
    requires AttendanceOk(tb)
    ensures AttendanceOk(EnsureDaily(tb, day, plan).0)
    ensures AllOnTheirDate(tb) ==> AllOnTheirDate(EnsureDaily(tb, day, plan).0)
  {
    if plan != [] {
      hide AttendanceOk, AllOnTheirDate;
      var n := |plan| - 1;
      DailyKeepsAttendance(tb, day, plan[..n]);
      var tb' := EnsureDaily(tb, day, plan[..n]).0;
      if CreateShift(tb', plan[n].sid, plan[n].terms).Ok? {
        CreateKeepsAttendance(tb', plan[n].sid, plan[n].terms);
      }
    }
  }

  predicate IsUndatedReplay(tb: Tables, st: Step) {
    st.cmd.Request? && UndatedReplay(tb, st.cmd.sid, st.at, st.cmd.action, st.cmd.eventId)
  }

  /** No step of the run replays a used event id on an undated shift. */
  predicate NoUndatedReplay(tb: Tables, steps: seq<Step>) {
    steps == [] ||
    (NoUndatedReplay(tb, steps[..|steps| - 1]) &&
     !IsUndatedReplay(Run(tb, steps[..|steps| - 1]), steps[|steps| - 1]))
  }

  lemma ExecKeepsAttendance(tb: Tables, now: Time, st: Step)
    requires Inv(tb, now) && now <= st.at && Possible(tb, st.cmd) && AttendanceOk(tb)
    ensures AttendanceOk(Exec(tb, st))
    ensures AllOnTheirDate(tb) && !IsUndatedReplay(tb, st) ==> AllOnTheirDate(Exec(tb, st))
  {
    hide Inv, AttendanceOk, AllOnTheirDate, Serve, Sweep, CreateShift, EnsureDaily, ServedOne, Dated;
    match st.cmd
    case Create(sid, terms) =>
      if CreateShift(tb, sid, terms).Ok? { CreateKeepsAttendance(tb, sid, terms); }
    case Request(sid, a, eventId) =>
      if Serve(tb, sid, st.at, a, eventId).Ok? {
        ServeServesOne(tb, now, sid, st.at, a, eventId);
        ServedKeepsAttendance(tb, Serve(tb, sid, st.at, a, eventId).value, sid, st.at);
      }
    case Daily(day, plan) => DailyKeepsAttendance(tb, day, plan);
    case RunSweep(job, order) => SweepKeepsAttendance(tb, now, st.at, job, order);
  }

  lemma {:induction false} RunKeepsAttendance(tb: Tables, now: Time, steps: seq<Step>)
    requires Inv(tb, now) && IsHistory(tb, now, steps) && AttendanceOk(tb)
    ensures AttendanceOk(Run(tb, steps))
    ensures AllOnTheirDate(tb) && NoUndatedReplay(tb, steps) ==> AllOnTheirDate(Run(tb, steps))
  {
    if steps != [] {
      hide Inv, AttendanceOk, AllOnTheirDate, Possible, Exec, IsUndatedReplay;
      var n := |steps| - 1;
      RunKeepsAttendance(tb, now, steps[..n]);
      RunKeeps(tb, now, steps[..n]);
      ExecKeepsAttendance(Run(tb, steps[..n]), ClockAfter(now, steps[..n]), steps[n]);
    }
  }

  // ---------- theorems ----------

  lemma ReachableAttendance(tb: Tables, now: Time)
    requires Reachable(tb, now)
    ensures AttendanceOk(tb)
  {
    var idle, from, steps :|
      IsHistory(EmptyTables(idle), from, steps) && ClockAfter(from, steps) <= now &&
      tb == Run(EmptyTables(idle), steps);
    RunKeepsAttendance(EmptyTables(idle), from, steps);
  }

  /**
    After any history a row agrees with the shift it names exactly when it does not sit on a
    date other than that shift's own work date.
  */
  lemma RowIsFreshExactly(tb: Tables, now: Time, k: (EmployeeId, Date))
    requires Reachable(tb, now) && k in tb.attendance
    ensures var r := tb.attendance[k];
            r.shift in tb.shifts && tb.shifts[r.shift].terms.employee == k.0 &&
            (r == FreshRow(tb, r.shift) <==> (Dated(tb.shifts[r.shift]) ==> WorkDate(tb.shifts[r.shift], now) == k.1))
  {
    ReachableAttendance(tb, now);
    assert RowOk(tb, k, tb.attendance[k]);
    hide Reachable, ComputeDurations, DeriveStatus, BreakSeconds, IdleSeconds;
  }

  /**
    When no request replays a used event id on an undated shift, every row is fresh after every
    history, and no shift ever has rows on two dates.
  */
  lemma AttendanceAgrees(idle: map<ShiftId, seq<Interval>>, from: Time, steps: seq<Step>)
    requires IsHistory(EmptyTables(idle), from, steps)
    requires NoUndatedReplay(EmptyTables(idle), steps)
    ensures var tb := Run(EmptyTables(idle), steps);
            (forall k :: k in tb.attendance ==>
               tb.attendance[k].shift in tb.shifts && tb.attendance[k] == FreshRow(tb, tb.attendance[k].shift)) &&
            (forall j, k ::
               (j in tb.attendance && k in tb.attendance && tb.attendance[j].shift == tb.attendance[k].shift) ==>
                 j == k)
  {
    RunKeepsAttendance(EmptyTables(idle), from, steps);
    var tb := Run(EmptyTables(idle), steps);
    forall k | k in tb.attendance
      ensures tb.attendance[k].shift in tb.shifts && tb.attendance[k] == FreshRow(tb, tb.attendance[k].shift)
      ensures tb.shifts[tb.attendance[k].shift].terms.employee == k.0 &&
              WorkDate(tb.shifts[tb.attendance[k].shift], 0) == k.1
    {
      assert RowOk(tb, k, tb.attendance[k]);
      hide Run, IsHistory, FreshRow, IsUndatedReplay;
    }
    hide *;
  }

  /** A derivation takes today's date as the work date exactly for a replay on an undated shift. */
  lemma TodayIsUsedExactly(tb: Tables, now: Time, sid: ShiftId, t: Time, a: Action, eventId: Option<string>)
    requires Reachable(tb, now) && Serve(tb, sid, t, a, eventId).Ok?
    ensures !Dated(Serve(tb, sid, t, a, eventId).value.shifts[sid]) <==>
            IsReplay(tb, sid, t, a, eventId) && !Dated(tb.shifts[sid])
  {
    ReachableInv(tb, now);
    ServeServesOne(tb, now, sid, t, a, eventId);
  }
}
