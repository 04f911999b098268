/**
  The three sweeps (backend/app/shifts/scheduler.py) case by case: which rows each one changes and
  into what, in terms of the rows, their policy and the time alone.
*/
module SweepTable {
  import opened Common
  import opened Clock
  import opened ShiftModel
  import opened ShiftSteps
  import opened ShiftInvariant
  import opened ShiftSweeps
  import opened ShiftSweepLaws
  import opened ShiftHistory
  import opened AttendanceAgreement

  /** A waiting shift that its policy starts by itself, at or after its scheduled start. */
  predicate StartsItself(s: Shift, t: Time) {
    s.state == Available && s.terms.policy.autoStart && s.terms.schedStart.Some? && t >= s.terms.schedStart.value
  }

  /** A running shift that its policy ends by itself, at or after its scheduled end. */
  predicate EndsItself(s: Shift, t: Time) {
    s.state in {Working, OnBreak, Paused} && s.terms.policy.autoEnd && s.terms.schedEnd.Some? &&
    t >= s.terms.schedEnd.value
  }

  /** A waiting shift past its scheduled start and the minutes of its latest clock-in, or 0. */
  predicate IsMissed(s: Shift, t: Time) {
    s.state == Available && s.terms.schedStart.Some? &&
    t - s.terms.schedStart.value > 60_000_000 * (match s.terms.policy.latestMin case None => 0 case Some(m) => m)
  }

  /** Is the employee on leave or holiday on the UTC day of the scheduled start? */
  predicate IsExcused(s: Shift, suppressed: set<(EmployeeId, Date)>) {
    s.terms.schedStart.Some? && (s.terms.employee, s.terms.schedStart.value / 86_400_000_000) in suppressed
  }

  function Marked(s: Shift, suppressed: set<(EmployeeId, Date)>): Shift {
    s.(state := if IsExcused(s, suppressed) then Cancelled else Missed, version := s.version + 1)
  }

  lemma MarkedIsFired(s: Shift, t: Time, suppressed: set<(EmployeeId, Date)>)
    requires IsMissed(s, t)
    ensures Due(MarkMissed(suppressed), s.terms, t) && FiredShift(MarkMissed(suppressed), s, t) == Marked(s, suppressed)
  {
  }

  /** The sweep acts on exactly these rows, as given, and returns how many there are. */
  ghost predicate ChangesExactly(tb: Tables, tb': Tables, n: nat, rows: set<ShiftId>, after: map<ShiftId, Shift>) {
    n == |rows| && after.Keys == rows && tb'.shifts.Keys == tb.shifts.Keys &&
    forall sid :: sid in tb.shifts ==> tb'.shifts[sid] == if sid in rows then after[sid] else tb.shifts[sid]
  }

  lemma NeverScheduled(tb: Tables, now: Time)
    requires Reachable(tb, now)
    ensures forall sid :: sid in tb.shifts ==> !tb.shifts[sid].state.Scheduled?
  {
    ReachableInv(tb, now);
    forall sid | sid in tb.shifts ensures !tb.shifts[sid].state.Scheduled? { StartedWhenUnderway(tb, now, sid); }
  }

  lemma ResultChanges(
    tb: Tables, tb': Tables, n: nat, t: Time, job: Job, rows: set<ShiftId>, after: map<ShiftId, Shift>)
    requires SweepResult(tb, tb', n, t, job, AllDue(tb, t, job)) && rows == AllDue(tb, t, job)
    requires after.Keys == rows && forall sid :: sid in rows ==> after[sid] == FiredShift(job, tb.shifts[sid], t)
    ensures ChangesExactly(tb, tb', n, rows, after)
  {
    hide AllDue, SweptLog, SweptAttendance, FiredShift, FiredBreaks, BreaksOf;
  }

  lemma AutoStartExactly(tb: Tables, now: Time, t: Time, order: seq<ShiftId>)
    requires Reachable(tb, now) && now <= t && IsQuery(tb, RunAutoStart, order)
    ensures Sweep(tb, t, RunAutoStart, order).Ok?
    ensures var (tb', n) := Sweep(tb, t, RunAutoStart, order).value;
            var rows := set sid | sid in tb.shifts && StartsItself(tb.shifts[sid], t);
            var after := map sid | sid in rows ::
              tb.shifts[sid].(state := Working, actualStart := Some(t), version := tb.shifts[sid].version + 1);
            ChangesExactly(tb, tb', n, rows, after)
  {
    hide Reachable, IsQuery, Sweep, SweepResult, ChangesExactly;
    SweepIsComplete(tb, now, t, RunAutoStart, order);
    var (tb', n) := Sweep(tb, t, RunAutoStart, order).value;
    var rows := set sid | sid in tb.shifts && StartsItself(tb.shifts[sid], t);
    assert rows == AllDue(tb, t, RunAutoStart);
    ResultChanges(tb, tb', n, t, RunAutoStart, rows,
      map sid | sid in rows ::
        tb.shifts[sid].(state := Working, actualStart := Some(t), version := tb.shifts[sid].version + 1));
  }

  lemma AutoEndExactly(tb: Tables, now: Time, t: Time, order: seq<ShiftId>)
    requires Reachable(tb, now) && now <= t && IsQuery(tb, RunAutoEnd, order)
    ensures Sweep(tb, t, RunAutoEnd, order).Ok?
    ensures var (tb', n) := Sweep(tb, t, RunAutoEnd, order).value;
            var rows := set sid | sid in tb.shifts && EndsItself(tb.shifts[sid], t);
            var after := map sid | sid in rows ::
              tb.shifts[sid].(state := AutoCompleted, actualEnd := Some(t), version := tb.shifts[sid].version + 1);
            ChangesExactly(tb, tb', n, rows, after)
  {
    hide Reachable, IsQuery, Sweep, SweepResult, ChangesExactly;
    SweepIsComplete(tb, now, t, RunAutoEnd, order);
    var (tb', n) := Sweep(tb, t, RunAutoEnd, order).value;
    var rows := set sid | sid in tb.shifts && EndsItself(tb.shifts[sid], t);
    assert rows == AllDue(tb, t, RunAutoEnd);
    ResultChanges(tb, tb', n, t, RunAutoEnd, rows,
      map sid | sid in rows ::
        tb.shifts[sid].(state := AutoCompleted, actualEnd := Some(t), version := tb.shifts[sid].version + 1));
  }

  lemma MarkMissedExactly(
    tb: Tables, now: Time, t: Time, suppressed: set<(EmployeeId, Date)>, order: seq<ShiftId>)
    requires Reachable(tb, now) && now <= t && IsQuery(tb, MarkMissed(suppressed), order)
    ensures Sweep(tb, t, MarkMissed(suppressed), order).Ok?
    ensures var (tb', n) := Sweep(tb, t, MarkMissed(suppressed), order).value;
            var rows := set sid | sid in tb.shifts && IsMissed(tb.shifts[sid], t);
            var after := map sid | sid in rows :: Marked(tb.shifts[sid], suppressed);
            ChangesExactly(tb, tb', n, rows, after) && tb'.events == tb.events && tb'.breaks == tb.breaks
  {
    var job := MarkMissed(suppressed);
    var rows := set sid | sid in tb.shifts && IsMissed(tb.shifts[sid], t);
    var after := map sid | sid in rows :: Marked(tb.shifts[sid], suppressed);
    assert after.Keys == rows;
    assert forall sid :: sid in rows ==> sid in tb.shifts && IsMissed(tb.shifts[sid], t);
    hide *;
    MissedRows(tb, now, t, suppressed);
    forall sid | sid in rows
      ensures Due(job, tb.shifts[sid].terms, t) && after[sid] == FiredShift(job, tb.shifts[sid], t)
    {
      MarkedIsFired(tb.shifts[sid], t, suppressed);
    }
    SweepIsComplete(tb, now, t, job, order);
    var (tb', n) := Sweep(tb, t, job, order).value;
    ResultChanges(tb, tb', n, t, job, rows, after);
    MissedLogsNothing(tb, tb', n, t, job);
  }

  lemma MissedRows(tb: Tables, now: Time, t: Time, suppressed: set<(EmployeeId, Date)>)
    requires Reachable(tb, now)
    ensures (set sid | sid in tb.shifts && IsMissed(tb.shifts[sid], t)) == AllDue(tb, t, MarkMissed(suppressed))
  {
    NeverScheduled(tb, now);
    hide Reachable;
  }

  lemma MissedLogsNothing(tb: Tables, tb': Tables, n: nat, t: Time, job: Job)
    requires job.MarkMissed? && SweepResult(tb, tb', n, t, job, AllDue(tb, t, job))
    ensures tb'.events == tb.events && tb'.breaks == tb.breaks
  {
  }
}
