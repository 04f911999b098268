/** Sweeps are complete, idempotent and independent of the order of the query's rows. */
module ShiftSweepLaws {
  import opened Common
  import opened Clock
  import opened ShiftModel
  import opened ShiftSteps
  import opened ShiftReplay
  import opened ShiftInvariant
  import opened ShiftSweeps
  import opened ShiftHistory

  function AllDue(tb: Tables, t: Time, job: Job): set<ShiftId> {
    set sid | sid in tb.shifts && Fires(tb, t, job, sid)
  }

  lemma FiredIsNoLongerSelected(job: Job, s: Shift, t: Time)
    requires Selects(job, s.state) && Due(job, s.terms, t)
    ensures !Selects(job, FiredShift(job, s, t).state) && FiredShift(job, s, t).terms == s.terms
  {
  }

  /**
    A sweep succeeds, fires exactly the due rows, leaves every other row and its breaks alone,
    returns how many it fired, and leaves no due row behind.
  */
  lemma SweepIsComplete(tb: Tables, now: Time, t: Time, job: Job, order: seq<ShiftId>)
    requires Reachable(tb, now) && now <= t && IsQuery(tb, job, order)
    ensures Sweep(tb, t, job, order).Ok?
    ensures var (tb', n) := Sweep(tb, t, job, order).value;
            SweepResult(tb, tb', n, t, job, AllDue(tb, t, job)) && AllDue(tb', t, job) == {}
  {
    ReachableInv(tb, now);
    assert DueSet(tb, t, job, order) == AllDue(tb, t, job);
    hide Inv, Reachable, Sweep;
    SweepEffect(tb, now, t, job, order);
    var (tb', n) := Sweep(tb, t, job, order).value;
    NoneLeft(tb, tb', n, t, job);
  }

  /** The same in plain terms: after a sweep at t nothing it looks after is overdue. */
  lemma NothingIsOverdue(tb: Tables, now: Time, t: Time, job: Job, order: seq<ShiftId>, sid: ShiftId)
    requires Reachable(tb, now) && now <= t && IsQuery(tb, job, order)
    requires Sweep(tb, t, job, order).Ok? && sid in Sweep(tb, t, job, order).value.0.shifts
    ensures var s := Sweep(tb, t, job, order).value.0.shifts[sid];
            var p := s.terms.policy;
            match job
            case RunAutoStart =>
              s.state.Available? && p.autoStart && s.terms.schedStart.Some? ==> t < s.terms.schedStart.value
            case RunAutoEnd =>
              Underway(s.state) && p.autoEnd && s.terms.schedEnd.Some? ==> t < s.terms.schedEnd.value
            case MarkMissed(_) =>
              s.state.Available? && s.terms.schedStart.Some? ==>
                t - s.terms.schedStart.value <= 60_000_000 * (match p.latestMin case None => 0 case Some(m) => m)
  {
    SweepIsComplete(tb, now, t, job, order);
    var tb' := Sweep(tb, t, job, order).value.0;
    assert sid !in AllDue(tb', t, job);
    hide Reachable, IsQuery, Sweep, SweepResult;
  }

  lemma NoneLeft(tb: Tables, tb': Tables, n: nat, t: Time, job: Job)
    requires SweepResult(tb, tb', n, t, job, AllDue(tb, t, job))
    ensures AllDue(tb', t, job) == {}
  {
    forall sid | sid in tb'.shifts ensures !Fires(tb', t, job, sid) {
      if sid in AllDue(tb, t, job) {
        FiredIsNoLongerSelected(job, tb.shifts[sid], t);
      } else {
        assert tb'.shifts[sid] == tb.shifts[sid];
      }
    }
  }

  lemma {:induction false} IdleSweep(tb: Tables, t: Time, job: Job, order: seq<ShiftId>)
    requires AllDue(tb, t, job) == {}
    requires forall sid :: sid in order ==> sid in tb.shifts && Selects(job, tb.shifts[sid].state)
    ensures Sweep(tb, t, job, order) == Ok((tb, 0))
  {
    if order != [] {
      var sid := order[|order| - 1];
      IdleSweep(tb, t, job, order[..|order| - 1]);
      assert sid in order;
      assert sid !in AllDue(tb, t, job);
    }
  }

  /** Running a sweep again at the same moment changes nothing and returns 0. */
  lemma SecondSweepIsIdle(tb: Tables, now: Time, t: Time, job: Job, order: seq<ShiftId>, again: seq<ShiftId>)
    requires Reachable(tb, now) && now <= t && IsQuery(tb, job, order)
    requires Sweep(tb, t, job, order).Ok? && IsQuery(Sweep(tb, t, job, order).value.0, job, again)
    ensures Sweep(Sweep(tb, t, job, order).value.0, t, job, again) == Ok((Sweep(tb, t, job, order).value.0, 0))
  {
    hide Sweep, Reachable, SweepResult;
    SweepIsComplete(tb, now, t, job, order);
    IdleSweep(Sweep(tb, t, job, order).value.0, t, job, again);
  }

  /** Rows, breaks, each shift's log, attendance and count do not depend on the order of the query's rows. */
  lemma SweepOrderIsIrrelevant(tb: Tables, now: Time, t: Time, job: Job, one: seq<ShiftId>, two: seq<ShiftId>)
    requires Reachable(tb, now) && now <= t && IsQuery(tb, job, one) && IsQuery(tb, job, two)
    ensures Sweep(tb, t, job, one).Ok? && Sweep(tb, t, job, two).Ok?
    ensures var (a, m) := Sweep(tb, t, job, one).value;
            var (b, n) := Sweep(tb, t, job, two).value;
            m == n && a.shifts == b.shifts && a.attendance == b.attendance &&
            (forall sid :: sid in tb.shifts ==> BreaksOf(a, sid) == BreaksOf(b, sid)) &&
            (forall sid :: Log(a.events, sid) == Log(b.events, sid))
  {
    SweepIsComplete(tb, now, t, job, one);
    SweepIsComplete(tb, now, t, job, two);
    var (a, m) := Sweep(tb, t, job, one).value;
    var (b, n) := Sweep(tb, t, job, two).value;
    hide Sweep, Reachable, IsQuery;
    SameResult(tb, a, m, b, n, t, job, AllDue(tb, t, job));
  }

  lemma SameResult(tb: Tables, a: Tables, m: nat, b: Tables, n: nat, t: Time, job: Job, fired: set<ShiftId>)
    requires SweepResult(tb, a, m, t, job, fired) && SweepResult(tb, b, n, t, job, fired)
    ensures m == n && a.shifts == b.shifts && a.attendance == b.attendance
    ensures forall sid :: sid in tb.shifts ==> BreaksOf(a, sid) == BreaksOf(b, sid)
    ensures forall sid :: Log(a.events, sid) == Log(b.events, sid)
  {
    hide Log;
    SameShifts(tb, a, b, t, job, fired);
    SameAttendance(tb, a, b, t, fired);
  }

  lemma SameAttendance(tb: Tables, a: Tables, b: Tables, t: Time, fired: set<ShiftId>)
    requires a.shifts.Keys == tb.shifts.Keys && fired <= tb.shifts.Keys
    requires a.shifts == b.shifts && a.idle == b.idle
    requires forall sid :: sid in tb.shifts ==> BreaksOf(a, sid) == BreaksOf(b, sid)
    requires SweptAttendance(tb, a, t, fired) && SweptAttendance(tb, b, t, fired)
    ensures a.attendance == b.attendance
  {
    hide BreaksOf, DeriveRow;
    assert RowKeys(a, fired, t) == RowKeys(b, fired, t);
    forall k | k in a.attendance ensures a.attendance[k] == b.attendance[k] {
      if k in RowKeys(a, fired, t) {
        var sid :| sid in fired && RowKey(a, sid, t) == k;
        assert RowKey(b, sid, t) == k && FreshRow(a, sid) == FreshRow(b, sid);
      }
    }
  }

  lemma SameShifts(tb: Tables, a: Tables, b: Tables, t: Time, job: Job, fired: set<ShiftId>)
    requires Swept(tb, a, t, job, fired) && Swept(tb, b, t, job, fired)
    ensures a.shifts == b.shifts && a.idle == b.idle
    ensures forall sid :: sid in tb.shifts ==> BreaksOf(a, sid) == BreaksOf(b, sid)
  {
    hide FiredShift, FiredBreaks;
    forall sid | sid in tb.shifts ensures a.shifts[sid] == b.shifts[sid] { }
  }

  /**
    A row due to be marked missed can no longer be started by hand exactly when the policy has a
    latest clock-in (or the window has not even opened). Without one the sweep uses a deadline of
    zero minutes that manual starts do not have, so it marks shifts that could still be started.
  */
  lemma MissedMeansTooLate(sid: ShiftId, s: Shift, bs: seq<Break>, t: Time, job: Job, eventId: Option<string>)
    requires job.MarkMissed? && Selects(job, s.state) && Due(job, s.terms, t)
    ensures TooLate(s.terms, t) <==> s.terms.policy.latestMin.Some?
    ensures Decide(sid, s, bs, t, Start, eventId) == Err(WindowNotOpen) <==>
            s.terms.policy.latestMin.Some? || TooEarly(s.terms, t)
    ensures Decide(sid, s, bs, t, Start, eventId).Ok? <==>
            s.terms.policy.latestMin.None? && !TooEarly(s.terms, t)
  {
  }

  /** With a latest clock-in, being due to be missed and being too late are the same. */
  lemma TooLateMeansMissed(terms: Terms, t: Time, job: Job)
    requires job.MarkMissed? && terms.schedStart.Some? && terms.policy.latestMin.Some?
    ensures Due(job, terms, t) <==> TooLate(terms, t)
  {
  }
}
