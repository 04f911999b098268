/**
  Offline clients resend requests. A resent request carries an event id that is already on
  record; this module says exactly what inserting one into a history changes.
*/
module ReplayInsertion {
  import opened Common
  import opened Clock
  import opened ShiftModel
  import opened ShiftSteps
  import opened ShiftHistory
  import opened AttendanceAgreement

  /** Equal but for attendance. */
  predicate SameCore(a: Tables, b: Tables) {
    a.shifts == b.shifts && a.breaks == b.breaks && a.events == b.events && a.idle == b.idle
  }

  predicate Alike(a: Result<Tables, Error>, b: Result<Tables, Error>) {
    match (a, b)
    case (Ok(x), Ok(y)) => SameCore(x, y)
    case (Err(e), Err(f)) => e == f
    case _ => false
  }

  // ---------- attendance never influences shifts, breaks or events ----------

  lemma TransitionIgnoresAttendance(a: Tables, b: Tables, sid: ShiftId, t: Time, act: Action, eventId: Option<string>)
    requires SameCore(a, b) && sid in a.shifts
    ensures Alike(Transition(a, sid, t, act, eventId), Transition(b, sid, t, act, eventId))
  {
    assert BreaksOf(a, sid) == BreaksOf(b, sid);
    hide Decide, KeyUsed, BreaksOf;
  }

  lemma ServeIgnoresAttendance(a: Tables, b: Tables, sid: ShiftId, t: Time, act: Action, eventId: Option<string>)
    requires SameCore(a, b)
    ensures Alike(Serve(a, sid, t, act, eventId), Serve(b, sid, t, act, eventId))
  {
    if sid in a.shifts { TransitionIgnoresAttendance(a, b, sid, t, act, eventId); }
    hide Transition, DeriveRow;
  }

  lemma FireIgnoresAttendance(a: Tables, b: Tables, sid: ShiftId, t: Time, job: Job)
    requires SameCore(a, b) && sid in a.shifts && Due(job, a.shifts[sid].terms, t)
    ensures Alike(Fire(a, sid, t, job), Fire(b, sid, t, job))
  {
    ServeIgnoresAttendance(a, b, sid, t, AutoStart, None);
    ServeIgnoresAttendance(a, b, sid, t, AutoEnd, None);
    hide Serve, DeriveRow;
  }

  lemma {:induction false} SweepIgnoresAttendance(a: Tables, b: Tables, t: Time, job: Job, order: seq<ShiftId>)
    requires SameCore(a, b)
    ensures match (Sweep(a, t, job, order), Sweep(b, t, job, order))
            case (Ok(x), Ok(y)) => SameCore(x.0, y.0) && x.1 == y.1
            case (Err(e), Err(f)) => e == f
            case _ => false
  {
    if order != [] {
      var sid, rest := order[|order| - 1], order[..|order| - 1];
      SweepIgnoresAttendance(a, b, t, job, rest);
      hide Fire, Due;
      if Sweep(a, t, job, rest).Ok? {
        var a1, b1 := Sweep(a, t, job, rest).value.0, Sweep(b, t, job, rest).value.0;
        if sid in a1.shifts && Due(job, a1.shifts[sid].terms, t) {
          FireIgnoresAttendance(a1, b1, sid, t, job);
        }
      }
    }
  }

  lemma {:induction false} DailyIgnoresAttendance(a: Tables, b: Tables, day: Date, plan: seq<Candidate>)
    requires SameCore(a, b)
    ensures SameCore(EnsureDaily(a, day, plan).0, EnsureDaily(b, day, plan).0)
    ensures EnsureDaily(a, day, plan).1 == EnsureDaily(b, day, plan).1
  {
    if plan != [] {
      DailyIgnoresAttendance(a, b, day, plan[..|plan| - 1]);
    }
  }

  lemma ExecIgnoresAttendance(a: Tables, b: Tables, st: Step)
    requires SameCore(a, b)
    ensures SameCore(Exec(a, st), Exec(b, st))
    ensures Possible(a, st.cmd) <==> Possible(b, st.cmd)
  {
    hide Serve, Sweep, EnsureDaily;
    match st.cmd
    case Create(_, _) =>
    case Request(sid, act, eventId) => ServeIgnoresAttendance(a, b, sid, st.at, act, eventId);
    case Daily(day, plan) => DailyIgnoresAttendance(a, b, day, plan);
    case RunSweep(job, order) => SweepIgnoresAttendance(a, b, st.at, job, order);
  }

  lemma {:induction false} RunIgnoresAttendance(a: Tables, b: Tables, steps: seq<Step>)
    requires SameCore(a, b)
    ensures SameCore(Run(a, steps), Run(b, steps))
  {
    if steps != [] {
      var n := |steps| - 1;
      RunIgnoresAttendance(a, b, steps[..n]);
      ExecIgnoresAttendance(Run(a, steps[..n]), Run(b, steps[..n]), steps[n]);
    }
  }

  lemma {:induction false} RunConcat(tb: Tables, first: seq<Step>, rest: seq<Step>)
    ensures Run(tb, first + rest) == Run(Run(tb, first), rest)
  {
    if rest == [] {
      assert first + rest == first;
    } else {
      var n := |rest| - 1;
      RunConcat(tb, first, rest[..n]);
      assert (first + rest)[..|first + rest| - 1] == first + rest[..n];
    }
  }

  // ---------- inserting a replay ----------

  /** A resent request for an existing shift: its event id is already on record. */
  predicate IsResend(tb: Tables, st: Step) {
    st.cmd.Request? && st.cmd.sid in tb.shifts &&
    IsReplay(tb, st.cmd.sid, st.at, st.cmd.action, st.cmd.eventId)
  }

  lemma ResendOnlyDerives(tb: Tables, st: Step)
    requires IsResend(tb, st)
    ensures Exec(tb, st) == Derive(tb, st.cmd.sid, st.at)
  {
  }

  /**
    Inserting a resend anywhere in a run, terminal shifts included, changes no shift, break or
    event from there on.
  */
  lemma ResendChangesNoRecord(tb: Tables, first: seq<Step>, resend: Step, rest: seq<Step>)
    requires IsResend(Run(tb, first), resend)
    ensures SameCore(Run(tb, first + [resend] + rest), Run(tb, first + rest))
  {
    var mid := Run(tb, first);
    RunConcat(tb, first, rest);
    RunConcat(tb, first + [resend], rest);
    RunConcat(tb, first, [resend]);
    assert Run(mid, [resend]) == Exec(mid, resend) by { assert [resend][..0] == []; }
    ResendOnlyDerives(mid, resend);
    RunIgnoresAttendance(Run(mid, [resend]), mid, rest);
  }

  /**
    A resend leaves attendance alone exactly when the row of its employee and work date already
    names the shift; otherwise the row is overwritten for this shift.
  */
  lemma ResendKeepsAttendanceExactly(tb: Tables, now: Time, resend: Step)
    requires Reachable(tb, now) && IsResend(tb, resend)
    ensures var k := RowKey(tb, resend.cmd.sid, resend.at);
            Exec(tb, resend) == tb <==> k in tb.attendance && tb.attendance[k].shift == resend.cmd.sid
  {
    var sid := resend.cmd.sid;
    var k := RowKey(tb, sid, resend.at);
    ResendOnlyDerives(tb, resend);
    ReachableAttendance(tb, now);
    NewRowOk(tb, sid, resend.at);
    assert Exec(tb, resend).attendance[k].shift == sid;
    hide Reachable, Exec, DeriveRow;
    if k in tb.attendance && tb.attendance[k].shift == sid {
      assert RowOk(tb, k, tb.attendance[k]);
      assert tb.attendance[k := FreshRow(tb, sid)] == tb.attendance;
    }
  }

  /** While the row names the resent shift, the rest of the run is the same in every table. */
  lemma ResendChangesNothing(
    idle: map<ShiftId, seq<Interval>>, from: Time, first: seq<Step>, resend: Step, rest: seq<Step>)
    requires IsHistory(EmptyTables(idle), from, first)
    requires var tb := Run(EmptyTables(idle), first);
             IsResend(tb, resend) &&
             var k := RowKey(tb, resend.cmd.sid, resend.at);
             k in tb.attendance && tb.attendance[k].shift == resend.cmd.sid
    ensures Run(EmptyTables(idle), first + [resend] + rest) == Run(EmptyTables(idle), first + rest)
  {
    var empty := EmptyTables(idle);
    var mid := Run(empty, first);
    assert Reachable(mid, ClockAfter(from, first));
    ResendKeepsAttendanceExactly(mid, ClockAfter(from, first), resend);
    RunConcat(empty, first, rest);
    RunConcat(empty, first + [resend], rest);
    RunConcat(empty, first, [resend]);
    assert Run(mid, [resend]) == Exec(mid, resend) by { assert [resend][..0] == []; }
  }
}
