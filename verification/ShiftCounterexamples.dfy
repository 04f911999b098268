/**
  Histories on which the code differs from what its documentation leads one to expect: attendance
  that is not a faithful cache, and records that the design describes otherwise.
*/
module ShiftCounterexamples {
  import opened Common
  import opened Clock
  import opened ShiftModel
  import opened ShiftSteps
  import opened ShiftReplay
  import opened ShiftInvariant
  import opened ShiftSweeps
  import opened ShiftSweepLaws
  import opened ShiftHistory
  import opened RequestTable
  import opened BreakFlags
  import opened TimeAccounting
  import opened DailyShifts
  import opened ReplayInsertion

  const EASY := Policy(None, None, 0, true, true, None, true, true, false, false, false)
  const EMPTY := EmptyTables(map[])

  lemma HistoryGrows(tb: Tables, from: Time, steps: seq<Step>, st: Step)
    requires IsHistory(tb, from, steps) && ClockAfter(from, steps) <= st.at && Possible(Run(tb, steps), st.cmd)
    ensures IsHistory(tb, from, steps + [st])
    ensures Run(tb, steps + [st]) == Exec(Run(tb, steps), st)
    ensures ClockAfter(from, steps + [st]) == st.at
  {
    assert (steps + [st])[..|steps|] == steps;
  }

  function FirstShift(): Tables {
    EMPTY.(shifts := map[10 := Shift(Terms(1, None, None, EASY), Available, None, None, 0)])
  }

  /** Employee 1 starts an unscheduled shift with event id "e". */
  lemma FirstStart(second: Terms) returns (steps: seq<Step>, tb: Tables)
    requires second.employee != 1
    ensures IsHistory(EMPTY, 0, steps) && tb == Run(EMPTY, steps) && ClockAfter(0, steps) == 0
    ensures tb.events == [Event(10, EvShiftStart, 0, Client("e"))]
    ensures tb.shifts == map[10 := Shift(Terms(1, None, None, EASY), Working, Some(0), None, 1),
                             20 := Shift(second, Available, None, None, 0)]
    ensures tb.attendance.Keys == {(1, 0)} && tb.idle == map[] && BreaksOf(tb, 20) == []
  {
    var a := Step(0, Create(10, Terms(1, None, None, EASY)));
    var b := Step(0, Create(20, second));
    var c := Step(0, Request(10, Start, Some("e")));
    HistoryGrows(EMPTY, 0, [], a);
    assert Run(EMPTY, [] + [a]) == FirstShift();
    HistoryGrows(EMPTY, 0, [] + [a], b);
    var tb2 := Exec(FirstShift(), b);
    assert tb2.shifts == FirstShift().shifts[20 := Shift(second, Available, None, None, 0)];
    HistoryGrows(EMPTY, 0, [] + [a] + [b], c);
    steps := [] + [a] + [b] + [c];
    tb := Exec(tb2, c);
    assert EventKey(10, EvShiftStart, 0, Some("e")) == Client("e");
    assert !IsReplay(tb2, 10, 0, Start, Some("e"));
    assert tb.events == [] + [Event(10, EvShiftStart, 0, Client("e"))];
  }

  /**
    Employee 2's unscheduled shift receives the used id "e" and gets a row for today; started a
    day later it gets a second row, and the first one no longer agrees with it.
  */
  lemma StaleRow() returns (steps: seq<Step>, tb: Tables)
    ensures IsHistory(EMPTY, 0, steps) && tb == Run(EMPTY, steps)
    ensures (2, 0) in tb.attendance && (2, 1) in tb.attendance
    ensures 20 in tb.shifts && tb.attendance[(2, 0)].shift == 20 && tb.attendance[(2, 1)].shift == 20
    ensures tb.attendance[(2, 0)] != FreshRow(tb, 20)
  {
    var second := Terms(2, None, None, EASY);
    var tb1;
    steps, tb1 := FirstStart(second);
    var d := Step(0, Request(20, Start, Some("e")));
    var e := Step(DAY, Request(20, Start, Some("f")));
    HistoryGrows(EMPTY, 0, steps, d);
    assert tb1.events[0].key == EventKey(20, EvShiftStart, 0, Some("e"));
    assert IsReplay(tb1, 20, 0, Start, Some("e"));
    var tb2 := Exec(tb1, d);
    assert RowKey(tb1, 20, 0) == (2, 0);
    assert tb2 == Derive(tb1, 20, 0);
    HistoryGrows(EMPTY, 0, steps + [d], e);
    steps := steps + [d] + [e];
    tb := Exec(tb2, e);
    LateStart(tb2, second);
  }

  lemma LateStart(tb: Tables, second: Terms)
    requires second == Terms(2, None, None, EASY)
    requires tb.events == [Event(10, EvShiftStart, 0, Client("e"))]
    requires 20 in tb.shifts && tb.shifts[20] == Shift(second, Available, None, None, 0)
    ensures var tb' := Exec(tb, Step(DAY, Request(20, Start, Some("f"))));
            20 in tb'.shifts && tb'.shifts[20].actualStart == Some(DAY) &&
            tb'.attendance == tb.attendance[(2, 1) := FreshRow(tb', 20)]
  {
    assert EventKey(20, EvShiftStart, DAY, Some("f")) == Client("f");
    assert "e"[0] != "f"[0];
    assert !IsReplay(tb, 20, DAY, Start, Some("f"));
  }

  // ---------- two shifts on one day ----------

  const TERMS := Terms(1, None, None, EASY)

  lemma FirstShiftStarted() returns (steps: seq<Step>, tb: Tables)
    ensures IsHistory(EMPTY, 0, steps) && tb == Run(EMPTY, steps) && ClockAfter(0, steps) == 0
    ensures tb.shifts == map[10 := Shift(TERMS, Working, Some(0), None, 1)]
    ensures tb.events == [Event(10, EvShiftStart, 0, Client("a"))]
  {
    var a := Step(0, Create(10, TERMS));
    var b := Step(0, Request(10, Start, Some("a")));
    HistoryGrows(EMPTY, 0, [], a);
    var tb1 := Run(EMPTY, [] + [a]);
    assert tb1 == FirstShift();
    HistoryGrows(EMPTY, 0, [] + [a], b);
    hide Run, IsHistory, ClockAfter, Exec;
    tb := ExecStart(tb1, 10, "a");
    steps := [] + [a] + [b];
  }

  lemma FirstShiftStopped() returns (steps: seq<Step>, tb: Tables)
    ensures IsHistory(EMPTY, 0, steps) && tb == Run(EMPTY, steps) && ClockAfter(0, steps) == 0
    ensures tb.shifts == map[10 := Shift(TERMS, ForceStopped, Some(0), Some(0), 2)]
    ensures tb.events == [Event(10, EvShiftStart, 0, Client("a")), Event(10, EvForceStop, 0, Client("b"))]
  {
    hide Run, IsHistory, ClockAfter, Exec;
    var started, tb1 := FirstShiftStarted();
    var c := Step(0, Request(10, ForceStop, Some("b")));
    assert "a"[0] != "b"[0];
    HistoryGrows(EMPTY, 0, started, c);
    tb := ExecStop(tb1, 10, "b");
    steps := started + [c];
  }

  /** Employee 1 starts and is stopped, then starts a second shift on the same day. */
  lemma TwoShiftsOneDay() returns (steps: seq<Step>, tb: Tables)
    ensures IsHistory(EMPTY, 0, steps) && tb == Run(EMPTY, steps) && ClockAfter(0, steps) == 0
    ensures 10 in tb.shifts && tb.shifts[10].terms == TERMS && tb.shifts[10].actualStart == Some(0)
    ensures (1, 0) in tb.attendance && tb.attendance[(1, 0)].shift == 11
    ensures KeyUsed(tb.events, Client("a"))
  {
    var first, tb3 := FirstShiftStopped();
    var d := Step(0, Create(11, TERMS));
    var e := Step(0, Request(11, Start, Some("c")));
    HistoryGrows(EMPTY, 0, first, d);
    var tb4 := Exec(tb3, d);
    assert tb4 == tb3.(shifts := tb3.shifts[11 := Shift(TERMS, Available, None, None, 0)]);
    HistoryGrows(EMPTY, 0, first + [d], e);
    assert "a"[0] != "c"[0] && "b"[0] != "c"[0];
    tb := ExecStart(tb4, 11, "c");
    steps := first + [d] + [e];
    assert tb.events[0].key == Client("a");
  }

  lemma ExecStart(tb: Tables, sid: ShiftId, id: string) returns (tb': Tables)
    requires sid in tb.shifts && tb.shifts[sid] == Shift(TERMS, Available, None, None, 0)
    requires id != "" && !KeyUsed(tb.events, Client(id))
    ensures tb' == Exec(tb, Step(0, Request(sid, Start, Some(id))))
    ensures tb'.shifts == tb.shifts[sid := Shift(TERMS, Working, Some(0), None, 1)]
    ensures tb'.events == tb.events + [Event(sid, EvShiftStart, 0, Client(id))]
    ensures (1, 0) in tb'.attendance && tb'.attendance[(1, 0)].shift == sid
  {
    tb' := Exec(tb, Step(0, Request(sid, Start, Some(id))));
    assert !IsReplay(tb, sid, 0, Start, Some(id));
  }

  lemma ExecStop(tb: Tables, sid: ShiftId, id: string) returns (tb': Tables)
    requires sid in tb.shifts && tb.shifts[sid] == Shift(TERMS, Working, Some(0), None, 1)
    requires id != "" && !KeyUsed(tb.events, Client(id))
    ensures tb' == Exec(tb, Step(0, Request(sid, ForceStop, Some(id))))
    ensures tb'.shifts == tb.shifts[sid := Shift(TERMS, ForceStopped, Some(0), Some(0), 2)]
    ensures tb'.events == tb.events + [Event(sid, EvForceStop, 0, Client(id))]
  {
    tb' := Exec(tb, Step(0, Request(sid, ForceStop, Some(id))));
    assert !IsReplay(tb, sid, 0, ForceStop, Some(id));
  }

  /** Resending the first shift's start hands the day's attendance row back to that shift. */
  lemma ResendFlipsRow() returns (steps: seq<Step>, resend: Step)
    ensures IsHistory(EMPTY, 0, steps) && IsResend(Run(EMPTY, steps), resend)
    ensures var before, after := Run(EMPTY, steps), Run(EMPTY, steps + [resend]);
            (1, 0) in before.attendance && before.attendance[(1, 0)].shift == 11 &&
            (1, 0) in after.attendance && after.attendance[(1, 0)].shift == 10
  {
    var tb;
    steps, tb := TwoShiftsOneDay();
    resend := Step(0, Request(10, Start, Some("a")));
    HistoryGrows(EMPTY, 0, steps, resend);
    assert IsReplay(tb, 10, 0, Start, Some("a"));
    ResendOnlyDerives(tb, resend);
    assert RowKey(tb, 10, 0) == (1, 0);
  }

  // ---------- one shift, step by step ----------

  /** The history leads from an empty organization at time 0 to these tables at this time. */
  ghost predicate Reaches(steps: seq<Step>, tb: Tables, now: Time) {
    IsHistory(EMPTY, 0, steps) && tb == Run(EMPTY, steps) && ClockAfter(0, steps) == now
  }

  /** A history that creates shift 10 at time 0 and does nothing else. */
  lemma Created(terms: Terms) returns (steps: seq<Step>, tb: Tables)
    ensures Reaches(steps, tb, 0) && tb == EMPTY.(shifts := map[10 := Shift(terms, Available, None, None, 0)])
  {
    var a := Step(0, Create(10, terms));
    HistoryGrows(EMPTY, 0, [], a);
    steps, tb := [] + [a], Exec(EMPTY, a);
  }

  /** Extends a history by a permitted request with a new event id. */
  lemma Requested(steps: seq<Step>, tb: Tables, now: Time, sid: ShiftId, t: Time, a: Action, id: string)
    returns (more: seq<Step>, tb': Tables)
    requires Reaches(steps, tb, now) && now <= t && sid in tb.shifts
    requires id != "" && !KeyUsed(tb.events, Client(id))
    requires !a.Resume? && !a.AutoStart? && !a.AutoEnd? && Permits(tb.shifts[sid], BreaksOf(tb, sid), t, a)
    ensures more == steps + [Step(t, Request(sid, a, Some(id)))]
    ensures Reaches(more, tb', t) && tb'.idle == tb.idle
    ensures var s := tb.shifts[sid];
            tb'.shifts == tb.shifts[sid := Shift(s.terms, Target(a), if a.Start? then Some(t) else s.actualStart,
                                                 if IsFinished(Target(a)) then Some(t) else s.actualEnd, s.version + 1)]
    ensures tb'.events == tb.events + [Event(sid, KindOf(a), t, Client(id))]
    ensures var s, bs, bs' := tb.shifts[sid], BreaksOf(tb, sid), BreaksOf(tb', sid);
            if a.StartBreak? then bs' == bs + [Break(t, None, s.terms.policy.maxBreakSeconds, false)]
            else if s.state.OnBreak? then BreakIsOver(bs, bs', t, None)
            else bs' == bs
  {
    var st := Step(t, Request(sid, a, Some(id)));
    assert Reachable(tb, now) by { assert EMPTY == EmptyTables(map[]); }
    assert EventKey(sid, KindOf(a), t, Some(id)) == Client(id);
    AcceptedExactly(tb, now, sid, t, a, Some(id));
    AcceptedOutcome(tb, sid, t, a, Some(id));
    AcceptedBreaks(tb, now, sid, t, a, Some(id));
    HistoryGrows(EMPTY, 0, steps, st);
    more, tb' := steps + [st], Exec(tb, st);
    assert tb'.idle == tb.idle by { hide Run, IsHistory; ServeKeepsIdle(tb, sid, t, a, Some(id)); }
    hide Run, IsHistory, Serve, BreaksOf, BreakIsOver, Permits, Reachable;
    assert tb'.shifts == tb.shifts[sid := tb'.shifts[sid]];
  }

  lemma ServeKeepsIdle(tb: Tables, sid: ShiftId, t: Time, a: Action, eventId: Option<string>)
    requires Serve(tb, sid, t, a, eventId).Ok?
    ensures Serve(tb, sid, t, a, eventId).value.idle == tb.idle
  {
    hide Decide, DeriveRow, KeyUsed;
  }

  /** A break of a whole day, against a limit of a minute, that nothing flags: the shift was ended on it. */
  lemma UnflaggedBreak() returns (steps: seq<Step>, tb: Tables)
    ensures IsHistory(EMPTY, 0, steps) && tb == Run(EMPTY, steps)
    ensures 10 in tb.shifts && tb.shifts[10].state.Completed? && |BreaksOf(tb, 10)| == 1
    ensures Overlong(BreaksOf(tb, 10)[0]) && !BreaksOf(tb, 10)[0].exceeded
  {
    hide Run, IsHistory;
    steps, tb := Created(Terms(1, None, None, EASY.(maxBreakSeconds := Some(60))));
    assert BreaksOf(tb, 10) == [];
    steps, tb := Requested(steps, tb, 0, 10, 0, Start, "a");
    assert "a"[0] != "b"[0] && "a"[0] != "c"[0] && "b"[0] != "c"[0];
    steps, tb := Requested(steps, tb, 0, 10, 0, StartBreak, "b");
    steps, tb := Requested(steps, tb, 0, 10, DAY, End, "c");
  }

  /** A shift that is paused for all of its minute is credited with a minute of work. */
  lemma PausedIsWorked() returns (steps: seq<Step>, tb: Tables)
    ensures IsHistory(EMPTY, 0, steps) && tb == Run(EMPTY, steps)
    ensures 10 in tb.shifts && tb.shifts[10].state.Completed?
    ensures TimeIn(tb.shifts[10].terms, Log(tb.events, 10), Working) == 0
    ensures FreshRow(tb, 10).durations.worked == 60
  {
    steps, tb := PausedForAMinute();
    hide Run, IsHistory, TimeIn, Log, BreaksOf, FreshRow;
    PausedAllAlong(TERMS, tb.events);
    LogOfOneShift(tb.events, 10, 10);
    MinuteWorked(tb);
  }

  lemma PausedForAMinute() returns (steps: seq<Step>, tb: Tables)
    ensures Reaches(steps, tb, MINUTE)
    ensures tb.shifts == map[10 := Shift(TERMS, Completed, Some(0), Some(MINUTE), 3)]
    ensures tb.events == [Event(10, EvShiftStart, 0, Client("a")), Event(10, EvPause, 0, Client("b")),
                          Event(10, EvShiftEnd, MINUTE, Client("c"))]
    ensures BreaksOf(tb, 10) == [] && tb.idle == map[]
  {
    hide Run, IsHistory, Reaches;
    steps, tb := Created(TERMS);
    assert Reaches(steps, tb, 0) && BreaksOf(tb, 10) == [];
    steps, tb := Requested(steps, tb, 0, 10, 0, Start, "a");
    assert "a"[0] != "b"[0] && "a"[0] != "c"[0] && "b"[0] != "c"[0];
    steps, tb := Requested(steps, tb, 0, 10, 0, Pause, "b");
    steps, tb := Requested(steps, tb, 0, 10, MINUTE, End, "c");
  }

  lemma MinuteWorked(tb: Tables)
    requires 10 in tb.shifts && tb.shifts[10] == Shift(TERMS, Completed, Some(0), Some(MINUTE), 3)
    requires BreaksOf(tb, 10) == [] && tb.idle == map[]
    ensures FreshRow(tb, 10).durations.worked == 60
  {
  }

  lemma PausedAllAlong(terms: Terms, log: seq<Event>)
    requires terms == TERMS && |log| == 3 && log[0].at == log[1].at
    requires log[0].kind == EvShiftStart && log[1].kind == EvPause
    ensures TimeIn(terms, log, Working) == 0
  {
    var a, b, c := log[0], log[1], log[2];
    assert log == [] + [a] + [b] + [c];
    assert TimeIn(terms, [] + [a], Working) == 0;
    assert Replay(terms, []) == Some(INITIAL);
    ReplayAppend(terms, [], a);
    ReplayAppend(terms, [] + [a], b);
    hide Replay, TimeIn;
    assert Replay(terms, [] + [a]) == Some(INITIAL.(state := Working, start := Some(a.at)));
    TimeInMore(terms, [] + [a], b, Working);
    TimeInMore(terms, [] + [a] + [b], c, Working);
  }

  /** Just after its scheduled start a shift is marked missed, although it could be started at that moment. */
  lemma MissedThoughStartable() returns (steps: seq<Step>, tb: Tables)
    ensures IsHistory(EMPTY, 0, steps) && tb == Run(EMPTY, steps) && ClockAfter(0, steps) <= 1
    ensures Serve(tb, 10, 1, Start, Some("a")).Ok?
    ensures var sweep := Step(1, RunSweep(MarkMissed({}), [10]));
            Possible(tb, sweep.cmd) && 10 in Exec(tb, sweep).shifts && Exec(tb, sweep).shifts[10].state.Missed?
  {
    steps, tb := Created(Terms(1, Some(0), None, EASY));
    assert DueAtZero(tb);
    assert Reachable(tb, 0) by { assert EMPTY == EmptyTables(map[]); }
    hide *;
    StartableAt(tb);
    MissedBySweep(tb);
  }

  /** Nothing but shift 10, scheduled to start at 0 and without a clock-in window. */
  ghost predicate DueAtZero(tb: Tables) {
    tb == EMPTY.(shifts := map[10 := Shift(Terms(1, Some(0), None, EASY), Available, None, None, 0)])
  }

  lemma StartableAt(tb: Tables)
    requires Reachable(tb, 0) && DueAtZero(tb)
    ensures Serve(tb, 10, 1, Start, Some("a")).Ok?
  {
    hide Reachable, Serve;
    AcceptedExactly(tb, 0, 10, 1, Start, Some("a"));
  }

  lemma MissedBySweep(tb: Tables)
    requires Reachable(tb, 0) && DueAtZero(tb)
    ensures var sweep := Step(1, RunSweep(MarkMissed({}), [10]));
            Possible(tb, sweep.cmd) && 10 in Exec(tb, sweep).shifts && Exec(tb, sweep).shifts[10].state.Missed?
  {
    var job := MarkMissed({});
    hide Reachable, Serve, Sweep;
    assert IsQuery(tb, job, [10]);
    assert 10 in AllDue(tb, 1, job);
    hide IsQuery, AllDue, SweptAttendance, SweptLog, FiredBreaks, BreaksOf, Fires;
    SweepIsComplete(tb, 0, 1, job, [10]);
  }

  // ---------- the daily run ----------

  /** A window of local day 1 that starts at 23:00 UTC of day 0. */
  const LATE_WINDOW := Terms(1, Some(DAY - 60 * MINUTE), Some(DAY + 420 * MINUTE), EASY)

  lemma PlannedOnce() returns (steps: seq<Step>, tb: Tables)
    ensures Reaches(steps, tb, 0) && steps == [Step(0, Daily(1, [Candidate(10, false, LATE_WINDOW)]))]
    ensures tb == EMPTY.(shifts := map[10 := Shift(LATE_WINDOW, Available, None, None, 0)])
  {
    var plan := [Candidate(10, false, LATE_WINDOW)];
    var a := Step(0, Daily(1, plan));
    HistoryGrows(EMPTY, 0, [], a);
    assert plan[..0] == [];
    assert EnsureDaily(EMPTY, 1, plan[..0]) == (EMPTY, 0);
    steps, tb := [] + [a], Exec(EMPTY, a);
  }

  /** The daily run of one day, repeated after the shift is over, creates the same window twice. */
  lemma WindowCreatedTwice() returns (steps: seq<Step>, tb: Tables)
    ensures IsHistory(EMPTY, 0, steps) && tb == Run(EMPTY, steps)
    ensures forall i :: 0 <= i < |steps| ==> steps[i].cmd.Daily? ==> steps[i].cmd.day == 1
    ensures forall i :: 0 <= i < |steps| ==> !steps[i].cmd.Create?
    ensures 10 in tb.shifts && 11 in tb.shifts && tb.shifts[10].terms == tb.shifts[11].terms == LATE_WINDOW
    ensures !OnePerDay(tb)
  {
    hide Run, IsHistory;
    steps, tb := PlannedOnce();
    assert BreaksOf(tb, 10) == [];
    steps, tb := Requested(steps, tb, 0, 10, DAY, Start, "a");
    assert "a"[0] != "b"[0];
    steps, tb := Requested(steps, tb, DAY, 10, DAY, ForceStop, "b");
    var c := Candidate(11, false, LATE_WINDOW);
    var again := Step(DAY, Daily(1, [c]));
    HistoryGrows(EMPTY, 0, steps, again);
    assert !HasActiveShift(tb, 1);
    DisagreeingDateIsRecreated(tb, 1, c, 10);
    DailyOfOne(tb, 1, c);
    hide HasActiveShift, HasShiftOn, OnePerDay, EnsureDaily, KeyUsed, BreaksOf;
    steps, tb := steps + [again], Exec(tb, again);
  }

  lemma DailyOfOne(tb: Tables, day: Date, c: Candidate)
    ensures EnsureDaily(tb, day, [c]) == EnsureOne(tb, day, c)
  {
    assert [c][..0] == [];
    assert EnsureDaily(tb, day, [c][..0]) == (tb, 0);
    hide EnsureOne;
  }
}
