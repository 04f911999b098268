/** What holds of an organization's shift tables after every history. */
module ShiftHistory {
  import opened Common
  import opened Clock
  import opened ShiftModel
  import opened ShiftSteps
  import opened ShiftReplay
  import opened ShiftInvariant
  import opened ShiftSweeps

  lemma ExecKeeps(tb: Tables, now: Time, st: Step)
    requires Inv(tb, now) && now <= st.at && Possible(tb, st.cmd)
    ensures Inv(Exec(tb, st), st.at)
  {
    hide Inv, Serve, Sweep, CreateShift, EnsureDaily;
    InvLater(tb, now, st.at);
    match st.cmd
    case Create(sid, terms) =>
      if CreateShift(tb, sid, terms).Ok? { CreateKeeps(tb, sid, terms, st.at); }
    case Request(sid, a, eventId) =>
      if Serve(tb, sid, st.at, a, eventId).Ok? { ServeKeeps(tb, sid, now, st.at, a, eventId); }
    case Daily(day, plan) => EnsureDailyKeeps(tb, day, plan, st.at);
    case RunSweep(job, order) => SweepEffect(tb, now, st.at, job, order);
  }

  lemma {:induction false} RunKeeps(tb: Tables, now: Time, steps: seq<Step>)
    requires Inv(tb, now) && IsHistory(tb, now, steps)
    ensures Inv(Run(tb, steps), ClockAfter(now, steps))
  {
    if steps != [] {
      var n := |steps| - 1;
      RunKeeps(tb, now, steps[..n]);
      ExecKeeps(Run(tb, steps[..n]), ClockAfter(now, steps[..n]), steps[n]);
    }
  }

  lemma {:induction false} HistoryPrefix(tb: Tables, from: Time, steps: seq<Step>, i: nat)
    requires IsHistory(tb, from, steps) && i < |steps|
    ensures IsHistory(tb, from, steps[..i]) && ClockAfter(from, steps[..i]) <= steps[i].at
    ensures Possible(Run(tb, steps[..i]), steps[i].cmd)
    ensures Run(tb, steps[..i + 1]) == Exec(Run(tb, steps[..i]), steps[i])
  {
    var n := |steps| - 1;
    if i < n {
      HistoryPrefix(tb, from, steps[..n], i);
      assert steps[..n][..i] == steps[..i] && steps[..n][..i + 1] == steps[..i + 1];
    } else {
      assert steps[..i + 1] == steps;
    }
  }

  /** tb is what some history makes of an empty organization by the time now. */
  ghost predicate Reachable(tb: Tables, now: Time) {
    exists idle, from, steps ::
      IsHistory(EmptyTables(idle), from, steps) && ClockAfter(from, steps) <= now &&
      tb == Run(EmptyTables(idle), steps)
  }

  lemma ReachableInv(tb: Tables, now: Time)
    requires Reachable(tb, now)
    ensures Inv(tb, now)
  {
    var idle, from, steps :|
      IsHistory(EmptyTables(idle), from, steps) && ClockAfter(from, steps) <= now &&
      tb == Run(EmptyTables(idle), steps);
    RunKeeps(EmptyTables(idle), from, steps);
    InvLater(tb, ClockAfter(from, steps), now);
  }

  // ---------- the log, the rows and the version agree ----------

  /** Replaying a shift's events rebuilds its row and its breaks exactly. */
  lemma LogRebuildsRows(tb: Tables, now: Time, sid: ShiftId)
    requires Reachable(tb, now) && sid in tb.shifts
    ensures var s, log := tb.shifts[sid], Log(tb.events, sid);
            if s.state.Missed? || s.state.Cancelled?
            then log == [] && BreaksOf(tb, sid) == [] && s.actualStart.None? && s.actualEnd.None? && s.version == 1
            else Replay(s.terms, log) == Some(View(s.state, s.actualStart, s.actualEnd, BreaksOf(tb, sid))) &&
                 s.version == VersionSteps(log)
  {
    ReachableInv(tb, now);
    assert ShiftOk(tb, sid);
  }

  /** The order of a shift's events is the order of their times, and keys never repeat. */
  lemma LogIsChronological(tb: Tables, now: Time, sid: ShiftId)
    requires Reachable(tb, now)
    ensures Sorted(Log(tb.events, sid), now)
    ensures forall i, j :: 0 <= i < j < |tb.events| ==> tb.events[i].key != tb.events[j].key
  {
    ReachableInv(tb, now);
    LogSorted(tb.events, sid, now);
  }

  lemma RowsAreOk(tb: Tables, now: Time, sid: ShiftId)
    requires Inv(tb, now) && sid in tb.shifts
    requires !tb.shifts[sid].state.Missed? && !tb.shifts[sid].state.Cancelled?
    ensures var s := tb.shifts[sid];
            ViewOk(s.terms, View(s.state, s.actualStart, s.actualEnd, BreaksOf(tb, sid)), now)
    ensures tb.shifts[sid].state.OnBreak? ==> LastOpen(BreaksOf(tb, sid))
  {
    assert ShiftOk(tb, sid);
    LogSorted(tb.events, sid, now);
    LegalLogIsOk(tb.shifts[sid].terms, Log(tb.events, sid), now);
  }

  // ---------- break geometry ----------

  /** Breaks tile part of the shift; one is open exactly while the shift is on break. */
  ghost predicate WellTiled(s: Shift, bs: seq<Break>, now: Time) {
    (if s.actualStart.None? then bs == []
     else Tiled(bs, s.actualStart.value, if s.actualEnd.Some? then s.actualEnd.value else now)) &&
    (s.state.OnBreak? ==> bs != []) &&
    (forall i :: 0 <= i < |bs| ==> (bs[i].endedAt.None? <==> s.state.OnBreak? && i == |bs| - 1)) &&
    (!s.terms.policy.allowBreak ==> bs == []) &&
    (!s.terms.policy.allowMultipleBreaks ==> |bs| <= 1)
  }

  lemma OpenOnlyOnBreak(s: Shift, bs: seq<Break>, now: Time)
    requires ViewOk(s.terms, View(s.state, s.actualStart, s.actualEnd, bs), now)
    requires s.state.OnBreak? ==> LastOpen(bs)
    ensures WellTiled(s, bs, now)
  {
    hide EndsTooEarly, Due, FlagsSound;
    if bs != [] {
      var last := |bs| - 1;
      assert bs[last].endedAt.None? <==> s.state.OnBreak?;
      forall i | 0 <= i < last ensures bs[i].endedAt.Some? {
        assert bs[last].startedAt >= s.actualStart.value;
      }
    }
  }

  lemma BreaksAreTiled(tb: Tables, now: Time, sid: ShiftId)
    requires Reachable(tb, now) && sid in tb.shifts
    ensures WellTiled(tb.shifts[sid], BreaksOf(tb, sid), now)
  {
    ReachableInv(tb, now);
    LogRebuildsRows(tb, now, sid);
    hide Inv, Reachable, Replay, ViewOk;
    if !tb.shifts[sid].state.Missed? && !tb.shifts[sid].state.Cancelled? {
      RowsAreOk(tb, now, sid);
      OpenOnlyOnBreak(tb.shifts[sid], BreaksOf(tb, sid), now);
    }
  }

  // ---------- one active shift ----------

  /** The partial unique index on active shifts can never fire. */
  lemma OneActiveShiftPerEmployee(tb: Tables, now: Time, a: ShiftId, b: ShiftId)
    requires Reachable(tb, now) && a in tb.shifts && b in tb.shifts
    requires tb.shifts[a].terms.employee == tb.shifts[b].terms.employee
    requires IsActive(tb.shifts[a].state) && IsActive(tb.shifts[b].state)
    ensures a == b
  {
    ReachableInv(tb, now);
  }

  // ---------- terminal states and frozen terms ----------

  /** The shift's own records are the same in both tables. */
  ghost predicate SameRecords(tb: Tables, tb': Tables, sid: ShiftId) {
    sid in tb.shifts && sid in tb'.shifts && tb'.shifts[sid] == tb.shifts[sid] &&
    BreaksOf(tb', sid) == BreaksOf(tb, sid) && Log(tb'.events, sid) == Log(tb.events, sid)
  }

  lemma DecideOwnsItsEvents(x: ShiftId, s: Shift, bs: seq<Break>, t: Time, a: Action, eventId: Option<string>)
    requires Decide(x, s, bs, t, a, eventId).Ok?
    ensures var c := Decide(x, s, bs, t, a, eventId).value;
            (forall e :: e in c.log ==> e.shift == x) && c.shift.terms == s.terms
  {
  }

  /** A terminal shift accepts no action at all. */
  lemma TerminalRefuses(x: ShiftId, s: Shift, bs: seq<Break>, t: Time, a: Action, eventId: Option<string>)
    ensures IsTerminal(s.state) ==> Decide(x, s, bs, t, a, eventId) == Err(InvalidTransition)
  {
  }

  lemma ServeTouchesOneShift(tb: Tables, x: ShiftId, t: Time, a: Action, eventId: Option<string>, sid: ShiftId)
    requires sid in tb.shifts && Serve(tb, x, t, a, eventId).Ok?
    requires x == sid ==> IsTerminal(tb.shifts[sid].state)
    ensures SameRecords(tb, Serve(tb, x, t, a, eventId).value, sid)
  {
    hide Decide, DeriveRow, KeyUsed;
    if !IsReplay(tb, x, t, a, eventId) {
      DecideOwnsItsEvents(x, tb.shifts[x], BreaksOf(tb, x), t, a, eventId);
      TerminalRefuses(x, tb.shifts[x], BreaksOf(tb, x), t, a, eventId);
      var c := Decide(x, tb.shifts[x], BreaksOf(tb, x), t, a, eventId).value;
      LogConcat(tb.events, c.log, sid);
      LogOfOneShift(c.log, x, sid);
      assert Log(tb.events, sid) + [] == Log(tb.events, sid);
    }
  }

  lemma {:induction false} SweepTouchesItsRows(tb: Tables, t: Time, job: Job, order: seq<ShiftId>, sid: ShiftId)
    requires sid in tb.shifts && sid !in order && Sweep(tb, t, job, order).Ok?
    ensures SameRecords(tb, Sweep(tb, t, job, order).value.0, sid)
  {
    if order != [] {
      var x, rest := order[|order| - 1], order[..|order| - 1];
      SweepTouchesItsRows(tb, t, job, rest, sid);
      var tb1 := Sweep(tb, t, job, rest).value.0;
      if x in tb1.shifts && Due(job, tb1.shifts[x].terms, t) {
        match job
        case RunAutoStart => ServeTouchesOneShift(tb1, x, t, AutoStart, None, sid);
        case RunAutoEnd => ServeTouchesOneShift(tb1, x, t, AutoEnd, None, sid);
        case MarkMissed(_) =>
      }
    }
  }

  lemma {:induction false} DailyOnlyAdds(tb: Tables, day: Date, plan: seq<Candidate>, sid: ShiftId)
    requires sid in tb.shifts
    ensures SameRecords(tb, EnsureDaily(tb, day, plan).0, sid)
  {
    if plan != [] {
      DailyOnlyAdds(tb, day, plan[..|plan| - 1], sid);
    }
  }

  lemma ExecKeepsTerminal(tb: Tables, st: Step, sid: ShiftId)
    requires sid in tb.shifts && IsTerminal(tb.shifts[sid].state) && Possible(tb, st.cmd)
    ensures SameRecords(tb, Exec(tb, st), sid)
  {
    match st.cmd
    case Create(_, _) =>
    case Request(x, a, eventId) =>
      if Serve(tb, x, st.at, a, eventId).Ok? { ServeTouchesOneShift(tb, x, st.at, a, eventId, sid); }
    case Daily(day, plan) => DailyOnlyAdds(tb, day, plan, sid);
    case RunSweep(job, order) =>
      assert sid !in order;
      if Sweep(tb, st.at, job, order).Ok? { SweepTouchesItsRows(tb, st.at, job, order, sid); }
  }

  /** A terminal shift, its breaks and its log stay as they are through any later history. */
  lemma {:induction false} TerminalIsForever(tb: Tables, from: Time, steps: seq<Step>, sid: ShiftId)
    requires IsHistory(tb, from, steps)
    requires sid in tb.shifts
    requires tb.shifts[sid].state in {Completed, AutoCompleted, ForceStopped, Missed, Cancelled}
    ensures SameRecords(tb, Run(tb, steps), sid)
  {
    if steps != [] {
      var n := |steps| - 1;
      TerminalIsForever(tb, from, steps[..n], sid);
      ExecKeepsTerminal(Run(tb, steps[..n]), steps[n], sid);
    }
  }
}
