/**
  Which requests a reachable shift accepts and what each accepted one does to it, in the plain
  terms of the transition table (docs/04-shift-state-machine.md, section 3).
*/
module RequestTable {
  import opened Common
  import opened Clock
  import opened ShiftModel
  import opened ShiftSteps
  import opened ShiftReplay
  import opened ShiftInvariant
  import opened ShiftSweeps
  import opened ShiftHistory
  import opened AttendanceAgreement

  /** The clock-in window, in minutes around the scheduled start; a missing bound is open. */
  predicate InWindow(terms: Terms, t: Time) {
    terms.schedStart.Some? ==>
      (terms.policy.earliestMin.Some? ==> terms.schedStart.value - t <= terms.policy.earliestMin.value * 60_000_000) &&
      (terms.policy.latestMin.Some? ==> t - terms.schedStart.value <= terms.policy.latestMin.value * 60_000_000)
  }

  /** The guard column of the table. */
  predicate Permits(s: Shift, bs: seq<Break>, t: Time, a: Action) {
    var p := s.terms.policy;
    match a
    case Start => s.state.Available? && InWindow(s.terms, t)
    case AutoStart => s.state.Available?
    case StartBreak => s.state.Working? && p.allowBreak && (bs == [] || p.allowMultipleBreaks)
    case Pause => s.state.Working?
    case Resume => s.state.OnBreak? || s.state.Paused?
    case End => Underway(s.state) && (s.terms.schedEnd.None? || t >= s.terms.schedEnd.value || p.allowEarlyClockout)
    case AutoEnd | ForceStop => Underway(s.state)
  }

  /** Coming back from a break also needs its own key to be new. */
  predicate BreakEndClashes(tb: Tables, sid: ShiftId, t: Time, a: Action, eventId: Option<string>)
    requires sid in tb.shifts
  {
    a.Resume? && tb.shifts[sid].state.OnBreak? && KeyUsed(tb.events, BreakEndKey(sid, t, eventId))
  }

  lemma DecidesByTable(sid: ShiftId, s: Shift, bs: seq<Break>, t: Time, a: Action, eventId: Option<string>)
    requires !s.state.Scheduled?
    ensures Decide(sid, s, bs, t, a, eventId).Ok? <==> Permits(s, bs, t, a)
  {
    hide CloseFirstOpen;
  }

  lemma OnlyBreakEndCanClash(tb: Tables, sid: ShiftId, t: Time, a: Action, eventId: Option<string>)
    requires sid in tb.shifts && !IsReplay(tb, sid, t, a, eventId)
    ensures Transition(tb, sid, t, a, eventId).Ok? <==>
            Decide(sid, tb.shifts[sid], BreaksOf(tb, sid), t, a, eventId).Ok? &&
            !BreakEndClashes(tb, sid, t, a, eventId)
  {
    var d := Decide(sid, tb.shifts[sid], BreaksOf(tb, sid), t, a, eventId);
    if d.Ok? {
      var log := d.value.log;
      assert log[|log| - 1].key == EventKey(sid, KindOf(a), t, eventId);
      if a.Resume? && tb.shifts[sid].state.OnBreak? {
        assert log[0].key == BreakEndKey(sid, t, eventId) && |log| == 2;
      } else {
        assert |log| == 1;
      }
    }
    hide KeyUsed, CloseFirstOpen, BreaksOf, Decide;
  }

  /** A request whose event id is new is accepted exactly when the table permits it. */
  lemma AcceptedExactly(tb: Tables, now: Time, sid: ShiftId, t: Time, a: Action, eventId: Option<string>)
    requires Reachable(tb, now) && sid in tb.shifts && !IsReplay(tb, sid, t, a, eventId)
    ensures Serve(tb, sid, t, a, eventId).Ok? <==>
            Permits(tb.shifts[sid], BreaksOf(tb, sid), t, a) && !BreakEndClashes(tb, sid, t, a, eventId)
  {
    ReachableInv(tb, now);
    StartedWhenUnderway(tb, now, sid);
    DecidesByTable(sid, tb.shifts[sid], BreaksOf(tb, sid), t, a, eventId);
    OnlyBreakEndCanClash(tb, sid, t, a, eventId);
    hide Reachable, Inv, Decide, Permits, Transition, BreakEndClashes, IsReplay;
  }

  /** Everything the server answers without an error: replays, and what the table permits. */
  predicate IsAccepted(tb: Tables, sid: ShiftId, t: Time, a: Action, eventId: Option<string>) {
    sid in tb.shifts &&
    (IsReplay(tb, sid, t, a, eventId) ||
     (Permits(tb.shifts[sid], BreaksOf(tb, sid), t, a) && !BreakEndClashes(tb, sid, t, a, eventId)))
  }

  lemma ServedExactly(tb: Tables, now: Time, sid: ShiftId, t: Time, a: Action, eventId: Option<string>)
    requires Reachable(tb, now)
    ensures Serve(tb, sid, t, a, eventId).Ok? <==> IsAccepted(tb, sid, t, a, eventId)
  {
    if sid in tb.shifts && !IsReplay(tb, sid, t, a, eventId) { AcceptedExactly(tb, now, sid, t, a, eventId); }
    hide Reachable, Permits, BreakEndClashes, IsReplay, Decide;
  }

  /** The state column of the table. */
  function Target(a: Action): State {
    match a
    case Start | AutoStart | Resume => Working
    case StartBreak => OnBreak
    case Pause => Paused
    case End => Completed
    case AutoEnd => AutoCompleted
    case ForceStop => ForceStopped
  }

  /**
    An accepted request with a new id moves the shift to the table's state, stamps start or end
    with its own time, counts one version, logs one event of its kind (RESUME after BREAK_END when
    coming back from a break), and leaves every other shift alone.
  */
  lemma AcceptedOutcome(tb: Tables, sid: ShiftId, t: Time, a: Action, eventId: Option<string>)
    requires !IsReplay(tb, sid, t, a, eventId) && Serve(tb, sid, t, a, eventId).Ok?
    ensures var tb' := Serve(tb, sid, t, a, eventId).value;
            var s, s' := tb.shifts[sid], tb'.shifts[sid];
            var ev := Event(sid, KindOf(a), t, EventKey(sid, KindOf(a), t, eventId));
            s'.state == Target(a) && s'.version == s.version + 1 && s'.terms == s.terms &&
            s'.actualStart == (if a.Start? || a.AutoStart? then Some(t) else s.actualStart) &&
            s'.actualEnd == (if IsFinished(Target(a)) then Some(t) else s.actualEnd) &&
            tb'.events == tb.events + (if a.Resume? && s.state.OnBreak?
                                       then [Event(sid, EvBreakEnd, t, BreakEndKey(sid, t, eventId)), ev] else [ev]) &&
            tb'.shifts.Keys == tb.shifts.Keys &&
            forall x :: x in tb.shifts && x != sid ==>
              tb'.shifts[x] == tb.shifts[x] && BreaksOf(tb', x) == BreaksOf(tb, x)
  {
    hide KeyUsed, CloseFirstOpen, DeriveRow, WorkDate, EventKey, BreakEndKey, IsReplay;
  }

  // ---------- what becomes of the shift's breaks ----------

  /**
    The open last break ended at t and no other changed; it is flagged when it ran longer than the
    limit it is held to, if any.
  */
  ghost predicate BreakIsOver(bs: seq<Break>, bs': seq<Break>, t: Time, limit: Option<int>) {
    var n := |bs| - 1;
    |bs'| == |bs| && n >= 0 && (forall i :: 0 <= i < n ==> bs'[i] == bs[i]) &&
    bs'[n].startedAt == bs[n].startedAt && bs'[n].endedAt == Some(t) && bs'[n].maxSeconds == bs[n].maxSeconds &&
    (bs'[n].exceeded <==> limit.Some? && t - bs[n].startedAt > 1_000_000 * limit.value)
  }

  lemma OpenBreakEnds(terms: Terms, bs: seq<Break>, t: Time, flag: bool)
    requires LastOpen(bs) && FlagsSound(bs, terms.policy)
    ensures BreakIsOver(bs, CloseLast(bs, t, flag), t, if flag then terms.policy.maxBreakSeconds else None)
  {
  }

  lemma DecidedBreaks(sid: ShiftId, s: Shift, bs: seq<Break>, t: Time, a: Action, eventId: Option<string>)
    requires Decide(sid, s, bs, t, a, eventId).Ok? && (LastOpen(bs) <==> s.state.OnBreak?)
    requires CloseFirstOpen(bs, t, a.Resume?) == if LastOpen(bs) then CloseLast(bs, t, a.Resume?) else bs
    ensures s.state.OnBreak? ==> a.Resume? || IsFinished(Target(a))
    ensures Decide(sid, s, bs, t, a, eventId).value.breaks ==
            if a.StartBreak? then bs + [Break(t, None, s.terms.policy.maxBreakSeconds, false)]
            else if s.state.OnBreak? then CloseLast(bs, t, a.Resume?)
            else bs
  {
    hide CloseFirstOpen, CloseLast, LastOpen;
  }

  lemma ServedBreaks(tb: Tables, sid: ShiftId, t: Time, a: Action, eventId: Option<string>)
    requires !IsReplay(tb, sid, t, a, eventId) && Serve(tb, sid, t, a, eventId).Ok?
    ensures Decide(sid, tb.shifts[sid], BreaksOf(tb, sid), t, a, eventId).Ok?
    ensures BreaksOf(Serve(tb, sid, t, a, eventId).value, sid) ==
            Decide(sid, tb.shifts[sid], BreaksOf(tb, sid), t, a, eventId).value.breaks
  {
    hide KeyUsed, Decide, DeriveRow, WorkDate, IsReplay;
  }

  lemma OpenWhileOnBreak(tb: Tables, now: Time, sid: ShiftId)
    requires Inv(tb, now) && sid in tb.shifts
    ensures LastOpen(BreaksOf(tb, sid)) <==> tb.shifts[sid].state.OnBreak?
    ensures LastOpen(BreaksOf(tb, sid)) ==> FlagsSound(BreaksOf(tb, sid), tb.shifts[sid].terms.policy)
  {
    assert ShiftOk(tb, sid);
    if !tb.shifts[sid].state.Missed? && !tb.shifts[sid].state.Cancelled? { RowsAreOk(tb, now, sid); }
    hide Inv, FlagsSound;
  }

  /**
    Starting a break adds an open one; only resuming or ending gets a shift off its break, which
    closes that break and, when resuming, holds it to the policy's maximum; nothing else touches
    the shift's breaks.
  */
  lemma AcceptedBreaks(tb: Tables, now: Time, sid: ShiftId, t: Time, a: Action, eventId: Option<string>)
    requires Reachable(tb, now) && now <= t
    requires !IsReplay(tb, sid, t, a, eventId) && Serve(tb, sid, t, a, eventId).Ok?
    ensures tb.shifts[sid].state.OnBreak? ==> a.Resume? || IsFinished(Target(a))
    ensures var s, bs, bs' := tb.shifts[sid], BreaksOf(tb, sid), BreaksOf(Serve(tb, sid, t, a, eventId).value, sid);
            if a.StartBreak? then bs' == bs + [Break(t, None, s.terms.policy.maxBreakSeconds, false)]
            else if s.state.OnBreak?
            then BreakIsOver(bs, bs', t, if a.Resume? then s.terms.policy.maxBreakSeconds else None)
            else bs' == bs
  {
    ReachableInv(tb, now);
    OpenWhileOnBreak(tb, now, sid);
    CloseFirstOpenInTables(tb, sid, now, t, a.Resume?);
    ServedBreaks(tb, sid, t, a, eventId);
    hide *;
    var s, bs := tb.shifts[sid], BreaksOf(tb, sid);
    DecidedBreaks(sid, s, bs, t, a, eventId);
    if s.state.OnBreak? { OpenBreakEnds(s.terms, bs, t, a.Resume?); }
  }
}
