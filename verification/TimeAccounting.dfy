/**
  Where the time of a shift goes: durations derived by backend/app/shifts/attendance.py against
  the breaks and the event log of a reachable shift.
*/
module TimeAccounting {
  import opened Common
  import opened Clock
  import opened ShiftModel
  import opened ShiftSteps
  import opened ShiftReplay
  import opened ShiftInvariant
  import opened ShiftHistory

  /** Exact length of all breaks by the time until, an open one counting up to it. */
  function BreakMicros(bs: seq<Break>, until: Time): int {
    if bs == [] then 0
    else
      var b := bs[|bs| - 1];
      BreakMicros(bs[..|bs| - 1], until) + (if b.endedAt.Some? then b.endedAt.value else until) - b.startedAt
  }

  lemma {:induction false} ClosedBreaksIgnoreClock(bs: seq<Break>, t: Time, u: Time)
    requires forall i :: 0 <= i < |bs| ==> bs[i].endedAt.Some?
    ensures BreakMicros(bs, t) == BreakMicros(bs, u)
  {
    if bs != [] { ClosedBreaksIgnoreClock(bs[..|bs| - 1], t, u); }
  }

  /** Tiled breaks together are never longer than the time they tile. */
  lemma {:induction false} TiledBreaksFit(bs: seq<Break>, start: Time, until: Time)
    requires Tiled(bs, start, until)
    ensures 0 <= BreakMicros(bs, until)
    ensures bs != [] ==> BreakMicros(bs, until) <= until - start
  {
    if bs != [] {
      var n := |bs| - 1;
      var rest, b := bs[..n], bs[n];
      assert Tiled(rest, start, b.startedAt);
      TiledBreaksFit(rest, start, b.startedAt);
      ClosedBreaksIgnoreClock(rest, b.startedAt, until);
    }
  }

  /** Truncating each closed break to whole seconds loses less than a second per break. */
  lemma {:induction false} BreakSecondsTruncate(bs: seq<Break>, start: Time, until: Time)
    requires Tiled(bs, start, until) && forall i :: 0 <= i < |bs| ==> bs[i].endedAt.Some?
    ensures 0 <= BreakSeconds(bs)
    ensures MICROS * BreakSeconds(bs) <= BreakMicros(bs, until) <= MICROS * BreakSeconds(bs) + |bs| * (MICROS - 1)
  {
    if bs != [] {
      var n := |bs| - 1;
      assert Tiled(bs[..n], start, until);
      BreakSecondsTruncate(bs[..n], start, until);
      TruncationLosesUnderOneSecond(bs[n].endedAt.value - bs[n].startedAt);
    }
  }

  lemma BreaksFitInSeconds(bs: seq<Break>, start: Time, end: Time)
    requires start <= end && Tiled(bs, start, end) && forall i :: 0 <= i < |bs| ==> bs[i].endedAt.Some?
    ensures 0 <= BreakSeconds(bs) <= WholeSeconds(end - start)
  {
    TiledBreaksFit(bs, start, end);
    BreakSecondsTruncate(bs, start, end);
    TruncationLosesUnderOneSecond(end - start);
  }

  lemma FinishedIsTiled(tb: Tables, now: Time, sid: ShiftId)
    requires Reachable(tb, now) && sid in tb.shifts && IsFinished(tb.shifts[sid].state)
    ensures var s, bs := tb.shifts[sid], BreaksOf(tb, sid);
            s.actualStart.Some? && s.actualEnd.Some? && s.actualStart.value <= s.actualEnd.value <= now &&
            Tiled(bs, s.actualStart.value, s.actualEnd.value) &&
            forall i :: 0 <= i < |bs| ==> bs[i].endedAt.Some?
  {
    ReachableInv(tb, now);
    RowsAreOk(tb, now, sid);
    BreaksAreTiled(tb, now, sid);
    hide Reachable, Inv, FlagsSound;
  }

  /**
    The attendance of a finished shift: breaks never exceed gross time, so the first clamp never
    fires, and what is neither break nor (counted) idle is work.
  */
  lemma FinishedTimeAddsUp(tb: Tables, now: Time, sid: ShiftId)
    requires Reachable(tb, now) && sid in tb.shifts && IsFinished(tb.shifts[sid].state)
    ensures tb.shifts[sid].actualStart.Some? && tb.shifts[sid].actualEnd.Some?
    ensures var s, d := tb.shifts[sid], FreshRow(tb, sid).durations;
            var gross := WholeSeconds(s.actualEnd.value - s.actualStart.value);
            0 <= d.breaks <= gross &&
            (s.terms.policy.idleIsWork || d.idle == 0 ==> d.worked + d.breaks == gross) &&
            (!s.terms.policy.idleIsWork ==> d.worked == Max(0, gross - d.breaks - d.idle))
  {
    FinishedIsTiled(tb, now, sid);
    var s := tb.shifts[sid];
    BreaksFitInSeconds(BreaksOf(tb, sid), s.actualStart.value, s.actualEnd.value);
    hide Reachable, BreakSeconds, IdleSeconds, WholeSeconds, BreaksOf, IdleOf;
  }

  // ---------- conservation of time over the log ----------

  /** Time a log spends in a state, between its first and its last event. */
  function TimeIn(terms: Terms, log: seq<Event>, state: State): int {
    var n := |log| - 1;
    if n <= 0 then 0
    else
      TimeIn(terms, log[..n], state) +
      match Replay(terms, log[..n])
      case None => 0
      case Some(v) => if v.state == state then log[n].at - log[n - 1].at else 0
  }

  lemma TimeInMore(terms: Terms, log: seq<Event>, e: Event, state: State)
    requires log != [] && Replay(terms, log).Some?
    ensures TimeIn(terms, log + [e], state) == TimeIn(terms, log, state) +
            if Replay(terms, log).value.state == state then e.at - log[|log| - 1].at else 0
  {
    assert (log + [e])[..|log|] == log;
  }

  lemma {:induction false} TimeIsConserved(terms: Terms, log: seq<Event>)
    requires log != [] && Replay(terms, log).Some?
    ensures TimeIn(terms, log, Working) + TimeIn(terms, log, Paused) + TimeIn(terms, log, OnBreak) ==
            log[|log| - 1].at - log[0].at
  {
    var n := |log| - 1;
    if n > 0 {
      TimeIsConserved(terms, log[..n]);
      FirstEventStarts(terms, log[..n]);
      assert log == log[..n] + [log[n]];
      if IsFinished(Replay(terms, log[..n]).value.state) {
        FinishedLogIsFinal(terms, log[..n], log[n]);
        assert false;
      }
      ReplayStates(terms, log[..n]);
    }
  }

  lemma {:induction false} ReplayStates(terms: Terms, log: seq<Event>)
    requires Replay(terms, log).Some?
    ensures var s := Replay(terms, log).value.state; s.Available? || Underway(s) || IsFinished(s)
  {
    if log != [] { ReplayStates(terms, log[..|log| - 1]); }
  }

  lemma BreakMicrosOfLast(bs: seq<Break>, b: Break, until: Time)
    ensures BreakMicros(bs + [b], until) ==
            BreakMicros(bs, until) + (if b.endedAt.Some? then b.endedAt.value else until) - b.startedAt
  {
    assert (bs + [b])[..|bs|] == bs;
  }

  lemma OpenBreakGrows(bs: seq<Break>, before: Time, t: Time)
    requires LastOpen(bs) && forall i :: 0 <= i < |bs| - 1 ==> bs[i].endedAt.Some?
    ensures BreakMicros(CloseLast(bs, t, true), t) == BreakMicros(bs, before) + t - before
    ensures BreakMicros(CloseLast(bs, t, false), t) == BreakMicros(bs, before) + t - before
  {
    var n := |bs| - 1;
    ClosedBreaksIgnoreClock(bs[..n], before, t);
    BreakMicrosOfLast(bs[..n], bs[n], t);
    BreakMicrosOfLast(bs[..n], Closed(bs[n], t, true), t);
    BreakMicrosOfLast(bs[..n], Closed(bs[n], t, false), t);
    assert bs == bs[..n] + [bs[n]];
  }

  lemma OnlyLastIsOpen(terms: Terms, v: View, now: Time)
    requires ViewOk(terms, v, now)
    ensures forall i :: 0 <= i < |v.breaks| - 1 ==> v.breaks[i].endedAt.Some?
    ensures LastOpen(v.breaks) ==> v.state.OnBreak?
    ensures !LastOpen(v.breaks) && v.breaks != [] ==> v.breaks[|v.breaks| - 1].endedAt.value <= now
  {
    hide EndsTooEarly, Due, FlagsSound;
    forall i | 0 <= i < |v.breaks| - 1 ensures v.breaks[i].endedAt.Some? {
      assert v.breaks[|v.breaks| - 1].startedAt >= v.start.value;
    }
  }

  /** How an event changes the breaks, by what the last break looked like before. */
  lemma BreaksAfterEvent(terms: Terms, v: View, e: Event)
    requires ReplayEvent(terms, v, e).Some? && (LastOpen(v.breaks) ==> v.state.OnBreak?)
    ensures var bs, bs' := v.breaks, ReplayEvent(terms, v, e).value.breaks;
            if LastOpen(bs) then bs' == CloseLast(bs, e.at, e.kind.EvBreakEnd?)
            else if e.kind.EvBreakStart?
            then bs' == bs + [Break(e.at, None, terms.policy.maxBreakSeconds, false)] && !v.state.OnBreak?
            else bs' == bs && (v.state.OnBreak? ==> bs != [] && bs[|bs| - 1].endedAt == Some(e.at))
  {
    hide CloseLast, EndsTooEarly, Due, TooEarly, TooLate;
  }

  lemma BreakMicrosAfterEvent(terms: Terms, v: View, e: Event, before: Time)
    requires ViewOk(terms, v, before) && before <= e.at && ReplayEvent(terms, v, e).Some?
    ensures BreakMicros(ReplayEvent(terms, v, e).value.breaks, e.at) ==
            BreakMicros(v.breaks, before) + (if v.state.OnBreak? then e.at - before else 0)
  {
    OnlyLastIsOpen(terms, v, before);
    BreaksAfterEvent(terms, v, e);
    hide ViewOk, ReplayEvent, BreakMicros, CloseLast;
    var bs := v.breaks;
    if LastOpen(bs) {
      OpenBreakGrows(bs, before, e.at);
    } else {
      assert forall i :: 0 <= i < |bs| ==> bs[i].endedAt.Some?;
      ClosedBreaksIgnoreClock(bs, before, e.at);
      BreakMicrosOfLast(bs, Break(e.at, None, terms.policy.maxBreakSeconds, false), e.at);
    }
  }

  lemma {:induction false} TimeOnBreakIsBreaks(terms: Terms, log: seq<Event>, now: Time)
    requires log != [] && Sorted(log, now) && Replay(terms, log).Some?
    ensures TimeIn(terms, log, OnBreak) == BreakMicros(Replay(terms, log).value.breaks, log[|log| - 1].at)
  {
    var n := |log| - 1;
    if n > 0 {
      var rest, before := log[..n], log[n - 1].at;
      assert log == rest + [log[n]] && rest[n - 1] == log[n - 1];
      assert Sorted(rest, before) && before <= log[n].at;
      hide Sorted, Replay, ReplayEvent, TimeIn, BreakMicros, ViewOk;
      ReplayAppend(terms, rest, log[n]);
      TimeInMore(terms, rest, log[n], OnBreak);
      TimeOnBreakIsBreaks(terms, rest, before);
      LegalLogIsOk(terms, rest, before);
      BreakMicrosAfterEvent(terms, Replay(terms, rest).value, log[n], before);
    } else {
      FirstEventStarts(terms, log);
      assert log[..0] == [];
    }
  }

  lemma {:induction false} LastEventEnds(terms: Terms, log: seq<Event>)
    requires Replay(terms, log).Some? && IsFinished(Replay(terms, log).value.state)
    ensures log != [] && Replay(terms, log).value.end == Some(log[|log| - 1].at)
  {
    var n := |log| - 1;
    if log != [] {
      assert log == log[..n] + [log[n]];
      if IsFinished(Replay(terms, log[..n]).value.state) {
        FinishedLogIsFinal(terms, log[..n], log[n]);
        assert false;
      }
    }
  }

  /** Working and paused time of a finished shift, and the seconds left of gross time after breaks. */
  lemma NetTime(tb: Tables, now: Time, sid: ShiftId)
    requires Reachable(tb, now) && sid in tb.shifts && IsFinished(tb.shifts[sid].state)
    ensures tb.shifts[sid].actualStart.Some? && tb.shifts[sid].actualEnd.Some?
    ensures var s, bs, log := tb.shifts[sid], BreaksOf(tb, sid), Log(tb.events, sid);
            var counted := TimeIn(s.terms, log, Working) + TimeIn(s.terms, log, Paused);
            var net := WholeSeconds(s.actualEnd.value - s.actualStart.value) - BreakSeconds(bs);
            -|bs| * (MICROS - 1) <= counted - MICROS * net <= MICROS - 1
  {
    var s, bs, log := tb.shifts[sid], BreaksOf(tb, sid), Log(tb.events, sid);
    LogRebuildsRows(tb, now, sid);
    LogIsChronological(tb, now, sid);
    LastEventEnds(s.terms, log);
    FirstEventStarts(s.terms, log);
    TimeIsConserved(s.terms, log);
    TimeOnBreakIsBreaks(s.terms, log, now);
    FinishedIsTiled(tb, now, sid);
    BreakSecondsTruncate(bs, s.actualStart.value, s.actualEnd.value);
    TruncationLosesUnderOneSecond(s.actualEnd.value - s.actualStart.value);
    hide Reachable, Replay, Log, TimeIn, Sorted, Tiled, WholeSeconds, BreakSeconds, BreakMicros;
  }

  /**
    Paused time counts as worked: for a finished shift the logged WORKING plus PAUSED time is, up to
    one second per truncation, a number of seconds from which worked time is obtained by subtracting
    recorded idle time (down to 0 at most), or nothing if idle counts as work. The design document
    (docs/04, section 5) counts WORKING time only.
  */
  lemma WorkedIsWorkingPlusPaused(tb: Tables, now: Time, sid: ShiftId)
    requires Reachable(tb, now) && sid in tb.shifts && IsFinished(tb.shifts[sid].state)
    ensures var terms, log := tb.shifts[sid].terms, Log(tb.events, sid);
            var counted := TimeIn(terms, log, Working) + TimeIn(terms, log, Paused);
            var d := FreshRow(tb, sid).durations;
            exists net: nat ::
              -|BreaksOf(tb, sid)| * (MICROS - 1) <= counted - MICROS * net <= MICROS - 1 &&
              d.worked == if terms.policy.idleIsWork then net else Max(0, net - d.idle)
  {
    NetTime(tb, now, sid);
    FinishedTimeAddsUp(tb, now, sid);
    var s, d := tb.shifts[sid], FreshRow(tb, sid).durations;
    assert d.breaks == BreakSeconds(BreaksOf(tb, sid));
    hide *;
    var net: nat := WholeSeconds(s.actualEnd.value - s.actualStart.value) - d.breaks;
    assert d.worked == if s.terms.policy.idleIsWork then net else Max(0, net - d.idle);
  }

  // ---------- when the documented rule holds ----------

  /** Every pause is over the moment it begins. */
  predicate NoPauseLasts(log: seq<Event>) {
    forall i :: 0 <= i < |log| - 1 && log[i].kind.EvPause? ==> log[i + 1].at == log[i].at
  }

  /** A legal log leaves the shift paused exactly when its last event is a pause. */
  lemma PausedAfterPause(terms: Terms, log: seq<Event>)
    requires log != [] && Replay(terms, log).Some?
    ensures Replay(terms, log).value.state.Paused? <==> log[|log| - 1].kind.EvPause?
  {
    var n := |log| - 1;
    var v, e := Replay(terms, log[..n]).value, log[n];
    assert ReplayEvent(terms, v, e) == Replay(terms, log);
    hide Replay, CloseLast, Due, TooEarly, TooLate, EndsTooEarly;
  }

  lemma NoPauseLastsMore(log: seq<Event>, e: Event)
    requires log != []
    ensures NoPauseLasts(log + [e]) <==>
            NoPauseLasts(log) && (log[|log| - 1].kind.EvPause? ==> e.at == log[|log| - 1].at)
  {
    var more := log + [e];
    assert forall i :: 0 <= i < |log| ==> more[i] == log[i];
    assert more[|log| - 1 + 1] == e;
  }

  lemma SortedPrefix(log: seq<Event>, now: Time)
    requires Sorted(log, now) && |log| > 1
    ensures Sorted(log[..|log| - 1], now) && log[|log| - 2].at <= log[|log| - 1].at
  {
  }

  /** No time is logged as paused exactly when no pause lasts. */
  lemma {:induction false} NoPausedTimeExactly(terms: Terms, log: seq<Event>, now: Time)
    requires log != [] && Sorted(log, now) && Replay(terms, log).Some?
    ensures TimeIn(terms, log, Paused) >= 0
    ensures TimeIn(terms, log, Paused) == 0 <==> NoPauseLasts(log)
  {
    var n := |log| - 1;
    if n > 0 {
      hide *;
      var rest := log[..n];
      assert log == rest + [log[n]] && rest[n - 1] == log[n - 1];
      SortedPrefix(log, now);
      ReplayAppend(terms, rest, log[n]);
      NoPausedTimeExactly(terms, rest, now);
      TimeInMore(terms, rest, log[n], Paused);
      PausedAfterPause(terms, rest);
      NoPauseLastsMore(rest, log[n]);
    }
  }

  /**
    The documented rule, that only WORKING intervals count, exactly when it holds: what is left of a
    finished shift after its breaks is its WORKING time if and only if none of its pauses lasted.
  */
  lemma OnlyWorkingCountsExactly(tb: Tables, now: Time, sid: ShiftId)
    requires Reachable(tb, now) && sid in tb.shifts && IsFinished(tb.shifts[sid].state)
    ensures tb.shifts[sid].actualStart.Some? && tb.shifts[sid].actualEnd.Some?
    ensures var s, log := tb.shifts[sid], Log(tb.events, sid);
            var end := s.actualEnd.value;
            end - s.actualStart.value - BreakMicros(BreaksOf(tb, sid), end) == TimeIn(s.terms, log, Working) <==>
            NoPauseLasts(log)
  {
    var s, log := tb.shifts[sid], Log(tb.events, sid);
    LogRebuildsRows(tb, now, sid);
    LogIsChronological(tb, now, sid);
    LastEventEnds(s.terms, log);
    FirstEventStarts(s.terms, log);
    TimeIsConserved(s.terms, log);
    TimeOnBreakIsBreaks(s.terms, log, now);
    NoPausedTimeExactly(s.terms, log, now);
    hide Reachable, Replay, Log, TimeIn, Sorted, BreakMicros, NoPauseLasts;
  }

  predicate InWholeSeconds(log: seq<Event>) {
    forall i :: 0 <= i < |log| ==> log[i].at % MICROS == 0
  }

  lemma FirstAndLastWhole(log: seq<Event>)
    requires InWholeSeconds(log) && log != []
    ensures MICROS * WholeSeconds(log[|log| - 1].at - log[0].at) == log[|log| - 1].at - log[0].at
  {
  }

  ghost predicate WholeBreaks(bs: seq<Break>) {
    forall i :: 0 <= i < |bs| ==>
      bs[i].startedAt % MICROS == 0 && (bs[i].endedAt.Some? ==> bs[i].endedAt.value % MICROS == 0)
  }

  /** Breaks take their times from the log. */
  lemma {:induction false} WholeLogWholeBreaks(terms: Terms, log: seq<Event>)
    requires Replay(terms, log).Some? && InWholeSeconds(log)
    ensures WholeBreaks(Replay(terms, log).value.breaks)
  {
    if log != [] {
      var n := |log| - 1;
      WholeLogWholeBreaks(terms, log[..n]);
      WholeEvent(terms, Replay(terms, log[..n]).value, log[n]);
    }
  }

  lemma WholeEvent(terms: Terms, v: View, e: Event)
    requires ReplayEvent(terms, v, e).Some? && WholeBreaks(v.breaks) && e.at % MICROS == 0
    ensures WholeBreaks(ReplayEvent(terms, v, e).value.breaks)
  {
    hide Due, TooEarly, TooLate, EndsTooEarly;
  }

  lemma {:induction false} WholeBreakSeconds(bs: seq<Break>, until: Time)
    requires WholeBreaks(bs) && forall i :: 0 <= i < |bs| ==> bs[i].endedAt.Some?
    ensures MICROS * BreakSeconds(bs) == BreakMicros(bs, until)
  {
    if bs != [] {
      WholeBreakSeconds(bs[..|bs| - 1], until);
    }
  }

  lemma WholeView(terms: Terms, log: seq<Event>, v: View)
    requires Replay(terms, log) == Some(v) && IsFinished(v.state) && InWholeSeconds(log)
    requires v.start.Some? && v.end.Some? && forall i :: 0 <= i < |v.breaks| ==> v.breaks[i].endedAt.Some?
    ensures MICROS * WholeSeconds(v.end.value - v.start.value) == v.end.value - v.start.value
    ensures MICROS * BreakSeconds(v.breaks) == BreakMicros(v.breaks, v.end.value)
  {
    FirstEventStarts(terms, log);
    LastEventEnds(terms, log);
    hide *;
    FirstAndLastWhole(log);
    WholeLogWholeBreaks(terms, log);
    WholeBreakSeconds(v.breaks, v.end.value);
  }

  lemma FinishedIsNotMarked(state: State)
    requires IsFinished(state)
    ensures !state.Missed? && !state.Cancelled?
  {
  }

  lemma WholeNet(tb: Tables, now: Time, sid: ShiftId)
    requires Reachable(tb, now) && sid in tb.shifts && IsFinished(tb.shifts[sid].state)
    requires InWholeSeconds(Log(tb.events, sid))
    ensures tb.shifts[sid].actualStart.Some? && tb.shifts[sid].actualEnd.Some?
    ensures var start, end := tb.shifts[sid].actualStart.value, tb.shifts[sid].actualEnd.value;
            MICROS * WholeSeconds(end - start) == end - start &&
            MICROS * BreakSeconds(BreaksOf(tb, sid)) == BreakMicros(BreaksOf(tb, sid), end)
  {
    hide *;
    var s := tb.shifts[sid];
    FinishedIsNotMarked(s.state);
    LogRebuildsRows(tb, now, sid);
    FinishedIsTiled(tb, now, sid);
    WholeView(s.terms, Log(tb.events, sid), View(s.state, s.actualStart, s.actualEnd, BreaksOf(tb, sid)));
  }

  /**
    For a shift whose events fall on whole seconds and whose idle time is not subtracted, the rule
    is one about the derived row: worked seconds are the WORKING time if and only if no pause lasted.
  */
  lemma WorkedIsWorkingExactly(tb: Tables, now: Time, sid: ShiftId)
    requires Reachable(tb, now) && sid in tb.shifts && IsFinished(tb.shifts[sid].state)
    requires InWholeSeconds(Log(tb.events, sid))
    requires tb.shifts[sid].terms.policy.idleIsWork || FreshRow(tb, sid).durations.idle == 0
    ensures var log, worked := Log(tb.events, sid), FreshRow(tb, sid).durations.worked;
            MICROS * worked == TimeIn(tb.shifts[sid].terms, log, Working) <==> NoPauseLasts(log)
  {
    assert FreshRow(tb, sid).durations.breaks == BreakSeconds(BreaksOf(tb, sid));
    hide *;
    OnlyWorkingCountsExactly(tb, now, sid);
    WholeNet(tb, now, sid);
    FinishedTimeAddsUp(tb, now, sid);
  }
}
