/** When a break is marked as exceeded: only resuming from it does (backend/app/shifts/state_machine.py). */
module BreakFlags {
  import opened Common
  import opened Clock
  import opened ShiftModel
  import opened ShiftSteps
  import opened ShiftReplay
  import opened ShiftHistory

  /** How many breaks were ended by resuming. */
  function Resumed(log: seq<Event>): nat {
    if log == [] then 0 else Resumed(log[..|log| - 1]) + (if log[|log| - 1].kind.EvBreakEnd? then 1 else 0)
  }

  predicate Overlong(b: Break) {
    b.endedAt.Some? && b.maxSeconds.Some? && b.endedAt.value - b.startedAt > MICROS * b.maxSeconds.value
  }

  /** The first k breaks are flagged exactly when overlong; at most one more exists, unflagged. */
  ghost predicate FlagsBy(bs: seq<Break>, k: nat) {
    k <= |bs| <= k + 1 &&
    (forall i :: 0 <= i < k ==> bs[i].endedAt.Some? && (bs[i].exceeded <==> Overlong(bs[i]))) &&
    (forall i :: k <= i < |bs| ==> !bs[i].exceeded)
  }

  lemma {:induction false} FlagsFollowLog(terms: Terms, log: seq<Event>)
    requires Replay(terms, log).Some?
    ensures FlagsBy(Replay(terms, log).value.breaks, Resumed(log))
    ensures var v := Replay(terms, log).value;
            v.state.Working? || v.state.Paused? || v.state.Available? || (v.state.OnBreak? && !LastOpen(v.breaks)) ==>
              |v.breaks| == Resumed(log)
    ensures var v := Replay(terms, log).value; LastOpen(v.breaks) ==> |v.breaks| == Resumed(log) + 1
  {
    if log != [] {
      FlagsFollowLog(terms, log[..|log| - 1]);
      hide EndsTooEarly, Due, TooEarly, TooLate;
    }
  }

  /**
    Of a shift's breaks, those ended by resuming are marked exceeded exactly when they ran over the
    policy's maximum. A break cut short by the end of the shift never is, however long it ran.
  */
  lemma ExceededExactly(tb: Tables, now: Time, sid: ShiftId, i: nat)
    requires Reachable(tb, now) && sid in tb.shifts && i < |BreaksOf(tb, sid)|
    ensures BreaksOf(tb, sid)[i].exceeded <==> i < Resumed(Log(tb.events, sid)) && Overlong(BreaksOf(tb, sid)[i])
    ensures |BreaksOf(tb, sid)| <= Resumed(Log(tb.events, sid)) + 1
  {
    LogRebuildsRows(tb, now, sid);
    FlagsFollowLog(tb.shifts[sid].terms, Log(tb.events, sid));
    hide Reachable, Replay, Log, Resumed;
  }
}
