/**
  The event log read back as the history of one shift. A log is legal under the shift's frozen
  terms when every event was allowed at its moment; a legal log determines the shift's state,
  start, end and break rows, and everything a shift can look like follows from legality.
*/
module ShiftReplay {
  import opened Common
  import opened Clock
  import opened ShiftModel
  import opened ShiftSteps

  datatype View = View(state: State, start: Option<Time>, end: Option<Time>, breaks: seq<Break>)

  const INITIAL := View(Available, None, None, [])

  predicate LastOpen(bs: seq<Break>) {
    bs != [] && bs[|bs| - 1].endedAt.None?
  }

  function CloseLast(bs: seq<Break>, t: Time, flag: bool): seq<Break>
    requires bs != []
  {
    bs[..|bs| - 1] + [Closed(bs[|bs| - 1], t, flag)]
  }

  function ReplayEnd(v: View, t: Time, state: State): View {
    v.(state := state, end := Some(t), breaks := if LastOpen(v.breaks) then CloseLast(v.breaks, t, false) else v.breaks)
  }

  predicate Underway(s: State) {
    s.Working? || s.OnBreak? || s.Paused?
  }

  /** A shift that can be ended now: a break, if it is on one, is still open. */
  predicate CanEnd(v: View) {
    v.state.Working? || v.state.Paused? || (v.state.OnBreak? && LastOpen(v.breaks))
  }

  /** The effect of one event, or None when the terms did not allow it there. */
  function ReplayEvent(terms: Terms, v: View, e: Event): Option<View> {
    var p := terms.policy;
    match e.kind
    case EvShiftStart =>
      if v.state.Available? && !TooEarly(terms, e.at) && !TooLate(terms, e.at)
      then Some(v.(state := Working, start := Some(e.at))) else None
    case EvAutoStart =>
      if v.state.Available? && Due(RunAutoStart, terms, e.at)
      then Some(v.(state := Working, start := Some(e.at))) else None
    case EvBreakStart =>
      if v.state.Working? && p.allowBreak && (p.allowMultipleBreaks || v.breaks == [])
      then Some(v.(state := OnBreak, breaks := v.breaks + [Break(e.at, None, p.maxBreakSeconds, false)])) else None
    case EvBreakEnd =>
      if v.state.OnBreak? && LastOpen(v.breaks)
      then Some(v.(breaks := CloseLast(v.breaks, e.at, true))) else None
    case EvPause =>
      if v.state.Working? then Some(v.(state := Paused)) else None
    case EvResume =>
      if v.state.Paused? || (v.state.OnBreak? && v.breaks != [] && v.breaks[|v.breaks| - 1].endedAt == Some(e.at))
      then Some(v.(state := Working)) else None
    case EvShiftEnd =>
      if CanEnd(v) && !EndsTooEarly(terms, e.at)
      then Some(ReplayEnd(v, e.at, Completed)) else None
    case EvAutoEnd =>
      if CanEnd(v) && Due(RunAutoEnd, terms, e.at)
      then Some(ReplayEnd(v, e.at, AutoCompleted)) else None
    case EvForceStop =>
      if CanEnd(v) then Some(ReplayEnd(v, e.at, ForceStopped)) else None
  }

  function Replay(terms: Terms, log: seq<Event>): Option<View> {
    if log == [] then Some(INITIAL)
    else
      match Replay(terms, log[..|log| - 1])
      case None => None
      case Some(v) => ReplayEvent(terms, v, log[|log| - 1])
  }

  lemma ReplayAppend(terms: Terms, log: seq<Event>, e: Event)
    ensures Replay(terms, log + [e]) ==
            match Replay(terms, log) case None => None case Some(v) => ReplayEvent(terms, v, e)
  {
    assert (log + [e])[..|log|] == log;
  }

  ghost predicate Sorted(log: seq<Event>, now: Time) {
    (forall i, j :: 0 <= i < j < |log| ==> log[i].at <= log[j].at) &&
    (forall i :: 0 <= i < |log| ==> log[i].at <= now)
  }

  // ---------- what every legal log implies ----------

  /** Breaks follow one another inside [start, until], and only the last may be open. */
  ghost predicate Tiled(bs: seq<Break>, start: Time, until: Time) {
    (forall i :: 0 <= i < |bs| ==> start <= bs[i].startedAt <= until) &&
    (forall i :: 0 <= i < |bs| && bs[i].endedAt.Some? ==> bs[i].startedAt <= bs[i].endedAt.value <= until) &&
    (forall i, j :: 0 <= i < j < |bs| ==> bs[i].endedAt.Some? && bs[i].endedAt.value <= bs[j].startedAt)
  }

  /** exceeded is only ever set on a break that ran longer than the policy's maximum. */
  ghost predicate FlagsSound(bs: seq<Break>, policy: Policy) {
    forall i :: 0 <= i < |bs| ==>
      bs[i].maxSeconds == policy.maxBreakSeconds &&
      (bs[i].exceeded ==>
         bs[i].endedAt.Some? && policy.maxBreakSeconds.Some? &&
         bs[i].endedAt.value - bs[i].startedAt > MICROS * policy.maxBreakSeconds.value)
  }

  ghost predicate ViewOk(terms: Terms, v: View, now: Time) {
    (v.state.Available? || Underway(v.state) || IsFinished(v.state)) &&
    (v.start.None? <==> v.state.Available?) &&
    (v.end.Some? <==> IsFinished(v.state)) &&
    (v.start.None? ==> v.breaks == []) &&
    (v.start.Some? ==> v.start.value <= now) &&
    (v.end.Some? ==> v.start.Some? && v.start.value <= v.end.value <= now) &&
    (v.start.Some? ==> Tiled(v.breaks, v.start.value, if v.end.Some? then v.end.value else now)) &&
    (LastOpen(v.breaks) ==> v.state.OnBreak?) &&
    (!terms.policy.allowBreak ==> v.breaks == []) &&
    (!terms.policy.allowMultipleBreaks ==> |v.breaks| <= 1) &&
    FlagsSound(v.breaks, terms.policy) &&
    (v.state.Completed? ==> !EndsTooEarly(terms, v.end.value)) &&
    (v.state.AutoCompleted? ==> Due(RunAutoEnd, terms, v.end.value))
  }

  lemma TiledClose(bs: seq<Break>, start: Time, t: Time, flag: bool)
    requires LastOpen(bs) && Tiled(bs, start, t)
    ensures Tiled(CloseLast(bs, t, flag), start, t)
  {
  }

  lemma CloseLastOk(terms: Terms, v: View, t: Time, flag: bool)
    requires ViewOk(terms, v, t) && LastOpen(v.breaks)
    ensures Tiled(CloseLast(v.breaks, t, flag), v.start.value, t)
    ensures FlagsSound(CloseLast(v.breaks, t, flag), terms.policy)
    ensures !LastOpen(CloseLast(v.breaks, t, flag))
  {
    TiledClose(v.breaks, v.start.value, t, flag);
    var bs := CloseLast(v.breaks, t, flag);
    assert forall i :: 0 <= i < |bs| - 1 ==> bs[i] == v.breaks[i];
  }

  lemma OpenBreakOk(terms: Terms, v: View, t: Time)
    requires ViewOk(terms, v, t) && v.state.Working?
    ensures var bs := v.breaks + [Break(t, None, terms.policy.maxBreakSeconds, false)];
            Tiled(bs, v.start.value, t) && FlagsSound(bs, terms.policy)
  {
    var bs := v.breaks;
    assert bs != [] ==> bs[|bs| - 1].endedAt.Some?;
    assert forall i :: 0 <= i < |bs| ==> bs[i].endedAt.Some?;
  }

  lemma ReplayEndOk(terms: Terms, v: View, t: Time, state: State)
    requires ViewOk(terms, v, t) && Underway(v.state) && IsFinished(state)
    requires state.Completed? ==> !EndsTooEarly(terms, t)
    requires state.AutoCompleted? ==> Due(RunAutoEnd, terms, t)
    ensures ViewOk(terms, ReplayEnd(v, t, state), t)
  {
    if LastOpen(v.breaks) { CloseLastOk(terms, v, t, false); }
  }

  lemma ReplayEventOk(terms: Terms, v: View, e: Event)
    requires ViewOk(terms, v, e.at)
    requires ReplayEvent(terms, v, e).Some?
    ensures ViewOk(terms, ReplayEvent(terms, v, e).value, e.at)
  {
    match e.kind
    case EvShiftStart | EvAutoStart | EvPause | EvResume =>
    case EvBreakStart => OpenBreakOk(terms, v, e.at);
    case EvBreakEnd => CloseLastOk(terms, v, e.at, true);
    case EvShiftEnd => ReplayEndOk(terms, v, e.at, Completed);
    case EvAutoEnd => ReplayEndOk(terms, v, e.at, AutoCompleted);
    case EvForceStop => ReplayEndOk(terms, v, e.at, ForceStopped);
  }

  lemma ViewOkLater(terms: Terms, v: View, now: Time, later: Time)
    requires ViewOk(terms, v, now) && now <= later
    ensures ViewOk(terms, v, later)
  {
  }

  lemma {:induction false} LegalLogIsOk(terms: Terms, log: seq<Event>, now: Time)
    requires Sorted(log, now) && Replay(terms, log).Some?
    ensures ViewOk(terms, Replay(terms, log).value, now)
  {
    if log != [] {
      var n := |log| - 1;
      var before := if n == 0 then log[n].at else log[n - 1].at;
      LegalLogIsOk(terms, log[..n], before);
      ViewOkLater(terms, Replay(terms, log[..n]).value, before, log[n].at);
      ReplayEventOk(terms, Replay(terms, log[..n]).value, log[n]);
      ViewOkLater(terms, Replay(terms, log).value, log[n].at, now);
    }
  }

  /** A shift that has started owes its start to the first event of its log. */
  lemma {:induction false} FirstEventStarts(terms: Terms, log: seq<Event>)
    requires Replay(terms, log).Some?
    ensures var v := Replay(terms, log).value;
            log == [] <==> v.state.Available?
    ensures log != [] ==>
              Replay(terms, log).value.start == Some(log[0].at) &&
              ((log[0].kind.EvShiftStart? && !TooEarly(terms, log[0].at) && !TooLate(terms, log[0].at)) ||
               (log[0].kind.EvAutoStart? && Due(RunAutoStart, terms, log[0].at)))
  {
    if log != [] {
      FirstEventStarts(terms, log[..|log| - 1]);
    }
  }

  /** Nothing legal follows a closing event. */
  lemma FinishedLogIsFinal(terms: Terms, log: seq<Event>, e: Event)
    requires Replay(terms, log).Some? && IsFinished(Replay(terms, log).value.state)
    ensures Replay(terms, log + [e]).None?
  {
    ReplayAppend(terms, log, e);
  }
}
