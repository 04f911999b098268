/**
  The invariant of an organization's shift tables: the mutable shift and break rows always
  equal the replay of the append-only event log, and no employee has two active shifts.
  Every operation keeps it, so every history does.
*/
module ShiftInvariant {
  import opened Common
  import opened Clock
  import opened ShiftModel
  import opened ShiftSteps
  import opened ShiftReplay

  /** Events that count as version steps: all but BREAK_END, which RESUME accompanies. */
  function VersionSteps(log: seq<Event>): nat {
    if log == [] then 0
    else VersionSteps(log[..|log| - 1]) + (if log[|log| - 1].kind.EvBreakEnd? then 0 else 1)
  }

  /** The rows of a shift agree with its log. */
  ghost predicate RowsMatchLog(s: Shift, bs: seq<Break>, log: seq<Event>) {
    !s.state.Scheduled? &&
    (s.state.OnBreak? ==> LastOpen(bs)) &&
    if s.state.Missed? || s.state.Cancelled?
    then log == [] && bs == [] && s.actualStart.None? && s.actualEnd.None? && s.version == 1
    else
      Replay(s.terms, log) == Some(View(s.state, s.actualStart, s.actualEnd, bs)) &&
      s.version == VersionSteps(log)
  }

  ghost predicate ShiftOk(tb: Tables, sid: ShiftId)
    requires sid in tb.shifts
  {
    RowsMatchLog(tb.shifts[sid], BreaksOf(tb, sid), Log(tb.events, sid))
  }

  ghost predicate EventsOk(tb: Tables, now: Time) {
    Sorted(tb.events, now) &&
    (forall i, j :: 0 <= i < j < |tb.events| ==> tb.events[i].key != tb.events[j].key) &&
    (forall e :: e in tb.events ==>
                   e.shift in tb.shifts &&
                   (e.key.Made? ==> e.key.shift == e.shift && e.key.kind == e.kind && e.key.at == e.at))
  }

  ghost predicate OneActiveEach(tb: Tables) {
    forall a, b ::
      a in tb.shifts && b in tb.shifts && a != b &&
      IsActive(tb.shifts[a].state) && IsActive(tb.shifts[b].state)
      ==> tb.shifts[a].terms.employee != tb.shifts[b].terms.employee
  }

  ghost predicate Inv(tb: Tables, now: Time) {
    tb.breaks.Keys <= tb.shifts.Keys &&
    EventsOk(tb, now) &&
    OneActiveEach(tb) &&
    forall sid :: sid in tb.shifts ==> ShiftOk(tb, sid)
  }

  // ---------- the log of one shift inside the table of all events ----------

  lemma {:induction false} LogConcat(es: seq<Event>, more: seq<Event>, sid: ShiftId)
    ensures Log(es + more, sid) == Log(es, sid) + Log(more, sid)
  {
    if more == [] {
      assert es + more == es;
    } else {
      var n := |more| - 1;
      var all := es + more;
      LogConcat(es, more[..n], sid);
      assert all[..|all| - 1] == es + more[..n] && all[|all| - 1] == more[n];
    }
  }

  lemma {:induction false} LogOfOneShift(es: seq<Event>, owner: ShiftId, sid: ShiftId)
    requires forall e :: e in es ==> e.shift == owner
    ensures Log(es, sid) == if sid == owner then es else []
  {
    if es != [] {
      LogOfOneShift(es[..|es| - 1], owner, sid);
      assert es[|es| - 1] in es;
    }
  }

  lemma {:induction false} LogMembers(es: seq<Event>, sid: ShiftId, e: Event)
    ensures e in Log(es, sid) <==> e in es && e.shift == sid
  {
    if es != [] {
      var n := |es| - 1;
      LogMembers(es[..n], sid, e);
      assert es == es[..n] + [es[n]];
    }
  }

  lemma {:induction false} LogSorted(es: seq<Event>, sid: ShiftId, now: Time)
    requires Sorted(es, now)
    ensures Sorted(Log(es, sid), now)
  {
    if es != [] {
      var n := |es| - 1;
      LogSorted(es[..n], sid, es[n].at);
    }
  }

  lemma {:induction false} NoEventsNoLog(es: seq<Event>, sid: ShiftId)
    requires forall e :: e in es ==> e.shift != sid
    ensures Log(es, sid) == []
  {
    if es != [] {
      NoEventsNoLog(es[..|es| - 1], sid);
      assert es[|es| - 1] in es;
    }
  }

  // ---------- one shift ----------

  lemma {:induction false} OnlyLastCanBeOpen(bs: seq<Break>, t: Time, flag: bool)
    requires forall i :: 0 <= i < |bs| - 1 ==> bs[i].endedAt.Some?
    ensures CloseFirstOpen(bs, t, flag) == if LastOpen(bs) then CloseLast(bs, t, flag) else bs
  {
    if bs != [] && bs[0].endedAt.Some? {
      OnlyLastCanBeOpen(bs[1..], t, flag);
    }
  }

  lemma AppendedEventMatches(s: Shift, log: seq<Event>, v: View, e: Event, s': Shift, bs': seq<Break>)
    requires Replay(s.terms, log) == Some(v) && s'.terms == s.terms
    requires ReplayEvent(s.terms, v, e) == Some(View(s'.state, s'.actualStart, s'.actualEnd, bs'))
    requires s'.version == VersionSteps(log) + (if e.kind.EvBreakEnd? then 0 else 1)
    requires s'.state.OnBreak? ==> LastOpen(bs')
    requires !s'.state.Scheduled? && !s'.state.Missed? && !s'.state.Cancelled?
    ensures RowsMatchLog(s', bs', log + [e])
  {
    ReplayAppend(s.terms, log, e);
    assert (log + [e])[..|log|] == log;
  }

  /** Coming back from a break appends BREAK_END and then RESUME. */
  lemma BackFromBreakMatches(s: Shift, bs: seq<Break>, log: seq<Event>, t: Time, be: Event, ev: Event)
    requires RowsMatchLog(s, bs, log) && s.state.OnBreak?
    requires be.kind.EvBreakEnd? && ev.kind.EvResume? && be.at == ev.at == t
    ensures RowsMatchLog(Bump(s, Working), CloseLast(bs, t, true), log + [be, ev])
  {
    var v := View(OnBreak, s.actualStart, s.actualEnd, CloseLast(bs, t, true));
    ReplayAppend(s.terms, log, be);
    assert (log + [be])[..|log|] == log;
    AppendedEventMatches(s, log + [be], v, ev, Bump(s, Working), v.breaks);
    assert log + [be, ev] == log + [be] + [ev];
  }

  lemma CloseFirstOpenInRows(s: Shift, bs: seq<Break>, log: seq<Event>, t: Time, flag: bool)
    requires RowsMatchLog(s, bs, log) && Sorted(log, t)
    ensures CloseFirstOpen(bs, t, flag) == if LastOpen(bs) then CloseLast(bs, t, flag) else bs
  {
    if bs != [] { LegalLogIsOk(s.terms, log, t); }
    OnlyLastCanBeOpen(bs, t, flag);
  }

  ghost predicate ChangeMatches(s: Shift, log: seq<Event>, c: Change) {
    RowsMatchLog(c.shift, c.breaks, log + c.log) && c.shift.terms == s.terms
  }

  lemma StartKeeps(sid: ShiftId, s: Shift, bs: seq<Break>, log: seq<Event>, t: Time, a: Action, eventId: Option<string>)
    requires RowsMatchLog(s, bs, log) && (a.Start? || a.AutoStart?)
    requires a.AutoStart? ==> Due(RunAutoStart, s.terms, t)
    requires Decide(sid, s, bs, t, a, eventId).Ok?
    ensures ChangeMatches(s, log, Decide(sid, s, bs, t, a, eventId).value)
  {
    var c := Decide(sid, s, bs, t, a, eventId).value;
    AppendedEventMatches(s, log, View(s.state, s.actualStart, s.actualEnd, bs), c.log[0], c.shift, bs);
  }

  lemma PauseKeeps(sid: ShiftId, s: Shift, bs: seq<Break>, log: seq<Event>, t: Time, a: Action, eventId: Option<string>)
    requires RowsMatchLog(s, bs, log) && (a.StartBreak? || a.Pause?)
    requires Decide(sid, s, bs, t, a, eventId).Ok?
    ensures ChangeMatches(s, log, Decide(sid, s, bs, t, a, eventId).value)
  {
    var c := Decide(sid, s, bs, t, a, eventId).value;
    AppendedEventMatches(s, log, View(s.state, s.actualStart, s.actualEnd, bs), c.log[0], c.shift, c.breaks);
  }

  lemma ResumeKeeps(sid: ShiftId, s: Shift, bs: seq<Break>, log: seq<Event>, t: Time, eventId: Option<string>)
    requires RowsMatchLog(s, bs, log) && Sorted(log, t)
    requires Decide(sid, s, bs, t, Resume, eventId).Ok?
    ensures ChangeMatches(s, log, Decide(sid, s, bs, t, Resume, eventId).value)
  {
    var c := Decide(sid, s, bs, t, Resume, eventId).value;
    if s.state.OnBreak? {
      CloseFirstOpenInRows(s, bs, log, t, true);
      BackFromBreakMatches(s, bs, log, t, c.log[0], c.log[1]);
    } else {
      AppendedEventMatches(s, log, View(s.state, s.actualStart, s.actualEnd, bs), c.log[0], c.shift, bs);
    }
  }

  predicate IsEnd(a: Action) {
    a.End? || a.AutoEnd? || a.ForceStop?
  }

  lemma EndDecision(sid: ShiftId, s: Shift, bs: seq<Break>, t: Time, a: Action, eventId: Option<string>)
    requires IsEnd(a) && Decide(sid, s, bs, t, a, eventId).Ok?
    ensures var c := Decide(sid, s, bs, t, a, eventId).value;
            Underway(s.state) && (a.End? ==> !EndsTooEarly(s.terms, t)) && IsFinished(EndState(a)) &&
            c.shift == s.(actualEnd := Some(t), state := EndState(a), version := s.version + 1) &&
            c.breaks == CloseFirstOpen(bs, t, false) &&
            c.log == [Event(sid, KindOf(a), t, EventKey(sid, KindOf(a), t, eventId))]
  {
  }

  lemma EndReplays(terms: Terms, v: View, e: Event, a: Action)
    requires IsEnd(a) && e.kind == KindOf(a) && Underway(v.state) && (v.state.OnBreak? ==> LastOpen(v.breaks))
    requires a.End? ==> !EndsTooEarly(terms, e.at)
    requires a.AutoEnd? ==> Due(RunAutoEnd, terms, e.at)
    ensures ReplayEvent(terms, v, e) == Some(ReplayEnd(v, e.at, EndState(a)))
    ensures !KindOf(a).EvBreakEnd?
  {
  }

  lemma EndKeeps(sid: ShiftId, s: Shift, bs: seq<Break>, log: seq<Event>, t: Time, a: Action, eventId: Option<string>)
    requires RowsMatchLog(s, bs, log) && Sorted(log, t) && IsEnd(a)
    requires a.AutoEnd? ==> Due(RunAutoEnd, s.terms, t)
    requires Decide(sid, s, bs, t, a, eventId).Ok?
    ensures ChangeMatches(s, log, Decide(sid, s, bs, t, a, eventId).value)
  {
    hide Decide, Replay, VersionSteps, CloseFirstOpen, CloseLast, LastOpen, Sorted, EndsTooEarly, Due, EventKey;
    hide EndState, IsEnd, KindOf, ReplayEvent;
    EndDecision(sid, s, bs, t, a, eventId);
    CloseFirstOpenInRows(s, bs, log, t, false);
    var c, v := Decide(sid, s, bs, t, a, eventId).value, View(s.state, s.actualStart, s.actualEnd, bs);
    EndReplays(s.terms, v, c.log[0], a);
    AppendedEventMatches(s, log, v, c.log[0], c.shift, c.breaks);
  }

  /** An accepted transition keeps rows and log in agreement. */
  lemma DecideKeeps(
    sid: ShiftId, s: Shift, bs: seq<Break>, log: seq<Event>, t: Time, a: Action, eventId: Option<string>)
    requires RowsMatchLog(s, bs, log) && Sorted(log, t)
    requires a.AutoStart? ==> Due(RunAutoStart, s.terms, t)
    requires a.AutoEnd? ==> Due(RunAutoEnd, s.terms, t)
    requires Decide(sid, s, bs, t, a, eventId).Ok?
    ensures ChangeMatches(s, log, Decide(sid, s, bs, t, a, eventId).value)
  {
    match a
    case Start | AutoStart => StartKeeps(sid, s, bs, log, t, a, eventId);
    case StartBreak | Pause => PauseKeeps(sid, s, bs, log, t, a, eventId);
    case Resume => ResumeKeeps(sid, s, bs, log, t, eventId);
    case End | AutoEnd | ForceStop => EndKeeps(sid, s, bs, log, t, a, eventId);
  }

  // ---------- one operation on the tables ----------

  /** What an accepted transition appends: new events of this shift, at this moment. */
  ghost predicate Appends(tb: Tables, sid: ShiftId, t: Time, log: seq<Event>) {
    (|log| == 1 || (|log| == 2 && log[0].key != log[1].key)) &&
    (forall e :: e in log ==>
                   e.shift == sid && e.at == t && !KeyUsed(tb.events, e.key) &&
                   (e.key.Made? ==> e.key.shift == sid && e.key.kind == e.kind && e.key.at == t))
  }

  lemma WriteKeepsEvents(tb: Tables, sid: ShiftId, now: Time, t: Time, c: Change)
    requires EventsOk(tb, now) && now <= t && sid in tb.shifts
    requires Appends(tb, sid, t, c.log)
    ensures EventsOk(Write(tb, sid, c), t)
  {
    var es := tb.events + c.log;
    forall i, j | 0 <= i < j < |es| ensures es[i].key != es[j].key {
      if i < |tb.events| <= j {
        assert c.log[j - |tb.events|] in c.log;
      }
    }
    forall e | e in es
      ensures e.shift in Write(tb, sid, c).shifts
      ensures e.key.Made? ==> e.key.shift == e.shift && e.key.kind == e.kind && e.key.at == e.at
    {
      assert e in tb.events || e in c.log;
    }
  }

  lemma DecideAppends(tb: Tables, sid: ShiftId, s: Shift, bs: seq<Break>, t: Time, a: Action, eventId: Option<string>)
    requires Decide(sid, s, bs, t, a, eventId).Ok?
    requires forall i :: 0 <= i < |Decide(sid, s, bs, t, a, eventId).value.log| ==>
               !KeyUsed(tb.events, Decide(sid, s, bs, t, a, eventId).value.log[i].key)
    ensures Appends(tb, sid, t, Decide(sid, s, bs, t, a, eventId).value.log)
  {
    if eventId.Some? { assert |eventId.value + ":be"| == |eventId.value| + 3; }
  }

  lemma WriteKeepsShifts(tb: Tables, sid: ShiftId, c: Change, other: ShiftId)
    requires sid in tb.shifts && other in tb.shifts && ShiftOk(tb, other)
    requires forall e :: e in c.log ==> e.shift == sid
    requires ChangeMatches(tb.shifts[sid], Log(tb.events, sid), c)
    ensures ShiftOk(Write(tb, sid, c), other)
  {
    LogConcat(tb.events, c.log, other);
    LogOfOneShift(c.log, sid, other);
    assert Log(tb.events, other) + [] == Log(tb.events, other);
  }

  lemma WriteKeepsActive(tb: Tables, sid: ShiftId, c: Change)
    requires OneActiveEach(tb) && sid in tb.shifts && c.shift.terms == tb.shifts[sid].terms
    requires IsActive(c.shift.state) ==> IsActive(tb.shifts[sid].state)
    ensures OneActiveEach(Write(tb, sid, c))
  {
    hide IsActive;
  }

  lemma MatchingChangeKeepsTerms(s: Shift, log: seq<Event>, c: Change)
    requires ChangeMatches(s, log, c)
    ensures c.shift.terms == s.terms
  {
  }

  lemma AppendsOwnEvents(tb: Tables, sid: ShiftId, t: Time, log: seq<Event>)
    requires Appends(tb, sid, t, log)
    ensures forall e :: e in log ==> e.shift == sid
  {
  }

  lemma WriteKeeps(tb: Tables, sid: ShiftId, now: Time, t: Time, c: Change)
    requires Inv(tb, now) && now <= t && sid in tb.shifts
    requires Appends(tb, sid, t, c.log)
    requires ChangeMatches(tb.shifts[sid], Log(tb.events, sid), c)
    requires IsActive(c.shift.state) ==> IsActive(tb.shifts[sid].state)
    ensures Inv(Write(tb, sid, c), t)
  {
    hide EventsOk, OneActiveEach, ShiftOk, Appends, ChangeMatches, Log, BreaksOf, IsActive;
    MatchingChangeKeepsTerms(tb.shifts[sid], Log(tb.events, sid), c);
    AppendsOwnEvents(tb, sid, t, c.log);
    WriteKeepsActive(tb, sid, c);
    WriteKeepsEvents(tb, sid, now, t, c);
    forall other | other in tb.shifts ensures ShiftOk(Write(tb, sid, c), other) {
      WriteKeepsShifts(tb, sid, c, other);
    }
  }

  lemma DecideNeedsActive(
    sid: ShiftId, s: Shift, bs: seq<Break>, log: seq<Event>, t: Time, a: Action, eventId: Option<string>)
    requires RowsMatchLog(s, bs, log) && Decide(sid, s, bs, t, a, eventId).Ok?
    ensures IsActive(s.state)
  {
    hide Replay, VersionSteps, CloseFirstOpen;
  }

  lemma RowsAndLog(tb: Tables, now: Time, sid: ShiftId)
    requires Inv(tb, now) && sid in tb.shifts
    ensures RowsMatchLog(tb.shifts[sid], BreaksOf(tb, sid), Log(tb.events, sid)) && Sorted(tb.events, now)
  {
    assert ShiftOk(tb, sid);
  }

  lemma TransitionKeeps(tb: Tables, sid: ShiftId, now: Time, t: Time, a: Action, eventId: Option<string>)
    requires Inv(tb, now) && now <= t && sid in tb.shifts
    requires a.AutoStart? ==> Due(RunAutoStart, tb.shifts[sid].terms, t)
    requires a.AutoEnd? ==> Due(RunAutoEnd, tb.shifts[sid].terms, t)
    requires Transition(tb, sid, t, a, eventId).Ok?
    ensures Inv(Transition(tb, sid, t, a, eventId).value, t)
  {
    if !IsReplay(tb, sid, t, a, eventId) {
      hide Inv, RowsMatchLog, BreaksOf, Log, Sorted, KeyUsed, ChangeMatches, Appends, IsActive;
      var s, bs, log := tb.shifts[sid], BreaksOf(tb, sid), Log(tb.events, sid);
      RowsAndLog(tb, now, sid);
      LogSorted(tb.events, sid, now);
      DecideKeeps(sid, s, bs, log, t, a, eventId);
      DecideAppends(tb, sid, s, bs, t, a, eventId);
      DecideNeedsActive(sid, s, bs, log, t, a, eventId);
      hide Decide;
      WriteKeeps(tb, sid, now, t, Decide(sid, s, bs, t, a, eventId).value);
    }
  }

  lemma DeriveKeeps(tb: Tables, sid: ShiftId, now: Time, t: Time)
    requires Inv(tb, now) && sid in tb.shifts
    ensures Inv(Derive(tb, sid, t), now)
  {
    var tb' := Derive(tb, sid, t);
    forall other | other in tb'.shifts ensures ShiftOk(tb', other) {
      assert ShiftOk(tb, other);
    }
  }

  lemma ServeKeeps(tb: Tables, sid: ShiftId, now: Time, t: Time, a: Action, eventId: Option<string>)
    requires Inv(tb, now) && now <= t
    requires sid in tb.shifts && a.AutoStart? ==> Due(RunAutoStart, tb.shifts[sid].terms, t)
    requires sid in tb.shifts && a.AutoEnd? ==> Due(RunAutoEnd, tb.shifts[sid].terms, t)
    requires Serve(tb, sid, t, a, eventId).Ok?
    ensures Inv(Serve(tb, sid, t, a, eventId).value, t)
  {
    TransitionKeeps(tb, sid, now, t, a, eventId);
    DeriveKeeps(Transition(tb, sid, t, a, eventId).value, sid, t, t);
  }

  lemma CreateKeeps(tb: Tables, sid: ShiftId, terms: Terms, now: Time)
    requires Inv(tb, now) && CreateShift(tb, sid, terms).Ok?
    ensures Inv(CreateShift(tb, sid, terms).value, now)
  {
    var tb' := CreateShift(tb, sid, terms).value;
    forall other | other in tb'.shifts ensures ShiftOk(tb', other) {
      if other == sid {
        NoEventsNoLog(tb.events, sid);
      } else {
        assert ShiftOk(tb, other);
      }
    }
  }

  lemma {:induction false} EnsureDailyKeeps(tb: Tables, day: Date, plan: seq<Candidate>, now: Time)
    requires Inv(tb, now)
    ensures Inv(EnsureDaily(tb, day, plan).0, now)
  {
    if plan != [] {
      var n := |plan| - 1;
      EnsureDailyKeeps(tb, day, plan[..n], now);
      var tb' := EnsureDaily(tb, day, plan[..n]).0;
      if CreateShift(tb', plan[n].sid, plan[n].terms).Ok? {
        CreateKeeps(tb', plan[n].sid, plan[n].terms, now);
      }
    }
  }

  lemma MissedRowsMatch(s: Shift, bs: seq<Break>, log: seq<Event>, state: State)
    requires RowsMatchLog(s, bs, log) && s.state.Available? && (state.Missed? || state.Cancelled?)
    ensures RowsMatchLog(Bump(s, state), bs, log)
  {
    FirstEventStarts(s.terms, log);
  }

  lemma EventsStay(tb: Tables, tb': Tables, now: Time, t: Time)
    requires EventsOk(tb, now) && now <= t && tb'.events == tb.events && tb'.shifts.Keys == tb.shifts.Keys
    ensures EventsOk(tb', t)
  {
  }

  lemma MarkKeeps(tb: Tables, sid: ShiftId, now: Time, t: Time, state: State)
    requires Inv(tb, now) && now <= t && sid in tb.shifts && tb.shifts[sid].state.Available?
    requires state.Missed? || state.Cancelled?
    ensures Inv(tb.(shifts := tb.shifts[sid := Bump(tb.shifts[sid], state)]), t)
  {
    var s := tb.shifts[sid];
    var tb1 := tb.(shifts := tb.shifts[sid := Bump(s, state)]);
    assert ShiftOk(tb, sid);
    MissedRowsMatch(s, BreaksOf(tb, sid), Log(tb.events, sid), state);
    EventsStay(tb, tb1, now, t);
    hide RowsMatchLog, EventsOk, Log;
    forall other | other in tb1.shifts ensures ShiftOk(tb1, other) {
      assert ShiftOk(tb, other);
    }
  }

  lemma MissKeeps(tb: Tables, sid: ShiftId, now: Time, t: Time, job: Job)
    requires Inv(tb, now) && now <= t && sid in tb.shifts && job.MarkMissed?
    requires Selects(job, tb.shifts[sid].state) && Due(job, tb.shifts[sid].terms, t)
    ensures Fire(tb, sid, t, job).Ok? && Inv(Fire(tb, sid, t, job).value, t)
  {
    assert ShiftOk(tb, sid);
    hide Inv, Serve, FreshRow, RowKey;
    var s := tb.shifts[sid];
    var state := MissedState(job, s.terms);
    MarkKeeps(tb, sid, now, t, state);
    DeriveKeeps(tb.(shifts := tb.shifts[sid := Bump(s, state)]), sid, t, t);
  }

  lemma FireServes(tb: Tables, sid: ShiftId, now: Time, t: Time, job: Job, a: Action)
    requires Inv(tb, now) && sid in tb.shifts && Selects(job, tb.shifts[sid].state)
    requires (job.RunAutoStart? && a.AutoStart?) || (job.RunAutoEnd? && a.AutoEnd?)
    ensures Serve(tb, sid, t, a, None).Ok?
  {
    NoMadeKeyYet(tb, sid, now, t, a);
    hide Inv, KeyUsed, CloseFirstOpen, BreaksOf, DeriveRow;
  }

  /** Firing a due, selected row never fails and keeps the invariant. */
  lemma FireKeeps(tb: Tables, sid: ShiftId, now: Time, t: Time, job: Job)
    requires Inv(tb, now) && now <= t && sid in tb.shifts
    requires Selects(job, tb.shifts[sid].state) && Due(job, tb.shifts[sid].terms, t)
    ensures Fire(tb, sid, t, job).Ok? && Inv(Fire(tb, sid, t, job).value, t)
  {
    hide Inv, Serve;
    match job
    case MarkMissed(_) => MissKeeps(tb, sid, now, t, job);
    case RunAutoStart =>
      FireServes(tb, sid, now, t, job, AutoStart);
      ServeKeeps(tb, sid, now, t, AutoStart, None);
    case RunAutoEnd =>
      FireServes(tb, sid, now, t, job, AutoEnd);
      ServeKeeps(tb, sid, now, t, AutoEnd, None);
  }

  lemma {:induction false} AutoEndFinishes(terms: Terms, log: seq<Event>, e: Event)
    requires Replay(terms, log).Some? && e in log && e.kind.EvAutoEnd?
    ensures IsFinished(Replay(terms, log).value.state)
  {
    var n := |log| - 1;
    var before := log[..n];
    assert log == before + [log[n]];
    if e in before {
      AutoEndFinishes(terms, before, e);
      FinishedLogIsFinal(terms, before, log[n]);
    } else {
      assert e == log[n];
    }
  }

  /** A server-made key on record belongs to an event of its own shift and kind. */
  lemma MadeKeyIsLogged(tb: Tables, now: Time, sid: ShiftId, kind: Kind, t: Time) returns (e: Event)
    requires EventsOk(tb, now) && KeyUsed(tb.events, Made(sid, kind, t))
    ensures e in Log(tb.events, sid) && e.kind == kind
  {
    var i :| 0 <= i < |tb.events| && tb.events[i].key == Made(sid, kind, t);
    e := tb.events[i];
    assert e in tb.events;
    LogMembers(tb.events, sid, e);
  }

  /** An available shift has no start on record, an unfinished one no automatic end. */
  lemma KindNotLogged(s: Shift, bs: seq<Break>, log: seq<Event>, a: Action, e: Event)
    requires RowsMatchLog(s, bs, log) && e in log
    requires (a.AutoStart? && s.state.Available?) || (a.AutoEnd? && Underway(s.state))
    ensures e.kind != KindOf(a)
  {
    FirstEventStarts(s.terms, log);
    if a.AutoEnd? && e.kind.EvAutoEnd? { AutoEndFinishes(s.terms, log, e); }
  }

  lemma NoMadeKeyYet(tb: Tables, sid: ShiftId, now: Time, t: Time, a: Action)
    requires Inv(tb, now) && sid in tb.shifts
    requires (a.AutoStart? && tb.shifts[sid].state.Available?) || (a.AutoEnd? && Underway(tb.shifts[sid].state))
    ensures !IsReplay(tb, sid, t, a, None)
  {
    assert ShiftOk(tb, sid);
    hide Inv, EventsOk, RowsMatchLog, KeyUsed, Log;
    if IsReplay(tb, sid, t, a, None) {
      var e := MadeKeyIsLogged(tb, now, sid, KindOf(a), t);
      KindNotLogged(tb.shifts[sid], BreaksOf(tb, sid), Log(tb.events, sid), a, e);
    }
  }
}
