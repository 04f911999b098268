/**
  Which requests count as repeats. A client's event id is a repeat when the log has it; a key that
  the server makes holds shift, kind and time, so a request without an id is never mistaken for an
  earlier one. With the answers to refused requests.
*/
module RequestKeys {
  import opened Common
  import opened Clock
  import opened ShiftModel
  import opened ShiftSteps
  import opened ShiftReplay
  import opened ShiftInvariant
  import opened ShiftHistory
  import opened AttendanceAgreement
  import opened RequestTable

  /** No id, or an empty one, which counts as none. */
  predicate NoId(eventId: Option<string>) {
    eventId == None || eventId == Some("")
  }

  /** A client's id is a repeat exactly when some logged event of the organization carries it. */
  lemma ClientReplayExactly(tb: Tables, sid: ShiftId, t: Time, a: Action, id: string)
    requires id != ""
    ensures IsReplay(tb, sid, t, a, Some(id)) <==> exists e :: e in tb.events && e.key == Client(id)
  {
    if i :| 0 <= i < |tb.events| && tb.events[i].key == Client(id) { assert tb.events[i] in tb.events; }
    if e :| e in tb.events && e.key == Client(id) {
      var i :| 0 <= i < |tb.events| && tb.events[i] == e;
      assert tb.events[i].key == Client(id);
    }
  }

  /** Without an id a request repeats only an event of its own shift and kind, logged at that very moment. */
  lemma MadeKeyIsOfTheMoment(tb: Tables, now: Time, sid: ShiftId, kind: Kind, t: Time)
    requires Reachable(tb, now) && KeyUsed(tb.events, Made(sid, kind, t))
    ensures t <= now && exists e :: e in Log(tb.events, sid) && e.kind == kind && e.at == t
  {
    ReachableInv(tb, now);
    var i :| 0 <= i < |tb.events| && tb.events[i].key == Made(sid, kind, t);
    assert tb.events[i] in tb.events;
    LogMembers(tb.events, sid, tb.events[i]);
  }

  /** So at a later moment than anything so far it is new. */
  lemma LaterRequestIsNew(tb: Tables, now: Time, sid: ShiftId, t: Time, a: Action, eventId: Option<string>)
    requires Reachable(tb, now) && now < t && NoId(eventId)
    ensures !IsReplay(tb, sid, t, a, eventId)
    ensures sid in tb.shifts ==> !BreakEndClashes(tb, sid, t, a, eventId)
  {
    hide Reachable, Log, KeyUsed;
    if IsReplay(tb, sid, t, a, eventId) { MadeKeyIsOfTheMoment(tb, now, sid, KindOf(a), t); }
    if sid in tb.shifts && BreakEndClashes(tb, sid, t, a, eventId) {
      MadeKeyIsOfTheMoment(tb, now, sid, EvBreakEnd, t);
    }
  }

  /** A later request without an id is accepted exactly when the table permits it; it is never swallowed. */
  lemma PlainRequestExactly(tb: Tables, now: Time, sid: ShiftId, t: Time, a: Action, eventId: Option<string>)
    requires Reachable(tb, now) && now < t && NoId(eventId) && sid in tb.shifts
    ensures Serve(tb, sid, t, a, eventId).Ok? <==> Permits(tb.shifts[sid], BreaksOf(tb, sid), t, a)
    ensures Serve(tb, sid, t, a, eventId).Ok? ==>
              var tb' := Serve(tb, sid, t, a, eventId).value;
              tb'.shifts[sid].state == Target(a) && tb'.shifts[sid].version == tb.shifts[sid].version + 1
  {
    LaterRequestIsNew(tb, now, sid, t, a, eventId);
    hide *;
    AcceptedExactly(tb, now, sid, t, a, eventId);
    if Serve(tb, sid, t, a, eventId).Ok? { AcceptedOutcome(tb, sid, t, a, eventId); }
  }

  /** The keys under which an accepted request with a new id is logged. */
  lemma KeysLogged(tb: Tables, sid: ShiftId, t: Time, a: Action, eventId: Option<string>)
    requires !IsReplay(tb, sid, t, a, eventId) && Serve(tb, sid, t, a, eventId).Ok?
    ensures var es, es' := tb.events, Serve(tb, sid, t, a, eventId).value.events;
            var key, endKey :=
              if NoId(eventId) then Made(sid, KindOf(a), t) else Client(eventId.value),
              if NoId(eventId) then Made(sid, EvBreakEnd, t) else Client(eventId.value + ":be");
            if a.Resume? && tb.shifts[sid].state.OnBreak?
            then es' == es + [Event(sid, EvBreakEnd, t, endKey), Event(sid, EvResume, t, key)]
            else es' == es + [Event(sid, KindOf(a), t, key)]
  {
    AcceptedOutcome(tb, sid, t, a, eventId);
    assert eventId.Some? && eventId.value != "" ==> eventId.value + ":be" != "";
    hide Serve, IsReplay;
  }

  // ---------- refusals ----------

  /** The states an action may start from. */
  predicate ComesFrom(a: Action, state: State) {
    match a
    case Start | AutoStart => state.Available?
    case StartBreak | Pause => state.Working?
    case Resume => state.OnBreak? || state.Paused?
    case End | AutoEnd | ForceStop => state.Working? || state.OnBreak? || state.Paused?
  }

  /**
    How a request that is no repeat is refused: an unknown shift, a wrong state, a start outside the
    clock-in window, a break or an early end that the policy does not allow, or a break-end key that
    is taken, in this order.
  */
  lemma RefusedWith(tb: Tables, now: Time, sid: ShiftId, t: Time, a: Action, eventId: Option<string>)
    requires Reachable(tb, now) && !IsReplay(tb, sid, t, a, eventId) && Serve(tb, sid, t, a, eventId).Err?
    ensures Serve(tb, sid, t, a, eventId).error ==
            if sid !in tb.shifts then NotFound
            else if !ComesFrom(a, tb.shifts[sid].state) then InvalidTransition
            else if a.Start? then WindowNotOpen
            else if a.StartBreak? || a.End? then NotPermitted
            else Integrity
  {
    if sid in tb.shifts {
      ReachableInv(tb, now);
      StartedWhenUnderway(tb, now, sid);
      AcceptedExactly(tb, now, sid, t, a, eventId);
      var d := Decide(sid, tb.shifts[sid], BreaksOf(tb, sid), t, a, eventId);
      hide Reachable, Inv, KeyUsed, CloseFirstOpen, BreaksOf, BreakEndClashes;
      if d.Ok? {
        OnlyBreakEndCanClash(tb, sid, t, a, eventId);
        assert BreakEndClashes(tb, sid, t, a, eventId);
        ClashNeedsBreak(tb, sid, t, a, eventId);
      }
    }
  }

  lemma ClashNeedsBreak(tb: Tables, sid: ShiftId, t: Time, a: Action, eventId: Option<string>)
    requires sid in tb.shifts && BreakEndClashes(tb, sid, t, a, eventId)
    ensures a.Resume? && tb.shifts[sid].state.OnBreak?
  {
  }
}
