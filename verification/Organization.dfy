/**
  The shift engine as it runs: an object whose tables the operations of state_machine.py,
  attendance.py, service.py and scheduler.py (all under backend/app/shifts) update in place.
  Every operation is tied to the table functions of ShiftSteps and keeps the invariants.
*/
module Organization {
  import opened Common
  import opened Clock
  import opened ShiftModel
  import opened ShiftSteps
  import opened ShiftReplay
  import opened ShiftInvariant
  import opened ShiftSweeps
  import opened ShiftSweepLaws
  import opened AttendanceAgreement

  /** after and error are what the table function prescribes; an error leaves the tables alone. */
  ghost predicate Outcome(before: Tables, spec: Result<Tables, Error>, after: Tables, error: Option<Error>) {
    match spec
    case Ok(tb) => error == None && after == tb
    case Err(e) => error == Some(e) && after == before
  }

  lemma {:induction false} CloseFirstOpenAt(bs: seq<Break>, i: nat, t: Time, flag: bool)
    requires i <= |bs| && (forall j :: 0 <= j < i ==> bs[j].endedAt.Some?)
    requires i < |bs| ==> bs[i].endedAt.None?
    ensures CloseFirstOpen(bs, t, flag) == if i < |bs| then bs[i := Closed(bs[i], t, flag)] else bs
  {
    if i > 0 { CloseFirstOpenAt(bs[1..], i - 1, t, flag); }
  }

  class Organization {
    var shifts: map<ShiftId, Shift>
    var breaks: map<ShiftId, seq<Break>>
    var events: seq<Event>
    var attendance: map<(EmployeeId, Date), Row>
    const idle: map<ShiftId, seq<Interval>>
    ghost var clock: Time

    ghost function Snapshot(): Tables
      reads this
    {
      Tables(shifts, breaks, events, attendance, idle)
    }

    /** The rows agree with the log, one shift is active per employee, attendance is sound. */
    ghost predicate Valid()
      reads this
    {
      Inv(Snapshot(), clock) && AttendanceOk(Snapshot())
    }

    constructor (idle: map<ShiftId, seq<Interval>>, ghost start: Time)
      ensures Valid() && Snapshot() == EmptyTables(idle) && clock == start
    {
      this.idle := idle;
      shifts, breaks, events, attendance := map[], map[], [], map[];
      clock := start;
    }

    // ---------- state_machine.py ----------

    method ExistingEvent(key: Key) returns (found: bool)
      ensures found <==> KeyUsed(events, key)
    {
      for i := 0 to |events|
        invariant !KeyUsed(events[..i], key)
      {
        if events[i].key == key { return true; }
      }
      assert events[..|events|] == events;
      return false;
    }

    method RecordEvent(sid: ShiftId, kind: Kind, t: Time, key: Key)
      modifies this`events
      ensures events == old(events) + [Event(sid, kind, t, key)]
    {
      events := events + [Event(sid, kind, t, key)];
    }

    /** The rows of a shift with its first open break, if any, closed at t. */
    method CloseOpenBreak(sid: ShiftId, t: Time, flag: bool)
      modifies this`breaks
      ensures breaks == old(breaks)[sid := CloseFirstOpen(BreaksOf(old(Snapshot()), sid), t, flag)]
    {
      var rows := if sid in breaks then breaks[sid] else [];
      var i := 0;
      while i < |rows| && rows[i].endedAt.Some?
        invariant 0 <= i <= |rows|
        invariant forall j :: 0 <= j < i ==> rows[j].endedAt.Some?
      {
        i := i + 1;
      }
      CloseFirstOpenAt(rows, i, t, flag);
      if i < |rows| {
        var b := rows[i].(endedAt := Some(t));
        if flag && b.maxSeconds.Some? && t - b.startedAt > MICROS * b.maxSeconds.value {
          b := b.(exceeded := true);
        }
        rows := rows[i := b];
      }
      breaks := breaks[sid := rows];
    }

    method Start(sid: ShiftId, t: Time, eventId: Option<string>, auto: bool) returns (error: Option<Error>)
      requires sid in shifts
      modifies this`shifts, this`breaks, this`events
      ensures sid in shifts
      ensures var action := if auto then AutoStart else Action.Start;
              Outcome(old(Snapshot()), Transition(old(Snapshot()), sid, t, action, eventId), Snapshot(), error)
    {
      hide KeyUsed, EventKey;
      var kind := if auto then EvAutoStart else EvShiftStart;
      var key := EventKey(sid, kind, t, eventId);
      var dup := ExistingEvent(key);
      if dup { return None; }
      var s := shifts[sid];
      if IsTerminal(s.state) { return Some(InvalidTransition); }
      if !s.state.Scheduled? && !s.state.Available? { return Some(InvalidTransition); }
      var policy := s.terms.policy;
      if !auto && s.terms.schedStart.Some? {
        if policy.earliestMin.Some? && t < s.terms.schedStart.value - MINUTE * policy.earliestMin.value {
          return Some(WindowNotOpen);
        }
        if policy.latestMin.Some? && t > s.terms.schedStart.value + MINUTE * policy.latestMin.value {
          return Some(WindowNotOpen);
        }
      }
      shifts := shifts[sid := s.(actualStart := Some(t), state := Working, version := s.version + 1)];
      breaks := breaks[sid := if sid in breaks then breaks[sid] else []];
      RecordEvent(sid, kind, t, key);
      return None;
    }

    method Pause(sid: ShiftId, t: Time, eventId: Option<string>, isBreak: bool) returns (error: Option<Error>)
      requires sid in shifts
      modifies this`shifts, this`breaks, this`events
      ensures sid in shifts
      ensures var action := if isBreak then StartBreak else Action.Pause;
              Outcome(old(Snapshot()), Transition(old(Snapshot()), sid, t, action, eventId), Snapshot(), error)
    {
      var kind := if isBreak then EvBreakStart else EvPause;
      var key := EventKey(sid, kind, t, eventId);
      var dup := ExistingEvent(key);
      if dup { return None; }
      var s := shifts[sid];
      if !s.state.Working? { return Some(InvalidTransition); }
      var policy := s.terms.policy;
      var rows := if sid in breaks then breaks[sid] else [];
      if isBreak {
        if !policy.allowBreak { return Some(NotPermitted); }
        if !policy.allowMultipleBreaks && |rows| > 0 { return Some(NotPermitted); }
        breaks := breaks[sid := rows + [Break(t, None, policy.maxBreakSeconds, false)]];
        shifts := shifts[sid := s.(state := OnBreak, version := s.version + 1)];
      } else {
        breaks := breaks[sid := rows];
        shifts := shifts[sid := s.(state := Paused, version := s.version + 1)];
      }
      RecordEvent(sid, kind, t, key);
      return None;
    }

    method Resume(sid: ShiftId, t: Time, eventId: Option<string>) returns (error: Option<Error>)
      requires sid in shifts
      modifies this`shifts, this`breaks, this`events
      ensures sid in shifts
      ensures Outcome(old(Snapshot()), Transition(old(Snapshot()), sid, t, Action.Resume, eventId), Snapshot(), error)
    {
      var key := EventKey(sid, EvResume, t, eventId);
      var dup := ExistingEvent(key);
      if dup { return None; }
      var s := shifts[sid];
      if s.state.OnBreak? {
        var endKey := BreakEndKey(sid, t, eventId);
        var clash := ExistingEvent(endKey);
        if clash {
          assert KeyUsed(events, [Event(sid, EvBreakEnd, t, endKey), Event(sid, EvResume, t, key)][0].key);
          return Some(Integrity);
        }
        CloseOpenBreak(sid, t, true);
        RecordEvent(sid, EvBreakEnd, t, endKey);
      } else if s.state.Paused? {
        breaks := breaks[sid := if sid in breaks then breaks[sid] else []];
      } else {
        return Some(InvalidTransition);
      }
      shifts := shifts[sid := s.(state := Working, version := s.version + 1)];
      RecordEvent(sid, EvResume, t, key);
      assert events == old(events) + if s.state.OnBreak?
        then [Event(sid, EvBreakEnd, t, BreakEndKey(sid, t, eventId)), Event(sid, EvResume, t, key)]
        else [Event(sid, EvResume, t, key)];
      return None;
    }

    method End(sid: ShiftId, t: Time, eventId: Option<string>, auto: bool, forced: bool) returns (error: Option<Error>)
      requires sid in shifts
      modifies this`shifts, this`breaks, this`events
      ensures sid in shifts
      ensures var action := if forced then ForceStop else if auto then AutoEnd else Action.End;
              Outcome(old(Snapshot()), Transition(old(Snapshot()), sid, t, action, eventId), Snapshot(), error)
    {
      hide KeyUsed, CloseFirstOpen, EventKey;
      var kind, target := EvShiftEnd, Completed;
      if forced {
        kind, target := EvForceStop, ForceStopped;
      } else if auto {
        kind, target := EvAutoEnd, AutoCompleted;
      }
      var key := EventKey(sid, kind, t, eventId);
      var dup := ExistingEvent(key);
      if dup { return None; }
      var s := shifts[sid];
      if !IsActive(s.state) || s.state.Available? { return Some(InvalidTransition); }
      if !auto && !forced && s.terms.schedEnd.Some? {
        if t < s.terms.schedEnd.value && !s.terms.policy.allowEarlyClockout { return Some(NotPermitted); }
      }
      CloseOpenBreak(sid, t, false);
      shifts := shifts[sid := s.(actualEnd := Some(t), state := target, version := s.version + 1)];
      RecordEvent(sid, kind, t, key);
      return None;
    }

    // ---------- attendance.py ----------

    method SumBreaks(sid: ShiftId) returns (total: int)
      ensures total == BreakSeconds(BreaksOf(Snapshot(), sid))
    {
      var rows := if sid in breaks then breaks[sid] else [];
      total := 0;
      for i := 0 to |rows|
        invariant total == BreakSeconds(rows[..i])
      {
        assert rows[..i + 1][..i] == rows[..i];
        if rows[i].endedAt.Some? {
          total := total + WholeSeconds(rows[i].endedAt.value - rows[i].startedAt);
        }
      }
      assert rows[..|rows|] == rows;
    }

    method SumIdle(sid: ShiftId) returns (total: int)
      ensures total == IdleSeconds(IdleOf(Snapshot(), sid))
    {
      var intervals := if sid in idle then idle[sid] else [];
      total := 0;
      for i := 0 to |intervals|
        invariant total == IdleSeconds(intervals[..i])
      {
        assert intervals[..i + 1][..i] == intervals[..i];
        total := total + WholeSeconds(intervals[i].end - intervals[i].start);
      }
      assert intervals[..|intervals|] == intervals;
    }

    method DeriveForShift(sid: ShiftId, t: Time)
      requires sid in shifts
      modifies this`attendance
      ensures Snapshot() == Derive(old(Snapshot()), sid, t)
    {
      var breakSeconds := SumBreaks(sid);
      var idleSeconds := SumIdle(sid);
      var s := shifts[sid];
      var durations := ComputeDurations(s, breakSeconds, idleSeconds);
      var status := DeriveStatus(s, durations);
      var row := Row(sid, status, s.terms.schedStart, s.terms.schedEnd, s.actualStart, s.actualEnd, durations);
      attendance := attendance[(s.terms.employee, WorkDate(s, t)) := row];
    }

    // ---------- service.py ----------

    method HasActive(employee: EmployeeId) returns (found: bool)
      ensures found <==> HasActiveShift(Snapshot(), employee)
    {
      var rest := shifts.Keys;
      while rest != {}
        invariant rest <= shifts.Keys
        invariant forall sid ::
          (sid in shifts && shifts[sid].terms.employee == employee && IsActive(shifts[sid].state)) ==> sid in rest
      {
        var sid :| sid in rest;
        if shifts[sid].terms.employee == employee && IsActive(shifts[sid].state) { return true; }
        rest := rest - {sid};
      }
      return false;
    }

    method CreateShiftForDay(sid: ShiftId, terms: Terms) returns (error: Option<Error>)
      requires Valid()
      modifies this`shifts
      ensures Valid()
      ensures Outcome(old(Snapshot()), CreateShift(old(Snapshot()), sid, terms), Snapshot(), error)
    {
      hide Inv, AttendanceOk;
      var active := HasActive(terms.employee);
      if active { return Some(AlreadyActive); }
      if sid in shifts { return Some(Integrity); }
      CreateKeeps(Snapshot(), sid, terms, clock);
      CreateKeepsAttendance(Snapshot(), sid, terms);
      shifts := shifts[sid := Shift(terms, Available, None, None, 0)];
      return None;
    }

    /** One router request: the transition, then the shift's attendance row. */
    method Handle(sid: ShiftId, t: Time, action: Action, eventId: Option<string>) returns (error: Option<Error>)
      requires Valid() && clock <= t && !action.AutoStart? && !action.AutoEnd?
      modifies this
      ensures Valid() && clock == t
      ensures Outcome(old(Snapshot()), Serve(old(Snapshot()), sid, t, action, eventId), Snapshot(), error)
    {
      hide Inv, AttendanceOk, Transition;
      InvLater(Snapshot(), clock, t);
      ghost var before, time := Snapshot(), clock;
      clock := t;
      if sid !in shifts { return Some(NotFound); }
      match action {
        case Start => error := Start(sid, t, eventId, false);
        case StartBreak => error := Pause(sid, t, eventId, true);
        case Pause => error := Pause(sid, t, eventId, false);
        case Resume => error := Resume(sid, t, eventId);
        case End => error := End(sid, t, eventId, false, false);
        case ForceStop => error := End(sid, t, eventId, false, true);
      }
      if error == None {
        DeriveForShift(sid, t);
        ServeKeeps(before, sid, time, t, action, eventId);
        ServeServesOne(before, time, sid, t, action, eventId);
        ServedKeepsAttendance(before, Snapshot(), sid, t);
      }
    }

    // ---------- scheduler.py ----------

    method HasShift(employee: EmployeeId, day: Date) returns (found: bool)
      ensures found <==> HasShiftOn(Snapshot(), employee, day)
    {
      var rest := shifts.Keys;
      while rest != {}
        invariant rest <= shifts.Keys
        invariant forall sid ::
          (sid in shifts && shifts[sid].terms.employee == employee && shifts[sid].terms.schedStart.Some? &&
           DateOf(shifts[sid].terms.schedStart.value) == day) ==> sid in rest
      {
        var sid :| sid in rest;
        var terms := shifts[sid].terms;
        if terms.employee == employee && terms.schedStart.Some? && DateOf(terms.schedStart.value) == day {
          return true;
        }
        rest := rest - {sid};
      }
      return false;
    }

    /** One employee of the daily run: at most one new shift, and none without a window. */
    method EnsureShift(day: Date, c: Candidate) returns (created: nat)
      requires Valid()
      modifies this`shifts
      ensures Valid()
      ensures (Snapshot(), created) == EnsureOne(old(Snapshot()), day, c)
    {
      hide Inv, AttendanceOk, HasShiftOn;
      if c.suppressed { return 0; }
      var present := HasShift(c.terms.employee, day);
      if present { return 0; }
      var error := CreateShiftForDay(c.sid, c.terms);
      if error != None { return 0; }
      if c.terms.schedStart.None? {
        shifts := shifts - {c.sid};
        assert shifts == old(shifts);
        return 0;
      }
      return 1;
    }

    method EnsureDailyShifts(day: Date, plan: seq<Candidate>) returns (created: nat)
      requires Valid()
      modifies this`shifts
      ensures Valid()
      ensures (Snapshot(), created) == EnsureDaily(old(Snapshot()), day, plan)
    {
      hide EnsureOne, Valid;
      created := 0;
      for i := 0 to |plan|
        invariant Valid()
        invariant (Snapshot(), created) == EnsureDaily(old(Snapshot()), day, plan[..i])
      {
        assert plan[..i + 1][..i] == plan[..i];
        var one := EnsureShift(day, plan[i]);
        created := created + one;
      }
      assert plan[..|plan|] == plan;
    }

    /** The ids a sweep's query returns, in some order. */
    method Select(job: Job) returns (order: seq<ShiftId>)
      ensures IsQuery(Snapshot(), job, order)
    {
      order := [];
      var rest := shifts.Keys;
      while rest != {}
        invariant rest <= shifts.Keys
        invariant forall i, j :: 0 <= i < j < |order| ==> order[i] != order[j]
        invariant forall sid :: sid in order <==> sid in shifts && sid !in rest && Selects(job, shifts[sid].state)
      {
        var sid :| sid in rest;
        if Selects(job, shifts[sid].state) { order := order + [sid]; }
        rest := rest - {sid};
      }
    }

    method RunAutoStart(t: Time) returns (started: nat)
      requires Valid() && clock <= t
      modifies this
      ensures Valid() && clock == t
      ensures var job := Job.RunAutoStart;
              SweepResult(old(Snapshot()), Snapshot(), started, t, job, AllDue(old(Snapshot()), t, job))
    {
      hide Inv, AttendanceOk, SweepResult, Sweep, Transition, IsQuery, AllDue;
      ghost var before, time, job := Snapshot(), clock, Job.RunAutoStart;
      var order := Select(Job.RunAutoStart);
      started := 0;
      SweepBegins(before, t, job);
      for i := 0 to |order|
        invariant Sweep(before, t, job, order[..i]) == Ok((Snapshot(), started))
      {
        SweepStep(before, time, t, job, order, i);
        var sid := order[i];
        var s := shifts[sid];
        if s.terms.policy.autoStart && s.terms.schedStart.Some? && t >= s.terms.schedStart.value {
          var _ := Start(sid, t, None, true);
          DeriveForShift(sid, t);
          started := started + 1;
        }
      }
      SweepEnds(before, time, t, job, order);
      clock := t;
    }

    method RunAutoEnd(t: Time) returns (ended: nat)
      requires Valid() && clock <= t
      modifies this
      ensures Valid() && clock == t
      ensures var job := Job.RunAutoEnd;
              SweepResult(old(Snapshot()), Snapshot(), ended, t, job, AllDue(old(Snapshot()), t, job))
    {
      hide Inv, AttendanceOk, SweepResult, Sweep, Transition, IsQuery, AllDue;
      ghost var before, time, job := Snapshot(), clock, Job.RunAutoEnd;
      var order := Select(Job.RunAutoEnd);
      ended := 0;
      SweepBegins(before, t, job);
      for i := 0 to |order|
        invariant Sweep(before, t, job, order[..i]) == Ok((Snapshot(), ended))
      {
        SweepStep(before, time, t, job, order, i);
        var sid := order[i];
        var s := shifts[sid];
        if s.terms.policy.autoEnd && s.terms.schedEnd.Some? && t >= s.terms.schedEnd.value {
          var _ := End(sid, t, None, true, false);
          DeriveForShift(sid, t);
          ended := ended + 1;
        }
      }
      SweepEnds(before, time, t, job, order);
      clock := t;
    }

    method MarkMissed(t: Time, suppressed: set<(EmployeeId, Date)>) returns (marked: nat)
      requires Valid() && clock <= t
      modifies this`shifts, this`attendance, this`clock
      ensures Valid() && clock == t
      ensures events == old(events) && breaks == old(breaks)
      ensures var job := Job.MarkMissed(suppressed);
              SweepResult(old(Snapshot()), Snapshot(), marked, t, job, AllDue(old(Snapshot()), t, job))
    {
      hide Inv, AttendanceOk, SweepResult, Sweep, IsQuery, AllDue;
      ghost var before, time, job := Snapshot(), clock, Job.MarkMissed(suppressed);
      var order := Select(Job.MarkMissed(suppressed));
      marked := 0;
      SweepBegins(before, t, job);
      for i := 0 to |order|
        invariant Sweep(before, t, job, order[..i]) == Ok((Snapshot(), marked))
      {
        SweepStep(before, time, t, job, order, i);
        var sid := order[i];
        var s := shifts[sid];
        if s.terms.schedStart.None? { continue; }
        var latest := if s.terms.policy.latestMin.Some? then s.terms.policy.latestMin.value else 0;
        if t <= s.terms.schedStart.value + MINUTE * latest { continue; }
        var isSuppressed := (s.terms.employee, DateOf(s.terms.schedStart.value)) in suppressed;
        shifts := shifts[sid := s.(state := if isSuppressed then Cancelled else Missed, version := s.version + 1)];
        DeriveForShift(sid, t);
        marked := marked + 1;
      }
      SweepEnds(before, time, t, job, order);
      clock := t;
    }
  }

  // ---------- sweeps, one row at a time ----------

  lemma SweepBegins(tb: Tables, t: Time, job: Job)
    ensures forall order: seq<ShiftId> :: Sweep(tb, t, job, order[..0]) == Ok((tb, 0))
  {
    assert forall order: seq<ShiftId> :: order[..0] == [];
  }

  lemma PrefixSelected(tb: Tables, job: Job, order: seq<ShiftId>, i: nat)
    requires IsQuery(tb, job, order) && i <= |order|
    ensures SelectedOnce(tb, job, order[..i])
    ensures i < |order| ==> order[i] !in order[..i] && order[i] in tb.shifts && Selects(job, tb.shifts[order[i]].state)
  {
    hide Selects;
    if i < |order| { assert order[i] in order; }
  }

  lemma SweepStep(tb: Tables, now: Time, t: Time, job: Job, order: seq<ShiftId>, i: nat)
    requires Inv(tb, now) && now <= t && IsQuery(tb, job, order) && i < |order|
    ensures Sweep(tb, t, job, order[..i]).Ok?
    ensures var (tb1, n) := Sweep(tb, t, job, order[..i]).value;
            order[i] in tb1.shifts &&
            if Due(job, tb1.shifts[order[i]].terms, t) then
              Fire(tb1, order[i], t, job).Ok? &&
              Sweep(tb, t, job, order[..i + 1]) == Ok((Fire(tb1, order[i], t, job).value, n + 1))
            else Sweep(tb, t, job, order[..i + 1]) == Ok((tb1, n))
  {
    hide Inv, SweepResult, Fire, Selects, DueSet, IsQuery, SelectedOnce;
    PrefixSelected(tb, job, order, i);
    PrefixSelected(tb, job, order, i + 1);
    var rest, sid := order[..i], order[i];
    assert order[..i + 1] == rest + [sid];
    SweepEffect(tb, now, t, job, rest);
    SweepEffect(tb, now, t, job, rest + [sid]);
    DueSetMore(tb, t, job, rest, sid);
    var (tb1, n) := Sweep(tb, t, job, rest).value;
    UnfiredStays(tb, tb1, n, t, job, DueSet(tb, t, job, rest), sid);
    SweepMore(tb, t, job, rest, sid);
  }

  lemma SweepEnds(tb: Tables, now: Time, t: Time, job: Job, order: seq<ShiftId>)
    requires Inv(tb, now) && now <= t && IsQuery(tb, job, order) && AttendanceOk(tb)
    ensures Sweep(tb, t, job, order[..|order|]).Ok?
    ensures var (tb', n) := Sweep(tb, t, job, order[..|order|]).value;
            Inv(tb', t) && AttendanceOk(tb') && SweepResult(tb, tb', n, t, job, AllDue(tb, t, job))
  {
    hide Inv, SweepResult, Sweep, AttendanceOk;
    assert order[..|order|] == order;
    SweepEffect(tb, now, t, job, order);
    SweepKeepsAttendance(tb, now, t, job, order);
    assert DueSet(tb, t, job, order) == AllDue(tb, t, job);
  }
}
