/**
  What a whole sweep does, in closed form: every selected row that is due is fired exactly once
  and nothing else changes, in whatever order the query returns the rows.
*/
module ShiftSweeps {
  import opened Common
  import opened Clock
  import opened ShiftModel
  import opened ShiftSteps
  import opened ShiftReplay
  import opened ShiftInvariant

  /** The shift row after it is fired at t. */
  function FiredShift(job: Job, s: Shift, t: Time): Shift
    requires Due(job, s.terms, t)
  {
    match job
    case RunAutoStart => s.(state := Working, actualStart := Some(t), version := s.version + 1)
    case RunAutoEnd => s.(state := AutoCompleted, actualEnd := Some(t), version := s.version + 1)
    case MarkMissed(_) => s.(state := MissedState(job, s.terms), version := s.version + 1)
  }

  /** The break rows after it is fired: auto-end closes the break that is still open. */
  function FiredBreaks(job: Job, bs: seq<Break>, t: Time): seq<Break> {
    if job.RunAutoEnd? && LastOpen(bs) then CloseLast(bs, t, false) else bs
  }

  /** The events it appends: firing logs a server-made event, but marking as missed logs none. */
  function FiredLog(job: Job, sid: ShiftId, t: Time): seq<Event> {
    match job
    case RunAutoStart => [Event(sid, EvAutoStart, t, Made(sid, EvAutoStart, t))]
    case RunAutoEnd => [Event(sid, EvAutoEnd, t, Made(sid, EvAutoEnd, t))]
    case MarkMissed(_) => []
  }

  predicate Fires(tb: Tables, t: Time, job: Job, sid: ShiftId) {
    sid in tb.shifts && Selects(job, tb.shifts[sid].state) && Due(job, tb.shifts[sid].terms, t)
  }

  /** Shift and break rows after firing exactly the rows in fired. */
  ghost predicate Swept(tb: Tables, tb': Tables, t: Time, job: Job, fired: set<ShiftId>) {
    tb'.idle == tb.idle && tb'.shifts.Keys == tb.shifts.Keys &&
    (forall sid :: sid in fired ==> Fires(tb, t, job, sid)) &&
    (forall sid :: sid in tb.shifts ==>
       tb'.shifts[sid] == (if sid in fired then FiredShift(job, tb.shifts[sid], t) else tb.shifts[sid]) &&
       BreaksOf(tb', sid) == (if sid in fired then FiredBreaks(job, BreaksOf(tb, sid), t) else BreaksOf(tb, sid)))
  }

  /** Each fired shift's log grows by its event; nothing else is logged and nothing is rewritten. */
  ghost predicate LogsGrow(es: seq<Event>, es': seq<Event>, t: Time, job: Job, fired: set<ShiftId>) {
    es <= es' &&
    forall sid :: Log(es', sid) == Log(es, sid) + (if sid in fired then FiredLog(job, sid, t) else [])
  }

  /** The log after firing; marking as missed leaves events and breaks as they are. */
  ghost predicate SweptLog(tb: Tables, tb': Tables, t: Time, job: Job, fired: set<ShiftId>) {
    LogsGrow(tb.events, tb'.events, t, job, fired) &&
    (job.MarkMissed? ==> tb'.events == tb.events && tb'.breaks == tb.breaks)
  }

  function RowKeys(tb: Tables, sids: set<ShiftId>, t: Time): set<(EmployeeId, Date)>
    requires sids <= tb.shifts.Keys
  {
    set sid | sid in sids :: RowKey(tb, sid, t)
  }

  /** Attendance after firing: one fresh row for each fired shift, all others as before. */
  ghost predicate SweptAttendance(tb: Tables, tb': Tables, t: Time, fired: set<ShiftId>)
    requires tb'.shifts.Keys == tb.shifts.Keys && fired <= tb.shifts.Keys
  {
    tb'.attendance.Keys == tb.attendance.Keys + RowKeys(tb', fired, t) &&
    (forall sid :: sid in fired ==> tb'.attendance[RowKey(tb', sid, t)] == FreshRow(tb', sid)) &&
    (forall k :: k in tb.attendance && k !in RowKeys(tb', fired, t) ==> tb'.attendance[k] == tb.attendance[k])
  }

  ghost predicate FiredOne(tb: Tables, tb': Tables, sid: ShiftId, t: Time, job: Job) {
    sid in tb.shifts && Due(job, tb.shifts[sid].terms, t) &&
    tb'.idle == tb.idle &&
    tb'.shifts == tb.shifts[sid := FiredShift(job, tb.shifts[sid], t)] &&
    (forall x :: x in tb.shifts ==>
       BreaksOf(tb', x) == if x == sid then FiredBreaks(job, BreaksOf(tb, sid), t) else BreaksOf(tb, x)) &&
    tb'.events == tb.events + FiredLog(job, sid, t) &&
    (job.MarkMissed? ==> tb'.breaks == tb.breaks) &&
    tb'.attendance == tb.attendance[RowKey(tb', sid, t) := FreshRow(tb', sid)]
  }

  lemma AutoDecision(sid: ShiftId, s: Shift, bs: seq<Break>, t: Time, job: Job, a: Action)
    requires Selects(job, s.state) && Due(job, s.terms, t)
    requires (job.RunAutoStart? && a.AutoStart?) || (job.RunAutoEnd? && a.AutoEnd?)
    requires CloseFirstOpen(bs, t, false) == if LastOpen(bs) then CloseLast(bs, t, false) else bs
    ensures Decide(sid, s, bs, t, a, None) ==
            Ok(Change(FiredShift(job, s, t), FiredBreaks(job, bs, t),
              [Event(sid, KindOf(a), t, Made(sid, KindOf(a), t))]))
  {
    hide CloseFirstOpen;
  }

  lemma FireTransition(tb: Tables, sid: ShiftId, now: Time, t: Time, job: Job, a: Action)
    requires Inv(tb, now) && now <= t && Fires(tb, t, job, sid)
    requires (job.RunAutoStart? && a.AutoStart?) || (job.RunAutoEnd? && a.AutoEnd?)
    ensures var c := Change(FiredShift(job, tb.shifts[sid], t), FiredBreaks(job, BreaksOf(tb, sid), t),
                            [Event(sid, KindOf(a), t, Made(sid, KindOf(a), t))]);
            Transition(tb, sid, t, a, None) == Ok(Write(tb, sid, c))
  {
    NoMadeKeyYet(tb, sid, now, t, a);
    CloseFirstOpenInTables(tb, sid, now, t, false);
    AutoDecision(sid, tb.shifts[sid], BreaksOf(tb, sid), t, job, a);
    hide Inv, CloseFirstOpen, BreaksOf, KeyUsed, Decide, FiredShift, FiredBreaks;
  }

  lemma CloseFirstOpenInTables(tb: Tables, sid: ShiftId, now: Time, t: Time, flag: bool)
    requires Inv(tb, now) && now <= t && sid in tb.shifts
    ensures var bs := BreaksOf(tb, sid);
            CloseFirstOpen(bs, t, flag) == if LastOpen(bs) then CloseLast(bs, t, flag) else bs
  {
    assert ShiftOk(tb, sid);
    LogSorted(tb.events, sid, now);
    CloseFirstOpenInRows(tb.shifts[sid], BreaksOf(tb, sid), Log(tb.events, sid), t, flag);
  }

  /** Firing a due row never fails and does exactly what FiredOne says. */
  lemma FireEffect(tb: Tables, sid: ShiftId, now: Time, t: Time, job: Job)
    requires Inv(tb, now) && now <= t && Fires(tb, t, job, sid)
    ensures Fire(tb, sid, t, job).Ok?
    ensures Inv(Fire(tb, sid, t, job).value, t)
    ensures FiredOne(tb, Fire(tb, sid, t, job).value, sid, t, job)
  {
    hide Inv, Transition, DeriveRow;
    FireKeeps(tb, sid, now, t, job);
    match job
    case RunAutoStart => FireTransition(tb, sid, now, t, job, AutoStart);
    case RunAutoEnd => FireTransition(tb, sid, now, t, job, AutoEnd);
    case MarkMissed(_) =>
  }

  lemma SweptMore(tb: Tables, tb1: Tables, tb2: Tables, t: Time, job: Job, fired: set<ShiftId>, sid: ShiftId)
    requires Swept(tb, tb1, t, job, fired) && FiredOne(tb1, tb2, sid, t, job) && sid !in fired
    requires Fires(tb, t, job, sid)
    ensures Swept(tb, tb2, t, job, fired + {sid})
  {
    hide FiredShift, FiredBreaks, FiredLog, BreaksOf, FreshRow, RowKey, Selects, Due;
  }

  lemma LogsGrowMore(es: seq<Event>, mid: seq<Event>, t: Time, job: Job, fired: set<ShiftId>, sid: ShiftId)
    requires LogsGrow(es, mid, t, job, fired) && sid !in fired
    ensures LogsGrow(es, mid + FiredLog(job, sid, t), t, job, fired + {sid})
  {
    hide Log, FiredLog;
    forall x
      ensures Log(mid + FiredLog(job, sid, t), x) == Log(mid, x) + (if x == sid then FiredLog(job, x, t) else [])
    {
      FiredLogIsOwn(mid, t, job, sid, x);
    }
  }

  lemma FiredLogIsOwn(es: seq<Event>, t: Time, job: Job, sid: ShiftId, x: ShiftId)
    ensures Log(es + FiredLog(job, sid, t), x) == Log(es, x) + (if x == sid then FiredLog(job, x, t) else [])
  {
    var added := FiredLog(job, sid, t);
    LogConcat(es, added, x);
    LogOfOneShift(added, sid, x);
    hide Log;
  }

  lemma SweptLogMore(tb: Tables, tb1: Tables, tb2: Tables, t: Time, job: Job, fired: set<ShiftId>, sid: ShiftId)
    requires SweptLog(tb, tb1, t, job, fired) && FiredOne(tb1, tb2, sid, t, job) && sid !in fired
    ensures SweptLog(tb, tb2, t, job, fired + {sid})
  {
    hide LogsGrow, FreshRow, RowKey, FiredShift, FiredBreaks, BreaksOf, Due;
    LogsGrowMore(tb.events, tb1.events, t, job, fired, sid);
  }

  /** Active rows belong to different employees, so their attendance rows never collide. */
  lemma FiredRowStays(
    tb: Tables, tb1: Tables, tb2: Tables, now: Time, t: Time, job: Job, fired: set<ShiftId>, sid: ShiftId, x: ShiftId)
    requires Swept(tb, tb1, t, job, fired) && FiredOne(tb1, tb2, sid, t, job) && x in fired && sid !in fired
    requires Inv(tb, now) && Fires(tb, t, job, sid)
    ensures x in tb1.shifts && x in tb2.shifts && sid in tb2.shifts
    ensures RowKey(tb2, x, t) == RowKey(tb1, x, t) && FreshRow(tb2, x) == FreshRow(tb1, x)
    ensures RowKey(tb2, x, t) != RowKey(tb2, sid, t)
  {
    hide Inv;
    DifferentEmployees(tb, now, t, job, x, sid);
    TermsStay(job, tb.shifts[x], t);
    TermsStay(job, tb.shifts[sid], t);
    hide FreshRow, RowKey, FiredShift, FiredBreaks, FiredLog, BreaksOf, IsActive, Due, Selects;
    SameRow(tb1, tb2, x, t);
    OtherEmployeesRow(tb2, x, sid, t);
  }

  lemma SameRow(a: Tables, b: Tables, sid: ShiftId, t: Time)
    requires sid in a.shifts && sid in b.shifts && a.shifts[sid] == b.shifts[sid]
    requires BreaksOf(a, sid) == BreaksOf(b, sid) && a.idle == b.idle
    ensures RowKey(a, sid, t) == RowKey(b, sid, t) && FreshRow(a, sid) == FreshRow(b, sid)
  {
  }

  lemma OtherEmployeesRow(tb: Tables, a: ShiftId, b: ShiftId, t: Time)
    requires a in tb.shifts && b in tb.shifts && tb.shifts[a].terms.employee != tb.shifts[b].terms.employee
    ensures RowKey(tb, a, t) != RowKey(tb, b, t)
  {
  }

  lemma TermsStay(job: Job, s: Shift, t: Time)
    requires Due(job, s.terms, t)
    ensures FiredShift(job, s, t).terms == s.terms
  {
  }

  lemma DifferentEmployees(tb: Tables, now: Time, t: Time, job: Job, a: ShiftId, b: ShiftId)
    requires Inv(tb, now) && Fires(tb, t, job, a) && Fires(tb, t, job, b) && a != b
    ensures tb.shifts[a].terms.employee != tb.shifts[b].terms.employee
  {
    ActiveWhenSelected(tb, now, job, {a, b});
    hide EventsOk, ShiftOk, Selects, Due, IsActive;
  }

  lemma FiredRowsStay(
    tb: Tables, tb1: Tables, tb2: Tables, now: Time, t: Time, job: Job, fired: set<ShiftId>, sid: ShiftId)
    requires Swept(tb, tb1, t, job, fired) && FiredOne(tb1, tb2, sid, t, job) && sid !in fired
    requires Inv(tb, now) && Fires(tb, t, job, sid)
    ensures forall x :: x in fired ==>
              RowKey(tb2, x, t) == RowKey(tb1, x, t) && FreshRow(tb2, x) == FreshRow(tb1, x) &&
              RowKey(tb2, x, t) != RowKey(tb2, sid, t)
  {
    hide *;
    forall x | x in fired
      ensures x in tb1.shifts && x in tb2.shifts && sid in tb2.shifts &&
              RowKey(tb2, x, t) == RowKey(tb1, x, t) && FreshRow(tb2, x) == FreshRow(tb1, x) &&
              RowKey(tb2, x, t) != RowKey(tb2, sid, t)
    {
      FiredRowStays(tb, tb1, tb2, now, t, job, fired, sid, x);
    }
  }

  lemma FiredRowsFresh(tb1: Tables, tb2: Tables, t: Time, fired: set<ShiftId>, sid: ShiftId)
    requires tb1.shifts.Keys == tb2.shifts.Keys && fired + {sid} <= tb1.shifts.Keys
    requires tb2.attendance == tb1.attendance[RowKey(tb2, sid, t) := FreshRow(tb2, sid)]
    requires forall x :: x in fired ==>
      RowKey(tb1, x, t) in tb1.attendance && tb1.attendance[RowKey(tb1, x, t)] == FreshRow(tb1, x)
    requires forall x :: x in fired ==>
      RowKey(tb2, x, t) == RowKey(tb1, x, t) && FreshRow(tb2, x) == FreshRow(tb1, x) &&
      RowKey(tb2, x, t) != RowKey(tb2, sid, t)
    ensures forall x :: x in fired + {sid} ==>
      RowKey(tb2, x, t) in tb2.attendance && tb2.attendance[RowKey(tb2, x, t)] == FreshRow(tb2, x)
  {
    hide FreshRow, RowKey;
  }

  lemma SweptAttendanceMore(
    tb: Tables, tb1: Tables, tb2: Tables, now: Time, t: Time, job: Job, fired: set<ShiftId>, sid: ShiftId)
    requires Swept(tb, tb1, t, job, fired) && FiredOne(tb1, tb2, sid, t, job) && sid !in fired
    requires Inv(tb, now) && Fires(tb, t, job, sid)
    requires SweptAttendance(tb, tb1, t, fired)
    ensures SweptAttendance(tb, tb2, t, fired + {sid})
  {
    hide Inv, FreshRow, FiredShift, RowKey, Due, Selects, BreaksOf, FiredBreaks;
    FiredRowsStay(tb, tb1, tb2, now, t, job, fired, sid);
    RowKeysMore(tb1, tb2, fired, sid, t);
    UnfiredRowsStay(
      tb.attendance, tb1.attendance, tb2.attendance, RowKeys(tb1, fired, t), RowKey(tb2, sid, t), FreshRow(tb2, sid));
    KeysOfRows(tb1, fired, t);
    FiredRowsFresh(tb1, tb2, t, fired, sid);
    hide RowKeys, Swept;
  }

  lemma KeysOfRows(tb: Tables, sids: set<ShiftId>, t: Time)
    requires sids <= tb.shifts.Keys
    ensures forall x :: x in sids ==> RowKey(tb, x, t) in RowKeys(tb, sids, t)
  {
    hide RowKey;
  }

  lemma UnfiredRowsStay(
    before: map<(EmployeeId, Date), Row>, mid: map<(EmployeeId, Date), Row>, after: map<(EmployeeId, Date), Row>,
    keys: set<(EmployeeId, Date)>, k: (EmployeeId, Date), row: Row)
    requires mid.Keys == before.Keys + keys && after == mid[k := row]
    requires forall j :: j in before && j !in keys ==> mid[j] == before[j]
    ensures after.Keys == before.Keys + (keys + {k})
    ensures forall j :: j in before && j !in keys + {k} ==> after[j] == before[j]
  {
  }

  lemma RowKeysMore(tb1: Tables, tb2: Tables, fired: set<ShiftId>, sid: ShiftId, t: Time)
    requires tb1.shifts.Keys == tb2.shifts.Keys && fired + {sid} <= tb1.shifts.Keys
    requires forall x :: x in fired ==> RowKey(tb2, x, t) == RowKey(tb1, x, t)
    ensures RowKeys(tb2, fired + {sid}, t) == RowKeys(tb1, fired, t) + {RowKey(tb2, sid, t)}
  {
    hide RowKey;
  }

  function DueSet(tb: Tables, t: Time, job: Job, order: seq<ShiftId>): set<ShiftId> {
    set sid | sid in order && Fires(tb, t, job, sid)
  }

  ghost predicate SelectedOnce(tb: Tables, job: Job, order: seq<ShiftId>) {
    (forall i, j :: 0 <= i < j < |order| ==> order[i] != order[j]) &&
    (forall sid :: sid in order ==> sid in tb.shifts && Selects(job, tb.shifts[sid].state))
  }

  /** tb' is tb after a sweep at t fired the n rows of the set fired. */
  ghost predicate SweepResult(tb: Tables, tb': Tables, n: nat, t: Time, job: Job, fired: set<ShiftId>) {
    Swept(tb, tb', t, job, fired) && SweptLog(tb, tb', t, job, fired) && SweptAttendance(tb, tb', t, fired) &&
    n == |fired|
  }

  lemma FireMore(tb: Tables, tb1: Tables, n: nat, now: Time, t: Time, job: Job, fired: set<ShiftId>, sid: ShiftId)
    requires Inv(tb, now) && Inv(tb1, t)
    requires SweepResult(tb, tb1, n, t, job, fired) && sid !in fired && Fires(tb, t, job, sid)
    ensures Fire(tb1, sid, t, job).Ok? && Inv(Fire(tb1, sid, t, job).value, t)
    ensures SweepResult(tb, Fire(tb1, sid, t, job).value, n + 1, t, job, fired + {sid})
  {
    hide Inv, SweptAttendance, SweptLog, Fire;
    FireEffect(tb1, sid, t, t, job);
    var tb2 := Fire(tb1, sid, t, job).value;
    SweptMore(tb, tb1, tb2, t, job, fired, sid);
    SweptLogMore(tb, tb1, tb2, t, job, fired, sid);
    SweptAttendanceMore(tb, tb1, tb2, now, t, job, fired, sid);
  }

  lemma SweepMore(tb: Tables, t: Time, job: Job, rest: seq<ShiftId>, sid: ShiftId)
    requires sid in tb.shifts && Selects(job, tb.shifts[sid].state)
    requires Sweep(tb, t, job, rest).Ok?
    requires sid in Sweep(tb, t, job, rest).value.0.shifts
    requires Sweep(tb, t, job, rest).value.0.shifts[sid] == tb.shifts[sid]
    ensures var (tb1, n) := Sweep(tb, t, job, rest).value;
            Sweep(tb, t, job, rest + [sid]) ==
            if !Fires(tb, t, job, sid) then Ok((tb1, n))
            else match Fire(tb1, sid, t, job) case Err(e) => Err(e) case Ok(tb2) => Ok((tb2, n + 1))
  {
    assert (rest + [sid])[..|rest|] == rest;
    hide Fire, Selects, Due;
  }

  lemma DueSetMore(tb: Tables, t: Time, job: Job, rest: seq<ShiftId>, sid: ShiftId)
    ensures sid !in rest ==> sid !in DueSet(tb, t, job, rest)
    ensures DueSet(tb, t, job, rest + [sid]) ==
            if Fires(tb, t, job, sid) then DueSet(tb, t, job, rest) + {sid} else DueSet(tb, t, job, rest)
  {
    hide Fires;
  }

  lemma {:induction false} SweepEffect(tb: Tables, now: Time, t: Time, job: Job, order: seq<ShiftId>)
    requires Inv(tb, now) && now <= t && SelectedOnce(tb, job, order)
    ensures Sweep(tb, t, job, order).Ok?
    ensures var (tb', n) := Sweep(tb, t, job, order).value;
            Inv(tb', t) && SweepResult(tb, tb', n, t, job, DueSet(tb, t, job, order))
  {
    hide Inv, SweepResult, Fire, Fires, Selects, DueSet;
    if order == [] {
      InvLater(tb, now, t);
      SweepNothing(tb, t, job);
    } else {
      var sid, rest := order[|order| - 1], order[..|order| - 1];
      assert order == rest + [sid] && sid !in rest;
      SweepEffect(tb, now, t, job, rest);
      var (tb1, n) := Sweep(tb, t, job, rest).value;
      DueSetMore(tb, t, job, rest, sid);
      UnfiredStays(tb, tb1, n, t, job, DueSet(tb, t, job, rest), sid);
      SweepMore(tb, t, job, rest, sid);
      hide Sweep;
      if Fires(tb, t, job, sid) {
        FireMore(tb, tb1, n, now, t, job, DueSet(tb, t, job, rest), sid);
      }
    }
  }

  lemma SweepNothing(tb: Tables, t: Time, job: Job)
    ensures SweepResult(tb, tb, 0, t, job, DueSet(tb, t, job, []))
  {
    assert DueSet(tb, t, job, []) == {};
  }

  lemma UnfiredStays(tb: Tables, tb1: Tables, n: nat, t: Time, job: Job, fired: set<ShiftId>, sid: ShiftId)
    requires SweepResult(tb, tb1, n, t, job, fired) && sid in tb.shifts && sid !in fired
    ensures sid in tb1.shifts && tb1.shifts[sid] == tb.shifts[sid]
  {
  }

  lemma InvLater(tb: Tables, now: Time, later: Time)
    requires Inv(tb, now) && now <= later
    ensures Inv(tb, later)
  {
  }

  lemma ActiveWhenSelected(tb: Tables, now: Time, job: Job, sids: set<ShiftId>)
    requires Inv(tb, now)
    requires forall sid :: sid in sids ==> sid in tb.shifts && Selects(job, tb.shifts[sid].state)
    ensures forall sid :: sid in sids ==> IsActive(tb.shifts[sid].state)
  {
    forall sid | sid in sids ensures IsActive(tb.shifts[sid].state) {
      assert ShiftOk(tb, sid);
    }
  }
}
