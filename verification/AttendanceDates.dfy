/**
  Exactly which operations leave an attendance row stale, and which ones give a shift rows on two
  dates: conditions on the tables before the operation, for every step and for whole histories.
*/
module AttendanceDates {
  import opened Common
  import opened Clock
  import opened ShiftModel
  import opened ShiftSteps
  import opened ShiftInvariant
  import opened ShiftSweeps
  import opened ShiftSweepLaws
  import opened ShiftHistory
  import opened AttendanceAgreement
  import opened RequestTable

  /** Every row is what a derivation would write now. */
  ghost predicate AllFresh(tb: Tables) {
    forall k :: k in tb.attendance ==>
      tb.attendance[k].shift in tb.shifts && tb.attendance[k] == FreshRow(tb, tb.attendance[k].shift)
  }

  /** No shift has rows on two dates. */
  ghost predicate OneDateEach(tb: Tables) {
    forall j, k ::
      j in tb.attendance && k in tb.attendance && tb.attendance[j].shift == tb.attendance[k].shift ==> j == k
  }

  /** An unscheduled shift with a row on another date than the one a derivation at t would use. */
  predicate FiledElsewhere(tb: Tables, sid: ShiftId, t: Time) {
    sid in tb.shifts && tb.shifts[sid].terms.schedStart.None? &&
    exists k :: k in tb.attendance && tb.attendance[k].shift == sid &&
      k.1 != (if tb.shifts[sid].actualStart.Some? then DateOf(tb.shifts[sid].actualStart.value) else DateOf(t))
  }

  /** A start, under a new event id, of an available shift whose row was filed on another day. */
  predicate MakesStale(tb: Tables, st: Step) {
    st.cmd.Request? && st.cmd.action.Start? && st.cmd.sid in tb.shifts && tb.shifts[st.cmd.sid].state.Available? &&
    !IsReplay(tb, st.cmd.sid, st.at, st.cmd.action, st.cmd.eventId) && FiledElsewhere(tb, st.cmd.sid, st.at)
  }

  /** A request or a sweep that derives attendance for a shift already filed on another day. */
  predicate WritesSecondDate(tb: Tables, st: Step) {
    match st.cmd
    case Request(sid, a, eventId) => IsAccepted(tb, sid, st.at, a, eventId) && FiledElsewhere(tb, sid, st.at)
    case RunSweep(job, _) => exists sid :: sid in AllDue(tb, st.at, job) && FiledElsewhere(tb, sid, st.at)
    case _ => false
  }

  /** A row can only go stale by a start: nothing else is accepted for an undated shift, and a start always is. */
  lemma OnlyStartsDate(tb: Tables, now: Time, st: Step)
    requires Reachable(tb, now) && st.cmd.Request? && Possible(tb, st.cmd)
    ensures var sid, a, eventId := st.cmd.sid, st.cmd.action, st.cmd.eventId;
            MakesStale(tb, st) <==>
            Serve(tb, sid, st.at, a, eventId).Ok? && !IsReplay(tb, sid, st.at, a, eventId) &&
            !Dated(tb.shifts[sid]) && FiledElsewhere(tb, sid, st.at)
  {
    var sid, a, eventId := st.cmd.sid, st.cmd.action, st.cmd.eventId;
    ServedExactly(tb, now, sid, st.at, a, eventId);
    ReachableInv(tb, now);
    if sid in tb.shifts { StartedWhenUnderway(tb, now, sid); }
    hide Reachable, Inv, Serve, IsReplay;
  }

  // ---------- freshness is a matter of dates ----------

  /** No row of a dated shift lies off the shift's date. */
  ghost predicate Settled(tb: Tables) {
    forall k ::
      (k in tb.attendance && tb.attendance[k].shift in tb.shifts && Dated(tb.shifts[tb.attendance[k].shift])) ==>
        OnItsDate(tb.shifts[tb.attendance[k].shift], k.1)
  }

  lemma FreshExactly(tb: Tables, k: (EmployeeId, Date), r: Row)
    requires RowOk(tb, k, r)
    ensures r == FreshRow(tb, r.shift) <==> (Dated(tb.shifts[r.shift]) ==> OnItsDate(tb.shifts[r.shift], k.1))
  {
    hide ComputeDurations, DeriveStatus, BreakSeconds, IdleSeconds;
  }

  lemma FreshIsSettled(tb: Tables)
    requires AttendanceOk(tb)
    ensures AllFresh(tb) <==> Settled(tb)
  {
    hide RowOk, FreshRow, OnItsDate, Dated;
    forall k | k in tb.attendance
      ensures RowOk(tb, k, tb.attendance[k])
      ensures tb.attendance[k].shift in tb.shifts
      ensures tb.attendance[k] == FreshRow(tb, tb.attendance[k].shift) <==>
              (Dated(tb.shifts[tb.attendance[k].shift]) ==> OnItsDate(tb.shifts[tb.attendance[k].shift], k.1))
    {
      RowNamesShift(tb, k, tb.attendance[k]);
      FreshExactly(tb, k, tb.attendance[k]);
    }
  }

  lemma RowNamesShift(tb: Tables, k: (EmployeeId, Date), r: Row)
    requires RowOk(tb, k, r)
    ensures r.shift in tb.shifts && tb.shifts[r.shift].terms.employee == k.0
  {
  }

  /** A row that is filed where a derivation at t would file it lies under that key, and only there. */
  lemma FiledHere(tb: Tables, k: (EmployeeId, Date), t: Time)
    requires k in tb.attendance && RowOk(tb, k, tb.attendance[k])
    ensures var sid := tb.attendance[k].shift;
            (k.1 != WorkDate(tb.shifts[sid], t) ==> FiledElsewhere(tb, sid, t)) &&
            (!FiledElsewhere(tb, sid, t) ==> k == RowKey(tb, sid, t))
  {
    hide FreshRow;
  }

  // ---------- what deriving a set of shifts does to the dates ----------

  /** The shifts in derived, of different employees, may change but keep their work date; each gets a fresh row. */
  ghost predicate Derived(tb: Tables, tb': Tables, t: Time, derived: set<ShiftId>) {
    tb'.shifts.Keys == tb.shifts.Keys && derived <= tb.shifts.Keys && SweptAttendance(tb, tb', t, derived) &&
    (forall x :: x in tb.shifts && x !in derived ==> tb'.shifts[x] == tb.shifts[x]) &&
    (forall x :: x in derived ==>
       tb'.shifts[x].terms == tb.shifts[x].terms &&
       (Dated(tb.shifts[x]) ==> Dated(tb'.shifts[x])) &&
       WorkDate(tb'.shifts[x], t) == WorkDate(tb.shifts[x], t)) &&
    (forall x, y :: x in derived && y in derived && x != y ==>
      tb.shifts[x].terms.employee != tb.shifts[y].terms.employee)
  }

  /** Which shift a row names afterwards. */
  lemma RowAfter(tb: Tables, tb': Tables, t: Time, derived: set<ShiftId>, k: (EmployeeId, Date))
    requires Derived(tb, tb', t, derived) && k in tb'.attendance
    ensures (exists sid :: sid in derived && k == RowKey(tb', sid, t) && tb'.attendance[k].shift == sid) ||
            (k in tb.attendance && tb'.attendance[k] == tb.attendance[k])
  {
    hide DeriveRow, WorkDate, Dated;
    if k in RowKeys(tb', derived, t) {
      var sid :| sid in derived && k == RowKey(tb', sid, t);
      assert tb'.attendance[k] == FreshRow(tb', sid);
      NewRowOk(tb', sid, t);
    }
  }

  /** A row filed on another day than its shift's stays where it is, since no derivation writes there. */
  lemma ElsewhereStays(tb: Tables, tb': Tables, t: Time, derived: set<ShiftId>, sid: ShiftId)
    returns (k: (EmployeeId, Date))
    requires Derived(tb, tb', t, derived) && AttendanceOk(tb) && sid in derived && FiledElsewhere(tb, sid, t)
    ensures k in tb'.attendance && tb'.attendance[k].shift == sid && k != RowKey(tb', sid, t)
    ensures k.1 != WorkDate(tb'.shifts[sid], t)
  {
    k :| k in tb.attendance && tb.attendance[k].shift == sid && k.1 != WorkDate(tb.shifts[sid], t);
    assert RowOk(tb, k, tb.attendance[k]);
    RowNamesShift(tb, k, tb.attendance[k]);
    hide RowOk, AttendanceOk, FreshRow, WorkDate, Dated;
    assert k !in RowKeys(tb', derived, t);
  }

  lemma DerivedRowIsFiled(tb: Tables, tb': Tables, t: Time, derived: set<ShiftId>, sid: ShiftId)
    requires Derived(tb, tb', t, derived) && sid in derived
    ensures RowKey(tb', sid, t) in tb'.attendance && tb'.attendance[RowKey(tb', sid, t)].shift == sid
  {
    KeysOfRows(tb', derived, t);
    NewRowOk(tb', sid, t);
    hide FreshRow, RowKey, WorkDate, Dated;
  }

  lemma RowsOfOneShift(tb: Tables, tb': Tables, t: Time, derived: set<ShiftId>, k: (EmployeeId, Date))
    requires Derived(tb, tb', t, derived) && AttendanceOk(tb) && k in tb'.attendance
    requires forall sid :: sid in derived ==> !FiledElsewhere(tb, sid, t)
    ensures var sid := tb'.attendance[k].shift;
            if sid in derived then k == RowKey(tb', sid, t) else k in tb.attendance && tb.attendance[k].shift == sid
  {
    RowAfter(tb, tb', t, derived, k);
    if k in tb.attendance && tb'.attendance[k] == tb.attendance[k] {
      assert RowOk(tb, k, tb.attendance[k]);
      FiledHere(tb, k, t);
    }
    hide RowOk, FreshRow, WorkDate, Dated, FiledElsewhere, SweptAttendance;
  }

  lemma DerivedDates(tb: Tables, tb': Tables, t: Time, derived: set<ShiftId>)
    requires Derived(tb, tb', t, derived) && AttendanceOk(tb) && OneDateEach(tb)
    ensures OneDateEach(tb') <==> forall sid :: sid in derived ==> !FiledElsewhere(tb, sid, t)
  {
    hide Derived, AttendanceOk, RowKey, FiledElsewhere;
    if sid :| sid in derived && FiledElsewhere(tb, sid, t) {
      var k := ElsewhereStays(tb, tb', t, derived, sid);
      DerivedRowIsFiled(tb, tb', t, derived, sid);
      assert !OneDateEach(tb');
    } else {
      forall j, k | j in tb'.attendance && k in tb'.attendance && tb'.attendance[j].shift == tb'.attendance[k].shift
        ensures j == k
      {
        RowsOfOneShift(tb, tb', t, derived, j);
        RowsOfOneShift(tb, tb', t, derived, k);
      }
    }
  }

  lemma DerivedRowSettled(tb: Tables, tb': Tables, t: Time, derived: set<ShiftId>, k: (EmployeeId, Date))
    requires Derived(tb, tb', t, derived) && AttendanceOk(tb) && Settled(tb) && k in tb'.attendance
    requires forall sid :: sid in derived && !Dated(tb.shifts[sid]) && Dated(tb'.shifts[sid]) ==>
             !FiledElsewhere(tb, sid, t)
    ensures var sid := tb'.attendance[k].shift;
            sid in tb'.shifts && Dated(tb'.shifts[sid]) ==> OnItsDate(tb'.shifts[sid], k.1)
  {
    RowAfter(tb, tb', t, derived, k);
    var sid := tb'.attendance[k].shift;
    if k in tb.attendance && tb'.attendance[k] == tb.attendance[k] {
      assert RowOk(tb, k, tb.attendance[k]);
      FiledHere(tb, k, t);
    }
    hide RowOk, FreshRow, FiledElsewhere, SweptAttendance;
  }

  lemma DerivedSettles(tb: Tables, tb': Tables, t: Time, derived: set<ShiftId>)
    requires Derived(tb, tb', t, derived) && AttendanceOk(tb) && Settled(tb)
    ensures Settled(tb') <==>
            forall sid :: sid in derived && !Dated(tb.shifts[sid]) && Dated(tb'.shifts[sid]) ==>
              !FiledElsewhere(tb, sid, t)
  {
    if sid :| sid in derived && !Dated(tb.shifts[sid]) && Dated(tb'.shifts[sid]) && FiledElsewhere(tb, sid, t) {
      var k := ElsewhereStays(tb, tb', t, derived, sid);
      hide AttendanceOk, SweptAttendance, FiledElsewhere;
      assert !OnItsDate(tb'.shifts[sid], k.1);
    } else {
      hide Derived, AttendanceOk, FiledElsewhere, Dated, OnItsDate;
      forall k | k in tb'.attendance
        ensures var sid := tb'.attendance[k].shift;
                sid in tb'.shifts && Dated(tb'.shifts[sid]) ==> OnItsDate(tb'.shifts[sid], k.1)
      {
        DerivedRowSettled(tb, tb', t, derived, k);
      }
    }
  }

  // ---------- requests ----------

  lemma StartDate(sid: ShiftId, s: Shift, bs: seq<Break>, t: Time, a: Action, eventId: Option<string>)
    requires Decide(sid, s, bs, t, a, eventId).Ok? && (s.state.Available? ==> s.actualStart.None?) &&
             !s.state.Scheduled?
    ensures WorkDate(Decide(sid, s, bs, t, a, eventId).value.shift, t) == WorkDate(s, t)
  {
    hide CloseFirstOpen;
  }

  lemma ServeKeepsDate(tb: Tables, now: Time, sid: ShiftId, t: Time, a: Action, eventId: Option<string>)
    requires Inv(tb, now) && Serve(tb, sid, t, a, eventId).Ok?
    ensures WorkDate(Serve(tb, sid, t, a, eventId).value.shifts[sid], t) == WorkDate(tb.shifts[sid], t)
  {
    StartedWhenUnderway(tb, now, sid);
    hide Inv, DeriveRow, WorkDate, Decide, KeyUsed, BreaksOf;
    if !IsReplay(tb, sid, t, a, eventId) {
      StartDate(sid, tb.shifts[sid], BreaksOf(tb, sid), t, a, eventId);
    }
  }

  lemma ServedIsDerived(tb: Tables, tb': Tables, sid: ShiftId, t: Time)
    requires ServedOne(tb, tb', sid, t) && WorkDate(tb'.shifts[sid], t) == WorkDate(tb.shifts[sid], t)
    ensures Derived(tb, tb', t, {sid})
  {
    hide FreshRow, WorkDate, BreaksOf;
    assert RowKeys(tb', {sid}, t) == {RowKey(tb', sid, t)};
  }

  lemma RequestDates(tb: Tables, now: Time, sid: ShiftId, t: Time, a: Action, eventId: Option<string>)
    requires Inv(tb, now) && Serve(tb, sid, t, a, eventId).Ok?
    ensures var tb' := Serve(tb, sid, t, a, eventId).value;
            Derived(tb, tb', t, {sid}) && (!Dated(tb'.shifts[sid]) <==> UndatedReplay(tb, sid, t, a, eventId))
  {
    ServeServesOne(tb, now, sid, t, a, eventId);
    ServeKeepsDate(tb, now, sid, t, a, eventId);
    hide Inv, Serve, ServedOne, UndatedReplay, Derived;
    ServedIsDerived(tb, Serve(tb, sid, t, a, eventId).value, sid, t);
  }

  lemma RequestOneDate(tb: Tables, now: Time, sid: ShiftId, t: Time, a: Action, eventId: Option<string>)
    requires Inv(tb, now) && AttendanceOk(tb) && OneDateEach(tb) && Serve(tb, sid, t, a, eventId).Ok?
    ensures OneDateEach(Serve(tb, sid, t, a, eventId).value) <==> !FiledElsewhere(tb, sid, t)
  {
    RequestDates(tb, now, sid, t, a, eventId);
    hide *;
    DerivedDates(tb, Serve(tb, sid, t, a, eventId).value, t, {sid});
  }

  lemma RequestSettles(tb: Tables, now: Time, sid: ShiftId, t: Time, a: Action, eventId: Option<string>)
    requires Inv(tb, now) && AttendanceOk(tb) && Settled(tb) && Serve(tb, sid, t, a, eventId).Ok?
    ensures Settled(Serve(tb, sid, t, a, eventId).value) <==>
            (!Dated(tb.shifts[sid]) && !IsReplay(tb, sid, t, a, eventId) ==> !FiledElsewhere(tb, sid, t))
  {
    hide Inv, AttendanceOk, Settled, Derived, Transition, IsReplay, Dated, FiledElsewhere;
    RequestDates(tb, now, sid, t, a, eventId);
    hide Serve;
    DerivedSettles(tb, Serve(tb, sid, t, a, eventId).value, t, {sid});
  }

  // ---------- sweeps ----------

  /** Sweeps only fire dated shifts, so they never fall back on today's date. */
  lemma FiredIsDated(tb: Tables, now: Time, t: Time, job: Job, sid: ShiftId)
    requires Inv(tb, now) && Fires(tb, t, job, sid)
    ensures Dated(tb.shifts[sid]) && Dated(FiredShift(job, tb.shifts[sid], t))
    ensures FiredShift(job, tb.shifts[sid], t).terms == tb.shifts[sid].terms
    ensures WorkDate(FiredShift(job, tb.shifts[sid], t), t) == WorkDate(tb.shifts[sid], t)
  {
    StartedWhenUnderway(tb, now, sid);
    hide Inv;
  }

  lemma SweptIsDerived(tb: Tables, tb': Tables, n: nat, now: Time, t: Time, job: Job, fired: set<ShiftId>)
    requires Inv(tb, now) && SweepResult(tb, tb', n, t, job, fired)
    ensures Derived(tb, tb', t, fired)
    ensures forall sid :: sid in fired ==> Dated(tb.shifts[sid])
  {
    hide Inv, SweptAttendance, SweptLog, FiredShift, FiredBreaks, BreaksOf, Dated, WorkDate;
    forall x | x in fired
      ensures tb'.shifts[x].terms == tb.shifts[x].terms && Dated(tb.shifts[x]) && Dated(tb'.shifts[x])
      ensures WorkDate(tb'.shifts[x], t) == WorkDate(tb.shifts[x], t)
    {
      FiredIsDated(tb, now, t, job, x);
    }
    forall x, y | x in fired && y in fired && x != y
      ensures tb.shifts[x].terms.employee != tb.shifts[y].terms.employee
    {
      DifferentEmployees(tb, now, t, job, x, y);
    }
  }

  lemma SweepDates(tb: Tables, now: Time, t: Time, job: Job, order: seq<ShiftId>)
    requires Reachable(tb, now) && now <= t && IsQuery(tb, job, order)
    ensures Sweep(tb, t, job, order).Ok?
    ensures Derived(tb, Sweep(tb, t, job, order).value.0, t, AllDue(tb, t, job))
    ensures forall sid :: sid in AllDue(tb, t, job) ==> Dated(tb.shifts[sid])
  {
    hide Sweep, AllDue, IsQuery, Dated, Inv, SweepResult, Derived;
    SweepIsComplete(tb, now, t, job, order);
    ReachableInv(tb, now);
    var (tb', n) := Sweep(tb, t, job, order).value;
    SweptIsDerived(tb, tb', n, now, t, job, AllDue(tb, t, job));
  }

  lemma SweepOneDate(tb: Tables, now: Time, t: Time, job: Job, order: seq<ShiftId>)
    requires Reachable(tb, now) && now <= t && IsQuery(tb, job, order) && AttendanceOk(tb) && OneDateEach(tb)
    ensures Sweep(tb, t, job, order).Ok?
    ensures OneDateEach(Sweep(tb, t, job, order).value.0) <==>
            forall sid :: sid in AllDue(tb, t, job) ==> !FiledElsewhere(tb, sid, t)
  {
    SweepDates(tb, now, t, job, order);
    hide *;
    DerivedDates(tb, Sweep(tb, t, job, order).value.0, t, AllDue(tb, t, job));
  }

  lemma SweepSettles(tb: Tables, now: Time, t: Time, job: Job, order: seq<ShiftId>)
    requires Reachable(tb, now) && now <= t && IsQuery(tb, job, order) && AttendanceOk(tb) && Settled(tb)
    ensures Sweep(tb, t, job, order).Ok? && Settled(Sweep(tb, t, job, order).value.0)
  {
    SweepDates(tb, now, t, job, order);
    hide *;
    DerivedSettles(tb, Sweep(tb, t, job, order).value.0, t, AllDue(tb, t, job));
  }

  // ---------- creations ----------

  /** Attendance and the shifts it names are as before. */
  ghost predicate OnlyNewShifts(tb: Tables, tb': Tables) {
    tb'.attendance == tb.attendance &&
    forall sid :: sid in tb.shifts ==> sid in tb'.shifts && tb'.shifts[sid] == tb.shifts[sid]
  }

  lemma {:induction false} DailyOnlyNewShifts(tb: Tables, day: Date, plan: seq<Candidate>)
    ensures OnlyNewShifts(tb, EnsureDaily(tb, day, plan).0)
  {
    if plan != [] { DailyOnlyNewShifts(tb, day, plan[..|plan| - 1]); }
  }

  lemma NewShiftsKeepDates(tb: Tables, tb': Tables)
    requires OnlyNewShifts(tb, tb') && AttendanceOk(tb)
    ensures OneDateEach(tb) <==> OneDateEach(tb')
    ensures Settled(tb) <==> Settled(tb')
  {
    assert forall k :: k in tb.attendance ==> RowOk(tb, k, tb.attendance[k]);
    hide FreshRow, OnItsDate, Dated;
  }

  lemma CreationDates(tb: Tables, st: Step)
    requires (st.cmd.Create? || st.cmd.Daily?) && AttendanceOk(tb)
    ensures OneDateEach(tb) <==> OneDateEach(Exec(tb, st))
    ensures Settled(tb) <==> Settled(Exec(tb, st))
  {
    if st.cmd.Daily? { DailyOnlyNewShifts(tb, st.cmd.day, st.cmd.plan); }
    assert OnlyNewShifts(tb, Exec(tb, st));
    hide *;
    NewShiftsKeepDates(tb, Exec(tb, st));
  }

  // ---------- theorems ----------

  /**
    With one date for each shift before a step, there is one for each afterwards exactly when the
    step does not derive attendance for an unscheduled shift that is filed on another day.
  */
  lemma SecondDateExactly(tb: Tables, now: Time, st: Step)
    requires Reachable(tb, now) && now <= st.at && Possible(tb, st.cmd) && OneDateEach(tb)
    ensures OneDateEach(Exec(tb, st)) <==> !WritesSecondDate(tb, st)
  {
    ReachableInv(tb, now);
    ReachableAttendance(tb, now);
    hide Reachable, Inv, OneDateEach, AttendanceOk, Serve, Sweep, EnsureDaily, CreateShift, AllDue, FiledElsewhere;
    hide IsQuery;
    match st.cmd
    case Create(_, _) | Daily(_, _) => CreationDates(tb, st);
    case Request(sid, a, eventId) =>
      ServedExactly(tb, now, sid, st.at, a, eventId);
      hide IsAccepted;
      if Serve(tb, sid, st.at, a, eventId).Ok? { RequestOneDate(tb, now, sid, st.at, a, eventId); }
    case RunSweep(job, order) => SweepOneDate(tb, now, st.at, job, order);
  }

  /**
    With every row fresh before a step, every row is fresh afterwards exactly when the step is not
    the start of an available, undated shift that has a row on another day.
  */
  lemma GoesStaleExactly(tb: Tables, now: Time, st: Step)
    requires Reachable(tb, now) && now <= st.at && Possible(tb, st.cmd) && AllFresh(tb)
    ensures AllFresh(Exec(tb, st)) <==> !MakesStale(tb, st)
  {
    ReachableInv(tb, now);
    ReachableAttendance(tb, now);
    FreshIsSettled(tb);
    ExecKeepsAttendance(tb, now, st);
    FreshIsSettled(Exec(tb, st));
    hide Reachable, Inv, AllFresh, Settled, AttendanceOk, Serve, Sweep, EnsureDaily, CreateShift, FiledElsewhere, Dated;
    hide IsQuery, IsReplay;
    match st.cmd
    case Create(_, _) | Daily(_, _) => CreationDates(tb, st);
    case Request(sid, a, eventId) =>
      OnlyStartsDate(tb, now, st);
      hide MakesStale;
      if Serve(tb, sid, st.at, a, eventId).Ok? { RequestSettles(tb, now, sid, st.at, a, eventId); }
    case RunSweep(job, order) => SweepSettles(tb, now, st.at, job, order);
  }

  /** Every row is fresh at every moment of a history exactly when none of its steps makes one stale. */
  lemma FreshThroughoutExactly(idle: map<ShiftId, seq<Interval>>, from: Time, steps: seq<Step>)
    requires IsHistory(EmptyTables(idle), from, steps)
    ensures var tb := EmptyTables(idle);
            (forall i :: 0 <= i <= |steps| ==> AllFresh(Run(tb, steps[..i]))) <==>
            (forall i :: 0 <= i < |steps| ==> !MakesStale(Run(tb, steps[..i]), steps[i]))
  {
    var tb := EmptyTables(idle);
    hide AllFresh, MakesStale, Run, IsHistory;
    assert steps[..0] == [];
    FreshAtFirst(idle);
    var i := 0;
    while i < |steps| && AllFresh(Run(tb, steps[..i])) && !MakesStale(Run(tb, steps[..i]), steps[i])
      invariant i <= |steps| && AllFresh(Run(tb, steps[..i]))
      invariant forall j :: 0 <= j <= i ==> AllFresh(Run(tb, steps[..j]))
      invariant forall j :: 0 <= j < i ==> !MakesStale(Run(tb, steps[..j]), steps[j])
    {
      FreshStep(idle, from, steps, i);
      i := i + 1;
    }
    if i < |steps| { FreshStep(idle, from, steps, i); }
  }

  lemma FreshAtFirst(idle: map<ShiftId, seq<Interval>>)
    ensures AllFresh(Run(EmptyTables(idle), [])) && OneDateEach(Run(EmptyTables(idle), []))
  {
  }

  lemma FreshStep(idle: map<ShiftId, seq<Interval>>, from: Time, steps: seq<Step>, i: nat)
    requires IsHistory(EmptyTables(idle), from, steps) && i < |steps|
    requires AllFresh(Run(EmptyTables(idle), steps[..i]))
    ensures var tb := Run(EmptyTables(idle), steps[..i]);
            AllFresh(Run(EmptyTables(idle), steps[..i + 1])) <==> !MakesStale(tb, steps[i])
  {
    HistoryPrefix(EmptyTables(idle), from, steps, i);
    var tb, now := Run(EmptyTables(idle), steps[..i]), ClockAfter(from, steps[..i]);
    assert Reachable(tb, now);
    hide *;
    GoesStaleExactly(tb, now, steps[i]);
  }

  lemma DateStep(idle: map<ShiftId, seq<Interval>>, from: Time, steps: seq<Step>, i: nat)
    requires IsHistory(EmptyTables(idle), from, steps) && i < |steps|
    requires OneDateEach(Run(EmptyTables(idle), steps[..i]))
    ensures var tb := Run(EmptyTables(idle), steps[..i]);
            OneDateEach(Run(EmptyTables(idle), steps[..i + 1])) <==> !WritesSecondDate(tb, steps[i])
  {
    HistoryPrefix(EmptyTables(idle), from, steps, i);
    var tb, now := Run(EmptyTables(idle), steps[..i]), ClockAfter(from, steps[..i]);
    assert Reachable(tb, now);
    hide *;
    SecondDateExactly(tb, now, steps[i]);
  }

  /** No shift has rows on two dates at any moment exactly when no step derives a shift filed elsewhere. */
  lemma OneDateThroughoutExactly(idle: map<ShiftId, seq<Interval>>, from: Time, steps: seq<Step>)
    requires IsHistory(EmptyTables(idle), from, steps)
    ensures var tb := EmptyTables(idle);
            (forall i :: 0 <= i <= |steps| ==> OneDateEach(Run(tb, steps[..i]))) <==>
            (forall i :: 0 <= i < |steps| ==> !WritesSecondDate(Run(tb, steps[..i]), steps[i]))
  {
    var tb := EmptyTables(idle);
    hide OneDateEach, WritesSecondDate, Run, IsHistory;
    assert steps[..0] == [];
    FreshAtFirst(idle);
    var i := 0;
    while i < |steps| && OneDateEach(Run(tb, steps[..i])) && !WritesSecondDate(Run(tb, steps[..i]), steps[i])
      invariant i <= |steps| && OneDateEach(Run(tb, steps[..i]))
      invariant forall j :: 0 <= j <= i ==> OneDateEach(Run(tb, steps[..j]))
      invariant forall j :: 0 <= j < i ==> !WritesSecondDate(Run(tb, steps[..j]), steps[j])
    {
      DateStep(idle, from, steps, i);
      i := i + 1;
    }
    if i < |steps| { DateStep(idle, from, steps, i); }
  }

  /** Today's date stands in for the work date in no sweep: every shift it fires is dated. */
  lemma SweepNeverUsesToday(tb: Tables, now: Time, t: Time, job: Job, sid: ShiftId)
    requires Reachable(tb, now) && sid in AllDue(tb, t, job)
    ensures Dated(tb.shifts[sid])
  {
    ReachableInv(tb, now);
    FiredIsDated(tb, now, t, job, sid);
  }
}
