/**
  When shifts come into being: create_shift_for_day (backend/app/shifts/service.py) and
  ensure_daily_shifts (backend/app/shifts/scheduler.py), in terms of the rows that are there.
*/
module CreationTable {
  import opened Common
  import opened Clock
  import opened ShiftModel
  import opened ShiftSteps
  import opened DailyShifts

  /** None of the employee's shifts is available, working, on break or paused. */
  ghost predicate IsIdle(tb: Tables, employee: EmployeeId) {
    forall sid :: sid in tb.shifts && tb.shifts[sid].terms.employee == employee ==>
      tb.shifts[sid].state !in {Available, Working, OnBreak, Paused}
  }

  /** None of the employee's shifts is scheduled to start on the UTC day. */
  ghost predicate IsFree(tb: Tables, employee: EmployeeId, day: Date) {
    forall sid :: sid in tb.shifts && tb.shifts[sid].terms.employee == employee ==>
      tb.shifts[sid].terms.schedStart == None || tb.shifts[sid].terms.schedStart.value / 86_400_000_000 != day
  }

  function WithNew(tb: Tables, sid: ShiftId, terms: Terms): Tables {
    tb.(shifts := tb.shifts[sid := Shift(terms, Available, None, None, 0)])
  }

  lemma IdleMeansNoneActive(tb: Tables, employee: EmployeeId)
    ensures IsIdle(tb, employee) <==> !HasActiveShift(tb, employee)
  {
  }

  lemma FreeMeansNoneOn(tb: Tables, employee: EmployeeId, day: Date)
    ensures IsFree(tb, employee, day) <==> !HasShiftOn(tb, employee, day)
  {
  }

  /** A creation succeeds exactly when the employee has nothing active and the id is new. */
  lemma CreatedExactly(tb: Tables, sid: ShiftId, terms: Terms)
    ensures CreateShift(tb, sid, terms) ==
            if !IsIdle(tb, terms.employee) then Err(AlreadyActive)
            else if sid in tb.shifts then Err(Integrity)
            else Ok(WithNew(tb, sid, terms))
  {
    IdleMeansNoneActive(tb, terms.employee);
    hide IsIdle, HasActiveShift;
  }

  /** What the daily run needs to create a candidate's shift. */
  ghost predicate NeedsShift(tb: Tables, day: Date, c: Candidate) {
    !c.suppressed && c.terms.schedStart.Some? && c.sid !in tb.shifts &&
    IsIdle(tb, c.terms.employee) && IsFree(tb, c.terms.employee, day)
  }

  lemma EnsuredExactly(tb: Tables, day: Date, c: Candidate)
    ensures EnsureOne(tb, day, c) == if NeedsShift(tb, day, c) then (WithNew(tb, c.sid, c.terms), 1) else (tb, 0)
  {
    CreatedExactly(tb, c.sid, c.terms);
    FreeMeansNoneOn(tb, c.terms.employee, day);
    hide IsIdle, IsFree, HasShiftOn, CreateShift;
  }

  function NewShifts(cs: set<Candidate>): map<ShiftId, Shift>
    requires forall c, d :: c in cs && d in cs && c.sid == d.sid ==> c == d
  {
    map c | c in cs :: c.sid := Shift(c.terms, Available, None, None, 0)
  }

  ghost predicate OneIdEach(cs: set<Candidate>) {
    forall c, d :: c in cs && d in cs && c.sid == d.sid ==> c == d
  }

  lemma NeedIsUnaffected(tb: Tables, tb': Tables, day: Date, c: Candidate)
    requires SameFor(tb, tb', c)
    ensures NeedsShift(tb', day, c) <==> NeedsShift(tb, day, c)
  {
    if !IsIdle(tb, c.terms.employee) {
      var sid :| sid in tb.shifts && tb.shifts[sid].terms.employee == c.terms.employee &&
        tb.shifts[sid].state in {Available, Working, OnBreak, Paused};
      assert tb'.shifts[sid] == tb.shifts[sid];
    }
    if !IsFree(tb, c.terms.employee, day) {
      var sid :| sid in tb.shifts && tb.shifts[sid].terms.employee == c.terms.employee &&
        tb.shifts[sid].terms.schedStart != None && tb.shifts[sid].terms.schedStart.value / 86_400_000_000 == day;
      assert tb'.shifts[sid] == tb.shifts[sid];
    }
  }

  /** The candidates whose shift is needed on the tables as they are. */
  ghost function Needed(tb: Tables, day: Date, plan: seq<Candidate>): set<Candidate> {
    set c | c in plan && NeedsShift(tb, day, c)
  }

  ghost predicate Creates(tb: Tables, result: (Tables, nat), needed: set<Candidate>) {
    OneIdEach(needed) && result == (tb.(shifts := tb.shifts + NewShifts(needed)), |needed|)
  }

  lemma NeededMore(tb: Tables, day: Date, rest: seq<Candidate>, c: Candidate)
    ensures Needed(tb, day, rest + [c]) ==
            if NeedsShift(tb, day, c) then Needed(tb, day, rest) + {c} else Needed(tb, day, rest)
  {
    hide NeedsShift;
  }

  lemma NewShiftsMore(shifts: map<ShiftId, Shift>, before: set<Candidate>, c: Candidate)
    requires OneIdEach(before) && forall d :: d in before ==> d.sid != c.sid
    ensures OneIdEach(before + {c}) && c !in before
    ensures shifts + NewShifts(before + {c}) ==
            (shifts + NewShifts(before))[c.sid := Shift(c.terms, Available, None, None, 0)]
  {
  }

  lemma CreatesMore(tb: Tables, result: (Tables, nat), needed: set<Candidate>, c: Candidate)
    requires Creates(tb, result, needed) && forall d :: d in needed ==> d.sid != c.sid
    ensures Creates(tb, (WithNew(result.0, c.sid, c.terms), result.1 + 1), needed + {c})
  {
    NewShiftsMore(tb.shifts, needed, c);
    hide NewShifts;
  }

  lemma DailyMore(tb: Tables, day: Date, rest: seq<Candidate>, c: Candidate)
    ensures var (tb', n) := EnsureDaily(tb, day, rest);
            EnsureDaily(tb, day, rest + [c]) ==
            if NeedsShift(tb', day, c) then (WithNew(tb', c.sid, c.terms), n + 1) else (tb', n)
  {
    assert (rest + [c])[..|rest|] == rest;
    EnsuredExactly(EnsureDaily(tb, day, rest).0, day, c);
    hide NeedsShift, EnsureOne;
  }

  /**
    The daily run over employees considered once each creates exactly the shifts that are needed on
    the tables before it, and counts them.
  */
  lemma {:induction false} DailyRunCreates(tb: Tables, day: Date, plan: seq<Candidate>)
    requires ConsidersEachOnce(plan)
    ensures Creates(tb, EnsureDaily(tb, day, plan), Needed(tb, day, plan))
  {
    if plan == [] {
      assert Needed(tb, day, plan) == {};
      assert tb.shifts + NewShifts({}) == tb.shifts;
    } else {
      var n := |plan| - 1;
      var rest, c := plan[..n], plan[n];
      assert plan == rest + [c];
      OthersAre(plan);
      assert forall d :: d in Needed(tb, day, rest) ==> d in rest;
      hide *;
      DailyRunCreates(tb, day, rest);
      OthersKeepSame(tb, day, rest, c);
      var (tb', k) := EnsureDaily(tb, day, rest);
      NeedIsUnaffected(tb, tb', day, c);
      DailyMore(tb, day, rest, c);
      NeededMore(tb, day, rest, c);
      if NeedsShift(tb, day, c) { CreatesMore(tb, (tb', k), Needed(tb, day, rest), c); }
    }
  }

  lemma OthersAre(plan: seq<Candidate>)
    requires ConsidersEachOnce(plan) && plan != []
    ensures var rest, c := plan[..|plan| - 1], plan[|plan| - 1];
            ConsidersEachOnce(rest) && (forall d :: d in rest ==> d.sid != c.sid) &&
            forall i :: 0 <= i < |rest| ==> rest[i].terms.employee != c.terms.employee && rest[i].sid != c.sid
  {
  }
}
