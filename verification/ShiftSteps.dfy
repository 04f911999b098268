/**
  What each operation on the shift tables does, as functions from tables to tables:
  transitions (state_machine.py), attendance (attendance.py), creation and wrappers
  (service.py) and sweeps (scheduler.py), all under backend/app/shifts.
*/
module ShiftSteps {
  import opened Common
  import opened Clock
  import opened ShiftModel

  datatype Action = Start | AutoStart | StartBreak | Pause | Resume | End | AutoEnd | ForceStop

  function KindOf(a: Action): Kind {
    match a
    case Start => EvShiftStart
    case AutoStart => EvAutoStart
    case StartBreak => EvBreakStart
    case Pause => EvPause
    case Resume => EvResume
    case End => EvShiftEnd
    case AutoEnd => EvAutoEnd
    case ForceStop => EvForceStop
  }

  // ---------- transitions ----------

  /** A missing or empty client id is replaced by a key made from the shift, kind and time. */
  function EventKey(sid: ShiftId, kind: Kind, t: Time, eventId: Option<string>): Key {
    if eventId.Some? && eventId.value != "" then Client(eventId.value) else Made(sid, kind, t)
  }

  function BreakEndKey(sid: ShiftId, t: Time, eventId: Option<string>): Key {
    EventKey(sid, EvBreakEnd, t,
             if eventId.Some? && eventId.value != "" then Some(eventId.value + ":be") else None)
  }

  predicate TooEarly(terms: Terms, t: Time) {
    terms.schedStart.Some? && terms.policy.earliestMin.Some? &&
    t < terms.schedStart.value - MINUTE * terms.policy.earliestMin.value
  }

  predicate TooLate(terms: Terms, t: Time) {
    terms.schedStart.Some? && terms.policy.latestMin.Some? &&
    t > terms.schedStart.value + MINUTE * terms.policy.latestMin.value
  }

  predicate EndsTooEarly(terms: Terms, t: Time) {
    terms.schedEnd.Some? && t < terms.schedEnd.value && !terms.policy.allowEarlyClockout
  }

  function Closed(b: Break, t: Time, flag: bool): Break {
    b.(endedAt := Some(t),
       exceeded := b.exceeded ||
                   (flag && b.maxSeconds.Some? && t - b.startedAt > MICROS * b.maxSeconds.value))
  }

  /** Closes the first open break, if there is one. */
  function CloseFirstOpen(bs: seq<Break>, t: Time, flag: bool): seq<Break> {
    if bs == [] then []
    else if bs[0].endedAt.None? then [Closed(bs[0], t, flag)] + bs[1..]
    else [bs[0]] + CloseFirstOpen(bs[1..], t, flag)
  }

  function Bump(s: Shift, state: State): Shift {
    s.(state := state, version := s.version + 1)
  }

  /** What an accepted transition writes. */
  datatype Change = Change(shift: Shift, breaks: seq<Break>, log: seq<Event>)

  function EndState(a: Action): State {
    if a.ForceStop? then ForceStopped else if a.AutoEnd? then AutoCompleted else Completed
  }

  function Decide(sid: ShiftId, s: Shift, bs: seq<Break>, t: Time, a: Action, eventId: Option<string>)
    : Result<Change, Error>
  {
    var ev := Event(sid, KindOf(a), t, EventKey(sid, KindOf(a), t, eventId));
    match a
    case Start | AutoStart =>
      if !s.state.Scheduled? && !s.state.Available? then Err(InvalidTransition)
      else if a.Start? && (TooEarly(s.terms, t) || TooLate(s.terms, t)) then Err(WindowNotOpen)
      else Ok(Change(Bump(s.(actualStart := Some(t)), Working), bs, [ev]))
    case StartBreak =>
      if !s.state.Working? then Err(InvalidTransition)
      else if !s.terms.policy.allowBreak then Err(NotPermitted)
      else if !s.terms.policy.allowMultipleBreaks && bs != [] then Err(NotPermitted)
      else Ok(Change(Bump(s, OnBreak), bs + [Break(t, None, s.terms.policy.maxBreakSeconds, false)], [ev]))
    case Pause =>
      if !s.state.Working? then Err(InvalidTransition)
      else Ok(Change(Bump(s, Paused), bs, [ev]))
    case Resume =>
      if s.state.OnBreak? then
        Ok(Change(Bump(s, Working), CloseFirstOpen(bs, t, true),
                  [Event(sid, EvBreakEnd, t, BreakEndKey(sid, t, eventId)), ev]))
      else if s.state.Paused? then Ok(Change(Bump(s, Working), bs, [ev]))
      else Err(InvalidTransition)
    case End | AutoEnd | ForceStop =>
      if !IsActive(s.state) || s.state.Available? then Err(InvalidTransition)
      else if a.End? && EndsTooEarly(s.terms, t) then Err(NotPermitted)
      else Ok(Change(Bump(s.(actualEnd := Some(t)), EndState(a)), CloseFirstOpen(bs, t, false), [ev]))
  }

  function Write(tb: Tables, sid: ShiftId, c: Change): Tables {
    tb.(shifts := tb.shifts[sid := c.shift],
        breaks := tb.breaks[sid := c.breaks],
        events := tb.events + c.log)
  }

  /** A key already on record makes the request a replay, whatever shift or kind recorded it. */
  predicate IsReplay(tb: Tables, sid: ShiftId, t: Time, a: Action, eventId: Option<string>) {
    KeyUsed(tb.events, EventKey(sid, KindOf(a), t, eventId))
  }

  /** One state-machine call; the unique key constraint turns a clash into Integrity. */
  function Transition(tb: Tables, sid: ShiftId, t: Time, a: Action, eventId: Option<string>)
    : Result<Tables, Error>
    requires sid in tb.shifts
  {
    if IsReplay(tb, sid, t, a, eventId) then Ok(tb)
    else
      match Decide(sid, tb.shifts[sid], BreaksOf(tb, sid), t, a, eventId)
      case Err(e) => Err(e)
      case Ok(c) =>
        if exists i :: 0 <= i < |c.log| && KeyUsed(tb.events, c.log[i].key) then Err(Integrity)
        else Ok(Write(tb, sid, c))
  }

  // ---------- attendance ----------

  function BreakSeconds(bs: seq<Break>): int {
    if bs == [] then 0
    else
      var b := bs[|bs| - 1];
      BreakSeconds(bs[..|bs| - 1]) + (if b.endedAt.Some? then WholeSeconds(b.endedAt.value - b.startedAt) else 0)
  }

  function IdleSeconds(ivs: seq<Interval>): int {
    if ivs == [] then 0
    else IdleSeconds(ivs[..|ivs| - 1]) + WholeSeconds(ivs[|ivs| - 1].end - ivs[|ivs| - 1].start)
  }

  function Max(a: int, b: int): int {
    if a > b then a else b
  }

  function ComputeDurations(s: Shift, breakSeconds: int, idleSeconds: int): Durations {
    var policy := s.terms.policy;
    var late :=
      if s.actualStart.Some? && s.terms.schedStart.Some?
      then Max(0, WholeSeconds(s.actualStart.value - s.terms.schedStart.value) - policy.lateThresholdMin * 60)
      else 0;
    var worked :=
      if s.actualStart.Some? && s.actualEnd.Some? then
        var unbroken := Max(0, WholeSeconds(s.actualEnd.value - s.actualStart.value) - breakSeconds);
        if policy.idleIsWork then unbroken else Max(0, unbroken - idleSeconds)
      else 0;
    var early :=
      if s.actualEnd.Some? && s.terms.schedEnd.Some? && s.actualEnd.value < s.terms.schedEnd.value
      then WholeSeconds(s.terms.schedEnd.value - s.actualEnd.value) else 0;
    var overtime :=
      if s.actualEnd.Some? && s.terms.schedEnd.Some? && s.actualEnd.value > s.terms.schedEnd.value &&
        policy.allowOvertime
      then WholeSeconds(s.actualEnd.value - s.terms.schedEnd.value) else 0;
    Durations(worked, breakSeconds, idleSeconds, late, early, overtime)
  }

  function DeriveStatus(s: Shift, d: Durations): Status {
    if s.state.Missed? then MissedShift
    else if s.state.Cancelled? then RestDay
    else if !IsFinished(s.state) then Partial
    else if s.actualStart.None? then Absent
    else if d.overtime > 0 then Overtime
    else if d.early > 0 then EarlyLeave
    else if d.late > 0 then Late
    else Present
  }

  function WorkDate(s: Shift, t: Time): Date {
    if s.terms.schedStart.Some? then DateOf(s.terms.schedStart.value)
    else if s.actualStart.Some? then DateOf(s.actualStart.value)
    else DateOf(t)
  }

  function DeriveRow(sid: ShiftId, s: Shift, bs: seq<Break>, idle: seq<Interval>): Row {
    var d := ComputeDurations(s, BreakSeconds(bs), IdleSeconds(idle));
    Row(sid, DeriveStatus(s, d), s.terms.schedStart, s.terms.schedEnd, s.actualStart, s.actualEnd, d)
  }

  /** The row a derivation would write now for a shift. */
  function FreshRow(tb: Tables, sid: ShiftId): Row
    requires sid in tb.shifts
  {
    DeriveRow(sid, tb.shifts[sid], BreaksOf(tb, sid), IdleOf(tb, sid))
  }

  function RowKey(tb: Tables, sid: ShiftId, t: Time): (EmployeeId, Date)
    requires sid in tb.shifts
  {
    (tb.shifts[sid].terms.employee, WorkDate(tb.shifts[sid], t))
  }

  function Derive(tb: Tables, sid: ShiftId, t: Time): Tables
    requires sid in tb.shifts
  {
    tb.(attendance := tb.attendance[RowKey(tb, sid, t) := FreshRow(tb, sid)])
  }

  // ---------- service ----------

  predicate HasActiveShift(tb: Tables, employee: EmployeeId) {
    exists sid :: sid in tb.shifts && tb.shifts[sid].terms.employee == employee && IsActive(tb.shifts[sid].state)
  }

  /** create_shift_for_day; the id is a fresh UUID, so a used one violates the primary key. */
  function CreateShift(tb: Tables, sid: ShiftId, terms: Terms): Result<Tables, Error> {
    if HasActiveShift(tb, terms.employee) then Err(AlreadyActive)
    else if sid in tb.shifts then Err(Integrity)
    else Ok(tb.(shifts := tb.shifts[sid := Shift(terms, Available, None, None, 0)]))
  }

  /** A wrapper of service.py: transition, then re-derive attendance. */
  function Serve(tb: Tables, sid: ShiftId, t: Time, a: Action, eventId: Option<string>): Result<Tables, Error> {
    if sid !in tb.shifts then Err(NotFound)
    else
      match Transition(tb, sid, t, a, eventId)
      case Err(e) => Err(e)
      case Ok(tb') => Ok(Derive(tb', sid, t))
  }

  // ---------- scheduler ----------

  /** An employee considered by ensure_daily_shifts, with what the schedule resolves to. */
  datatype Candidate = Candidate(sid: ShiftId, suppressed: bool, terms: Terms)

  predicate HasShiftOn(tb: Tables, employee: EmployeeId, day: Date) {
    exists sid :: sid in tb.shifts && tb.shifts[sid].terms.employee == employee &&
      tb.shifts[sid].terms.schedStart.Some? && DateOf(tb.shifts[sid].terms.schedStart.value) == day
  }

  function EnsureOne(tb: Tables, day: Date, c: Candidate): (Tables, nat) {
    if c.suppressed || HasShiftOn(tb, c.terms.employee, day) then (tb, 0)
    else
      match CreateShift(tb, c.sid, c.terms)
      case Err(_) => (tb, 0)
      case Ok(tb') => if c.terms.schedStart.None? then (tb, 0) else (tb', 1)
  }

  function EnsureDaily(tb: Tables, day: Date, plan: seq<Candidate>): (Tables, nat) {
    if plan == [] then (tb, 0)
    else
      var (tb', n) := EnsureDaily(tb, day, plan[..|plan| - 1]);
      var (tb'', k) := EnsureOne(tb', day, plan[|plan| - 1]);
      (tb'', n + k)
  }

  /** The three sweeps; MarkMissed knows which (employee, date) pairs are leave or holiday. */
  datatype Job = RunAutoStart | RunAutoEnd | MarkMissed(suppressed: set<(EmployeeId, Date)>)

  /** The states a sweep's query selects. */
  predicate Selects(job: Job, state: State) {
    match job
    case RunAutoStart => state.Available?
    case RunAutoEnd => state.Working? || state.OnBreak? || state.Paused?
    case MarkMissed(_) => state.Available? || state.Scheduled?
  }

  predicate Due(job: Job, terms: Terms, t: Time) {
    match job
    case RunAutoStart => terms.policy.autoStart && terms.schedStart.Some? && t >= terms.schedStart.value
    case RunAutoEnd => terms.policy.autoEnd && terms.schedEnd.Some? && t >= terms.schedEnd.value
    case MarkMissed(_) =>
      terms.schedStart.Some? &&
      t > terms.schedStart.value + MINUTE * (if terms.policy.latestMin.Some? then terms.policy.latestMin.value else 0)
  }

  function MissedState(job: Job, terms: Terms): State
    requires job.MarkMissed? && terms.schedStart.Some?
  {
    if (terms.employee, DateOf(terms.schedStart.value)) in job.suppressed then Cancelled else Missed
  }

  function Fire(tb: Tables, sid: ShiftId, t: Time, job: Job): Result<Tables, Error>
    requires sid in tb.shifts && Due(job, tb.shifts[sid].terms, t)
  {
    match job
    case RunAutoStart => Serve(tb, sid, t, AutoStart, None)
    case RunAutoEnd => Serve(tb, sid, t, AutoEnd, None)
    case MarkMissed(_) =>
      var s := tb.shifts[sid];
      Ok(Derive(tb.(shifts := tb.shifts[sid := Bump(s, MissedState(job, s.terms))]), sid, t))
  }

  /** A sweep over the selected rows in query order; an error aborts the whole sweep. */
  function Sweep(tb: Tables, t: Time, job: Job, order: seq<ShiftId>): Result<(Tables, nat), Error> {
    if order == [] then Ok((tb, 0))
    else
      var sid := order[|order| - 1];
      match Sweep(tb, t, job, order[..|order| - 1])
      case Err(e) => Err(e)
      case Ok((tb', n)) =>
        if sid !in tb'.shifts || !Due(job, tb'.shifts[sid].terms, t) then Ok((tb', n))
        else
          match Fire(tb', sid, t, job)
          case Err(e) => Err(e)
          case Ok(tb'') => Ok((tb'', n + 1))
  }

  /** order lists exactly the rows the sweep's query returns. */
  ghost predicate IsQuery(tb: Tables, job: Job, order: seq<ShiftId>) {
    (forall i, j :: 0 <= i < j < |order| ==> order[i] != order[j]) &&
    (forall sid :: sid in order <==> sid in tb.shifts && Selects(job, tb.shifts[sid].state))
  }

  // ---------- runs ----------

  datatype Command =
    | Create(sid: ShiftId, terms: Terms)
    | Request(sid: ShiftId, action: Action, eventId: Option<string>)
    | Daily(day: Date, plan: seq<Candidate>)
    | RunSweep(job: Job, order: seq<ShiftId>)

  datatype Step = Step(at: Time, cmd: Command)

  /** The tables after one command; a rejected command changes nothing. */
  function Exec(tb: Tables, st: Step): Tables {
    match st.cmd
    case Create(sid, terms) =>
      (match CreateShift(tb, sid, terms) case Err(_) => tb case Ok(tb') => tb')
    case Request(sid, a, eventId) =>
      (match Serve(tb, sid, st.at, a, eventId) case Err(_) => tb case Ok(tb') => tb')
    case Daily(day, plan) => EnsureDaily(tb, day, plan).0
    case RunSweep(job, order) =>
      (match Sweep(tb, st.at, job, order) case Err(_) => tb case Ok((tb', _)) => tb')
  }

  /** Clients never ask for the automatic actions, and sweeps see a true query result. */
  ghost predicate Possible(tb: Tables, cmd: Command) {
    match cmd
    case Request(_, a, _) => !a.AutoStart? && !a.AutoEnd?
    case RunSweep(job, order) => IsQuery(tb, job, order)
    case _ => true
  }

  function Run(tb: Tables, steps: seq<Step>): Tables {
    if steps == [] then tb else Exec(Run(tb, steps[..|steps| - 1]), steps[|steps| - 1])
  }

  /** A history: possible commands, one after the other, under a clock that never goes back. */
  ghost predicate IsHistory(tb: Tables, from: Time, steps: seq<Step>) {
    steps == [] ||
    (var n := |steps| - 1;
     IsHistory(tb, from, steps[..n]) &&
     ClockAfter(from, steps[..n]) <= steps[n].at &&
     Possible(Run(tb, steps[..n]), steps[n].cmd))
  }

  function ClockAfter(from: Time, steps: seq<Step>): Time {
    if steps == [] then from else steps[|steps| - 1].at
  }
}
