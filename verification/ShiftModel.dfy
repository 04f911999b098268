/**
  The rows of the shift tables (backend/app/models/shifts.py) and the attendance row that is
  derived from them.
*/
module ShiftModel {
  import opened Common
  import opened Clock

  type ShiftId = nat
  type EmployeeId = nat

  datatype State =
    | Scheduled | Available | Working | OnBreak | Paused
    | Completed | AutoCompleted | Missed | ForceStopped | Cancelled

  predicate IsActive(s: State) {
    s.Available? || s.Working? || s.OnBreak? || s.Paused?
  }

  predicate IsTerminal(s: State) {
    s.Completed? || s.AutoCompleted? || s.Missed? || s.ForceStopped? || s.Cancelled?
  }

  /** A shift that was worked and is over. */
  predicate IsFinished(s: State) {
    s.Completed? || s.AutoCompleted? || s.ForceStopped?
  }

  /** The entries of the frozen policy snapshot that transitions and attendance read. */
  datatype Policy = Policy(
    earliestMin: Option<int>,
    latestMin: Option<int>,
    lateThresholdMin: int,
    allowBreak: bool,
    allowMultipleBreaks: bool,
    maxBreakSeconds: Option<int>,
    allowEarlyClockout: bool,
    allowOvertime: bool,
    autoStart: bool,
    autoEnd: bool,
    idleIsWork: bool)

  /** What is fixed when a shift is created. */
  datatype Terms = Terms(
    employee: EmployeeId,
    schedStart: Option<Time>,
    schedEnd: Option<Time>,
    policy: Policy)

  datatype Shift = Shift(
    terms: Terms,
    state: State,
    actualStart: Option<Time>,
    actualEnd: Option<Time>,
    version: nat)

  datatype Break = Break(
    startedAt: Time,
    endedAt: Option<Time>,
    maxSeconds: Option<int>,
    exceeded: bool)

  datatype Kind =
    | EvShiftStart | EvAutoStart | EvBreakStart | EvBreakEnd | EvPause
    | EvResume | EvShiftEnd | EvAutoEnd | EvForceStop

  /** An idempotency key: sent by the client, or made from shift, kind and server time. */
  datatype Key = Client(id: string) | Made(shift: ShiftId, kind: Kind, at: Time)

  datatype Event = Event(shift: ShiftId, kind: Kind, at: Time, key: Key)

  datatype Interval = Interval(start: Time, end: Time)

  datatype Status = Present | Late | Absent | Partial | EarlyLeave | Overtime | RestDay | MissedShift

  datatype Durations = Durations(worked: int, breaks: int, idle: int, late: int, early: int, overtime: int)

  datatype Row = Row(
    shift: ShiftId,
    status: Status,
    schedStart: Option<Time>,
    schedEnd: Option<Time>,
    actualStart: Option<Time>,
    actualEnd: Option<Time>,
    durations: Durations)

  /** One organization's tables; attendance is unique per employee and work date. */
  datatype Tables = Tables(
    shifts: map<ShiftId, Shift>,
    breaks: map<ShiftId, seq<Break>>,
    events: seq<Event>,
    attendance: map<(EmployeeId, Date), Row>,
    idle: map<ShiftId, seq<Interval>>)

  datatype Error = InvalidTransition | WindowNotOpen | NotPermitted | AlreadyActive | NotFound | Integrity

  /** An organization before its first shift; idle intervals may be anything. */
  function EmptyTables(idle: map<ShiftId, seq<Interval>>): Tables {
    Tables(map[], map[], [], map[], idle)
  }

  function BreaksOf(tb: Tables, sid: ShiftId): seq<Break> {
    if sid in tb.breaks then tb.breaks[sid] else []
  }

  function IdleOf(tb: Tables, sid: ShiftId): seq<Interval> {
    if sid in tb.idle then tb.idle[sid] else []
  }

  /** The events of one shift, in the order they were appended. */
  function Log(es: seq<Event>, sid: ShiftId): seq<Event> {
    if es == [] then []
    else Log(es[..|es| - 1], sid) + (if es[|es| - 1].shift == sid then [es[|es| - 1]] else [])
  }

  predicate KeyUsed(es: seq<Event>, key: Key) {
    exists i :: 0 <= i < |es| && es[i].key == key
  }
}
