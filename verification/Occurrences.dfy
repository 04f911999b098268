/**
  Shift windows of a schedule on a date: compute_occurrences of
  backend/app/scheduling/occurrences.py. A date is its proleptic ordinal (day 1 is a Monday),
  a wall-clock time is a minute of the day, and a local instant is a minute count.
*/
module Occurrences {
  import opened Common

  type Ordinal = int
  type Minute = int

  const DAY_MINUTES := 1440

  /** A window as written in the definition: wall-clock start and end within a day. */
  datatype Window = Window(start: nat, end: nat)

  ghost predicate ClockTimes(w: Window) {
    w.start < DAY_MINUTES && w.end < DAY_MINUTES
  }

  /** The windows of each weekday, Monday first; a missing day has none. */
  type Days = map<nat, seq<Window>>

  datatype Schedule =
    | Fixed(days: Days)
    | Custom(dates: map<Ordinal, seq<Window>>)
    | Rotating(weeks: seq<Days>, cycle: Option<int>, anchor: Option<Ordinal>)
    | Flexible(window: Option<Window>)
    | Other

  datatype Failure = ZeroDivision | IndexError

  /** A window laid out on the local clock. */
  datatype Local = Local(start: Minute, end: Minute)

  datatype Occurrence = Occurrence(startUtc: Minute, endUtc: Minute)

  // ---------- integer division as the program's language defines it ----------

  /** Floor modulo: the result has the divisor's sign. */
  function FloorMod(a: int, b: int): int
    requires b != 0
  {
    if b > 0 then a % b else -((-a) % (-b))
  }

  function FloorDiv7(a: int): int {
    a / 7
  }

  function Weekday(day: Ordinal): nat
    ensures Weekday(day) < 7
  {
    (day + 6) % 7
  }

  // ---------- windows ----------

  function WindowsOn(days: Days, weekday: nat): seq<Window> {
    if weekday in days then days[weekday] else []
  }

  /** The cycle length: as given, or the number of weeks. */
  function Cycle(weeks: seq<Days>, cycle: Option<int>): int {
    match cycle case Some(c) => c case None => if weeks == [] then 1 else |weeks|
  }

  function WeekIndex(day: Ordinal, anchor: Ordinal, cycle: int): int
    requires cycle != 0
  {
    FloorMod(FloorDiv7(day - anchor), cycle)
  }

  /** The week definition at an index; negative indices count from the end, as in the source. */
  function WeekAt(weeks: seq<Days>, index: int): Result<Days, Failure> {
    if index >= |weeks| then Ok(map[])
    else if index >= 0 then Ok(weeks[index])
    else if index >= -|weeks| then Ok(weeks[|weeks| + index])
    else Err(IndexError)
  }

  function WindowsFor(s: Schedule, day: Ordinal): Result<seq<Window>, Failure> {
    match s
    case Fixed(days) => Ok(WindowsOn(days, Weekday(day)))
    case Custom(dates) => Ok(if day in dates then dates[day] else [])
    case Rotating(weeks, cycle, anchor) =>
      if weeks == [] || anchor.None? then Ok([])
      else if Cycle(weeks, cycle) == 0 then Err(ZeroDivision)
      else (
        match WeekAt(weeks, WeekIndex(day, anchor.value, Cycle(weeks, cycle)))
        case Err(e) => Err(e)
        case Ok(days) => Ok(WindowsOn(days, Weekday(day))))
    case Flexible(window) => Ok(match window case None => [] case Some(w) => [w])
    case Other => Ok([])
  }

  /** An end at or before the start rolls over to the next day. */
  function Lay(day: Ordinal, w: Window): Local {
    var start := day * DAY_MINUTES + w.start;
    var end := day * DAY_MINUTES + w.end;
    Local(start, if end <= start then end + DAY_MINUTES else end)
  }

  /** offset gives the zone's offset from UTC, in minutes, at a local wall-clock instant. */
  function Make(day: Ordinal, w: Window, offset: Minute -> int): Occurrence {
    var l := Lay(day, w);
    Occurrence(l.start - offset(l.start), l.end - offset(l.end))
  }

  /**
    The loops of compute_occurrences: they fail exactly when the day's windows cannot be looked up,
    and otherwise yield one occurrence per window, in the order of the definition.
  */
  method ComputeOccurrences(s: Schedule, day: Ordinal, offset: Minute -> int)
    returns (r: Result<seq<Occurrence>, Failure>)
    ensures r.Ok? <==> WindowsFor(s, day).Ok?
    ensures r.Err? ==> WindowsFor(s, day) == Err(r.error)
    ensures r.Ok? ==>
              var ws := WindowsFor(s, day).value;
              |r.value| == |ws| && forall i :: 0 <= i < |ws| ==> r.value[i] == Make(day, ws[i], offset)
  {
    var windows := WindowsFor(s, day);
    if windows.Err? { return Err(windows.error); }
    var ws := windows.value;
    var occ := [];
    for i := 0 to |ws|
      invariant |occ| == i && forall j :: 0 <= j < i ==> occ[j] == Make(day, ws[j], offset)
    {
      occ := occ + [Make(day, ws[i], offset)];
    }
    return Ok(occ);
  }

  // ---------- rotation ----------

  lemma AddMultipleMod(a: int, k: int, m: int)
    requires m > 0
    ensures (a + k * m) % m == a % m
  {
    var q, r := a / m, a % m;
    assert a == q * m + r;
    assert a + k * m == (q + k) * m + r by { assert (q + k) * m == q * m + k * m; }
    UniqueMod(a + k * m, q + k, r, m);
  }

  lemma UniqueMod(a: int, q: int, r: int, m: int)
    requires m > 0 && a == q * m + r && 0 <= r < m
    ensures a % m == r
  {
    var q', r' := a / m, a % m;
    assert a == q' * m + r';
    assert (q - q') * m == r' - r;
    assert (q' - q) * m == r - r';
    if q > q' { MulAtLeast(q - q', m); }
    if q < q' { MulAtLeast(q' - q, m); }
  }

  lemma MulAtLeast(k: int, m: int)
    requires k >= 1 && m > 0
    ensures k * m >= m
  {
  }

  /** Before and after the anchor alike, a positive cycle keeps the week index in range. */
  lemma WeekIndexInRange(day: Ordinal, anchor: Ordinal, cycle: int)
    requires cycle > 0
    ensures 0 <= WeekIndex(day, anchor, cycle) < cycle
  {
  }

  lemma WeekIndexRepeats(day: Ordinal, anchor: Ordinal, cycle: int, k: int)
    requires cycle > 0
    ensures WeekIndex(day + 7 * (k * cycle), anchor, cycle) == WeekIndex(day, anchor, cycle)
  {
    var weeks := FloorDiv7(day - anchor);
    assert FloorDiv7(day + 7 * (k * cycle) - anchor) == weeks + k * cycle;
    AddMultipleMod(weeks, k, cycle);
  }

  lemma WeekdayRepeats(day: Ordinal, k: int)
    ensures Weekday(day + 7 * k) == Weekday(day)
  {
  }

  /** 14 September 2026, ordinal 739873, is a Monday; every week from it on and before runs Monday to Sunday. */
  lemma MondaysAreZero(k: int, i: nat)
    requires i < 7
    ensures Weekday(739873 + 7 * k + i) == i
  {
  }

  /** A rotating schedule with a positive cycle repeats every 7 * cycle days, in both directions. */
  lemma RotationRepeats(weeks: seq<Days>, cycle: Option<int>, anchor: Option<Ordinal>, day: Ordinal, k: int)
    requires Cycle(weeks, cycle) > 0
    ensures var s := Rotating(weeks, cycle, anchor);
            WindowsFor(s, day + 7 * (k * Cycle(weeks, cycle))) == WindowsFor(s, day) && WindowsFor(s, day).Ok?
  {
    var c := Cycle(weeks, cycle);
    if weeks != [] && anchor.Some? {
      WeekIndexRepeats(day, anchor.value, c, k);
      WeekIndexInRange(day, anchor.value, c);
      WeekdayRepeats(day, k * c);
    }
  }

  /** The windows of the week that is i weeks into the cycle are those of the i-th definition. */
  lemma RotationFollowsWeeks(weeks: seq<Days>, anchor: Ordinal, day: Ordinal, i: nat)
    requires i < |weeks| && anchor + 7 * i <= day < anchor + 7 * i + 7
    ensures WindowsFor(Rotating(weeks, None, Some(anchor)), day) == Ok(WindowsOn(weeks[i], Weekday(day)))
  {
    assert FloorDiv7(day - anchor) == i;
    UniqueMod(i, 0, i, |weeks|);
    hide FloorDiv7;
  }

  /** A rotating schedule fails exactly when its cycle is zero or too negative for its weeks. */
  lemma RotationFailsExactly(weeks: seq<Days>, cycle: Option<int>, anchor: Ordinal, day: Ordinal)
    requires weeks != []
    ensures var s, c := Rotating(weeks, cycle, Some(anchor)), Cycle(weeks, cycle);
            WindowsFor(s, day).Err? <==> c == 0 || (c < 0 && WeekIndex(day, anchor, c) < -|weeks|)
  {
    if Cycle(weeks, cycle) > 0 { WeekIndexInRange(day, anchor, Cycle(weeks, cycle)); }
  }

  /**
    Which week a rotation uses, for any cycle: with r weeks over after full cycles, counted with the
    sign of the cycle, the r-th definition, or from the end if r is negative; none if there are too few
    definitions, and a failure if there are too few to count back.
  */
  lemma RotationByRemainder(weeks: seq<Days>, cycle: int, anchor: Ordinal, day: Ordinal, q: int, r: int)
    requires weeks != [] && cycle != 0 && 7 * (q * cycle + r) <= day - anchor < 7 * (q * cycle + r) + 7
    requires 0 <= r < cycle || cycle < r <= 0
    ensures WindowsFor(Rotating(weeks, Some(cycle), Some(anchor)), day) ==
            if r >= |weeks| then Ok([])
            else if r >= 0 then Ok(WindowsOn(weeks[r], Weekday(day)))
            else if |weeks| + r >= 0 then Ok(WindowsOn(weeks[|weeks| + r], Weekday(day)))
            else Err(IndexError)
  {
    var elapsed := q * cycle + r;
    assert FloorDiv7(day - anchor) == elapsed;
    if cycle > 0 {
      UniqueMod(elapsed, q, r, cycle);
    } else {
      assert -elapsed == q * -cycle + -r;
      UniqueMod(-elapsed, q, -r, -cycle);
    }
  }

  /** A missing cycle is the number of definitions; a rotation without definitions or anchor has no windows. */
  lemma RotationDefaults(weeks: seq<Days>, cycle: Option<int>, anchor: Option<Ordinal>, day: Ordinal)
    ensures weeks == [] || anchor == None ==> WindowsFor(Rotating(weeks, cycle, anchor), day) == Ok([])
    ensures weeks != [] ==>
              WindowsFor(Rotating(weeks, None, anchor), day) == WindowsFor(Rotating(weeks, Some(|weeks|), anchor), day)
  {
  }

  // ---------- the other schedules ----------

  /** A fixed schedule uses the definition of the weekday, counted from a known Monday. */
  lemma FixedWindows(days: Days, k: int, i: nat)
    requires i < 7
    ensures WindowsFor(Fixed(days), 739873 + 7 * k + i) == Ok(if i in days then days[i] else [])
  {
    MondaysAreZero(k, i);
  }

  /** A custom schedule has windows on its listed dates only; a flexible one has its window on every date. */
  lemma DatedWindows(dates: map<Ordinal, seq<Window>>, window: Option<Window>, day: Ordinal)
    ensures day in dates ==> WindowsFor(Custom(dates), day) == Ok(dates[day])
    ensures day !in dates ==> WindowsFor(Custom(dates), day) == Ok([])
    ensures window.Some? ==> WindowsFor(Flexible(window), day) == Ok([window.value])
    ensures window.None? ==> WindowsFor(Flexible(window), day) == Ok([])
    ensures WindowsFor(Other, day) == Ok([])
  {
  }

  // ---------- instants and lengths ----------

  /**
    The instants of an occurrence, in minutes: the day's midnight plus the window's times, the end a
    day later if it is not after the start, each less the offset that holds at that local time.
  */
  lemma InstantsOf(day: Ordinal, w: Window, offset: Minute -> int)
    ensures var start := 1440 * day + w.start;
            var end := 1440 * day + w.end + (if w.start < w.end then 0 else 1440);
            Make(day, w, offset) == Occurrence(start - offset(start), end - offset(end))
  {
  }


  /** On the local clock every window is longer than zero and at most a day. */
  lemma LocalLength(day: Ordinal, w: Window)
    requires ClockTimes(w)
    ensures 0 < Lay(day, w).end - Lay(day, w).start <= DAY_MINUTES
    ensures Lay(day, w).end - Lay(day, w).start == DAY_MINUTES <==> w.start == w.end
    ensures Lay(day, w).start / DAY_MINUTES == day
  {
  }

  /**
    In UTC a window keeps its length exactly when the offset is the same at both ends, and ends
    after it starts exactly when the clock is not set forward by its whole length or more.
  */
  lemma UtcLength(day: Ordinal, w: Window, offset: Minute -> int)
    requires ClockTimes(w)
    ensures var l, o := Lay(day, w), Make(day, w, offset);
            (o.endUtc - o.startUtc == l.end - l.start <==> offset(l.start) == offset(l.end)) &&
            (o.startUtc < o.endUtc <==> offset(l.end) - offset(l.start) < l.end - l.start)
  {
  }

  /** A window inside a spring gap: 02:30 to 03:00 when 02:00 becomes 03:00 ends before it starts. */
  lemma GapReversesWindow(day: Ordinal)
    ensures var w := Window(150, 180);
            var offset := (t: Minute) => if t < day * DAY_MINUTES + 180 then 60 else 120;
            ClockTimes(w) && Make(day, w, offset).endUtc < Make(day, w, offset).startUtc
  {
  }
}
