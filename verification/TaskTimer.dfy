/** Task time tracking: start_task and stop_task of backend/app/projects/router.py. */
module TaskTimer {
  import opened Common
  import opened Clock

  datatype Entry = Entry(
    employee: nat,
    task: nat,
    startedAt: Time,
    endedAt: Option<Time>,
    duration: Option<int>)

  /** Entries of one employee follow one another up to now; only the latest may be open. */
  ghost predicate Tiled(es: seq<Entry>, now: Time) {
    (forall i :: 0 <= i < |es| ==> es[i].startedAt <= now) &&
    (forall i :: 0 <= i < |es| && es[i].endedAt.Some? ==>
       es[i].startedAt <= es[i].endedAt.value <= now &&
       es[i].duration == Some(WholeSeconds(es[i].endedAt.value - es[i].startedAt))) &&
    (forall i :: 0 <= i < |es| && es[i].endedAt.None? ==> es[i].duration.None?) &&
    (forall i, j :: 0 <= i < j < |es| && es[i].employee == es[j].employee ==>
       es[i].endedAt.Some? && es[i].endedAt.value <= es[j].startedAt)
  }

  function Stopped(e: Entry, t: Time): Entry {
    e.(endedAt := Some(t), duration := Some(WholeSeconds(t - e.startedAt)))
  }

  predicate IsOpen(e: Entry, employee: nat) {
    e.employee == employee && e.endedAt.None?
  }

  /** Stops the employee's open entries (there is at most one). */
  function StopOpen(es: seq<Entry>, employee: nat, t: Time): (r: seq<Entry>)
    ensures |r| == |es|
    ensures forall i :: 0 <= i < |es| ==> r[i] == if IsOpen(es[i], employee) then Stopped(es[i], t) else es[i]
  {
    seq(|es|, i requires 0 <= i < |es| => if IsOpen(es[i], employee) then Stopped(es[i], t) else es[i])
  }

  /** Starting a task stops whatever the employee had open and opens a new entry. */
  function AfterStart(es: seq<Entry>, employee: nat, task: nat, t: Time): seq<Entry> {
    StopOpen(es, employee, t) + [Entry(employee, task, t, None, None)]
  }

  predicate IsOpenOn(es: seq<Entry>, employee: nat, task: nat) {
    exists i :: 0 <= i < |es| && IsOpen(es[i], employee) && es[i].task == task
  }

  /** Stopping is refused unless the employee's open entry is for this task. */
  function AfterStop(es: seq<Entry>, employee: nat, task: nat, t: Time): Option<seq<Entry>> {
    if IsOpenOn(es, employee, task) then Some(StopOpen(es, employee, t)) else None
  }

  datatype Call = Start(at: Time, employee: nat, task: nat) | Stop(at: Time, employee: nat, task: nat)

  function Exec(es: seq<Entry>, c: Call): seq<Entry> {
    match c
    case Start(t, employee, task) => AfterStart(es, employee, task, t)
    case Stop(t, employee, task) =>
      match AfterStop(es, employee, task, t) case None => es case Some(r) => r
  }

  function Run(calls: seq<Call>): seq<Entry> {
    if calls == [] then [] else Exec(Run(calls[..|calls| - 1]), calls[|calls| - 1])
  }

  ghost predicate InOrder(calls: seq<Call>, now: Time) {
    (forall i, j :: 0 <= i < j < |calls| ==> calls[i].at <= calls[j].at) &&
    (forall i :: 0 <= i < |calls| ==> calls[i].at <= now)
  }

  // ---------- tiling ----------

  lemma TiledLater(es: seq<Entry>, now: Time, later: Time)
    requires Tiled(es, now) && now <= later
    ensures Tiled(es, later)
  {
  }

  lemma StopOpenTiled(es: seq<Entry>, employee: nat, t: Time)
    requires Tiled(es, t)
    ensures Tiled(StopOpen(es, employee, t), t)
    ensures forall i :: 0 <= i < |es| ==> !IsOpen(StopOpen(es, employee, t)[i], employee)
  {
  }

  lemma StartTiled(es: seq<Entry>, employee: nat, task: nat, t: Time)
    requires Tiled(es, t)
    ensures Tiled(AfterStart(es, employee, task, t), t)
  {
    StopOpenTiled(es, employee, t);
  }

  /** After any calls, one employee's entries are ordered, disjoint, and at most one is open. */
  lemma {:induction false} RunIsTiled(calls: seq<Call>, now: Time)
    requires InOrder(calls, now)
    ensures Tiled(Run(calls), now)
  {
    if calls != [] {
      var n := |calls| - 1;
      var c := calls[n];
      RunIsTiled(calls[..n], c.at);
      var es := Run(calls[..n]);
      match c {
        case Start(t, employee, task) => StartTiled(es, employee, task, t);
        case Stop(t, employee, task) => StopOpenTiled(es, employee, t);
      }
      TiledLater(Run(calls), c.at, now);
    }
  }

  lemma OneOpenEntryEach(calls: seq<Call>, now: Time, i: nat, j: nat)
    requires InOrder(calls, now)
    requires i < |Run(calls)| && j < |Run(calls)|
    requires Run(calls)[i].employee == Run(calls)[j].employee
    requires Run(calls)[i].endedAt.None? && Run(calls)[j].endedAt.None?
    ensures i == j
  {
    RunIsTiled(calls, now);
  }

  // ---------- total time ----------

  function TotalSeconds(es: seq<Entry>, employee: nat): int {
    if es == [] then 0
    else
      var e := es[|es| - 1];
      TotalSeconds(es[..|es| - 1], employee) +
      (if e.employee == employee && e.duration.Some? then e.duration.value else 0)
  }

  /** The latest recorded stop of the employee at or after from. */
  function LastStop(es: seq<Entry>, employee: nat, from: Time): Time {
    if es == [] then from
    else
      var e := es[|es| - 1];
      if e.employee == employee && e.endedAt.Some? then e.endedAt.value else LastStop(es[..|es| - 1], employee, from)
  }

  lemma {:induction false} TotalFits(es: seq<Entry>, employee: nat, from: Time, until: Time)
    requires Tiled(es, until)
    requires forall i :: 0 <= i < |es| && es[i].employee == employee ==> from <= es[i].startedAt
    ensures 0 <= MICROS * TotalSeconds(es, employee) <= LastStop(es, employee, from) - from
    ensures LastStop(es, employee, from) == from ||
            exists i :: 0 <= i < |es| && es[i].employee == employee &&
              es[i].endedAt == Some(LastStop(es, employee, from))
  {
    if es != [] {
      var n := |es| - 1;
      var e := es[n];
      TotalFits(es[..n], employee, from, until);
      var before := LastStop(es[..n], employee, from);
      if i :| 0 <= i < n && es[..n][i].employee == employee && es[..n][i].endedAt == Some(before) {
        assert es[i] == es[..n][i];
        assert e.employee == employee ==> before <= e.startedAt;
      }
      if e.employee == employee && e.endedAt.Some? {
        TruncationLosesUnderOneSecond(e.endedAt.value - e.startedAt);
      }
    }
  }

  /**
    The durations recorded for an employee never add up to more than the time from the start of
    the first entry to the last stop or switch.
  */
  lemma TotalNeverExceedsSpan(calls: seq<Call>, now: Time, employee: nat, first: nat)
    requires InOrder(calls, now)
    requires first < |Run(calls)| && Run(calls)[first].employee == employee
    requires forall i :: 0 <= i < first ==> Run(calls)[i].employee != employee
    ensures var es := Run(calls);
            var from := es[first].startedAt;
            0 <= MICROS * TotalSeconds(es, employee) <= LastStop(es, employee, from) - from <= now - from
  {
    RunIsTiled(calls, now);
    var es := Run(calls);
    var from := es[first].startedAt;
    forall i | 0 <= i < |es| && es[i].employee == employee ensures from <= es[i].startedAt {
      if i > first { assert es[first].endedAt.value <= es[i].startedAt; }
    }
    TotalFits(es, employee, from, now);
  }

  // ---------- the endpoints ----------

  class TimeEntries {
    var entries: seq<Entry>
    ghost var clock: Time

    ghost predicate Valid()
      reads this
    {
      Tiled(entries, clock)
    }

    constructor (ghost start: Time)
      ensures Valid() && entries == [] && clock == start
    {
      entries := [];
      clock := start;
    }

    /** The index of the first open entry of the employee, for one task or for any. */
    method FindOpen(employee: nat, task: Option<nat>) returns (index: Option<nat>)
      ensures match index
              case Some(i) => i < |entries| && IsOpen(entries[i], employee) &&
                (task.Some? ==> entries[i].task == task.value)
              case None => forall i :: 0 <= i < |entries| && IsOpen(entries[i], employee) ==>
                task.Some? && entries[i].task != task.value
    {
      for i := 0 to |entries|
        invariant forall j :: 0 <= j < i && IsOpen(entries[j], employee) ==> task.Some? && entries[j].task != task.value
      {
        if IsOpen(entries[i], employee) && (task.None? || entries[i].task == task.value) { return Some(i); }
      }
      return None;
    }

    lemma StopAt(i: nat, employee: nat, t: Time)
      requires Valid() && i < |entries| && IsOpen(entries[i], employee)
      ensures StopOpen(entries, employee, t) == entries[i := Stopped(entries[i], t)]
    {
      forall j | 0 <= j < |entries| && j != i ensures !IsOpen(entries[j], employee) {
        if j < i {
          assert entries[j].employee == employee ==> entries[j].endedAt.Some?;
        }
      }
    }

    method StartTask(employee: nat, task: nat, t: Time)
      requires Valid() && clock <= t
      modifies this
      ensures Valid() && clock == t && entries == AfterStart(old(entries), employee, task, t)
    {
      hide Tiled;
      TiledLater(entries, clock, t);
      clock := t;
      StartTiled(entries, employee, task, t);
      var open := FindOpen(employee, None);
      if open.Some? {
        StopAt(open.value, employee, t);
        var e := entries[open.value];
        entries := entries[open.value := e.(endedAt := Some(t), duration := Some(WholeSeconds(t - e.startedAt)))];
      } else {
        assert StopOpen(entries, employee, t) == entries;
      }
      entries := entries + [Entry(employee, task, t, None, None)];
    }

    /** Returns false (404) when the employee has no open entry for the task. */
    method StopTask(employee: nat, task: nat, t: Time) returns (found: bool)
      requires Valid() && clock <= t
      modifies this
      ensures Valid() && clock == t
      ensures match AfterStop(old(entries), employee, task, t)
              case Some(es) => found && entries == es
              case None => !found && entries == old(entries)
    {
      hide Tiled;
      TiledLater(entries, clock, t);
      clock := t;
      var open := FindOpen(employee, Some(task));
      if open.None? { return false; }
      StopAt(open.value, employee, t);
      StopOpenTiled(entries, employee, t);
      var e := entries[open.value];
      entries := entries[open.value := e.(endedAt := Some(t), duration := Some(WholeSeconds(t - e.startedAt)))];
      return true;
    }
  }
}
