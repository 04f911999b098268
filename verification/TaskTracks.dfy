/**
  What task timing (backend/app/projects/router.py) records for one employee, read off the calls:
  at any time the employee works on one task or none, and each stretch of work becomes an entry.
*/
module TaskTracks {
  import opened Common
  import opened Clock
  import opened TaskTimer

  /** A stretch of work on one task, which may still go on. */
  datatype Stretch = Stretch(task: nat, since: Time, until: Option<Time>)

  /** The stretches so far; the task being worked on, if any, is that of the last one. */
  datatype Track = Track(done: seq<Stretch>, current: Option<Stretch>)

  function Interrupted(track: Track, t: Time): seq<Stretch> {
    match track.current
    case None => track.done
    case Some(s) => track.done + [Stretch(s.task, s.since, Some(t))]
  }

  /** The employee's own calls: a start leaves the current task for a new one, a stop of the current task ends it. */
  function Follow(calls: seq<Call>, employee: nat): Track {
    if calls == [] then Track([], None)
    else
      var track := Follow(calls[..|calls| - 1], employee);
      match calls[|calls| - 1]
      case Start(t, e, task) =>
        if e == employee then Track(Interrupted(track, t), Some(Stretch(task, t, None))) else track
      case Stop(t, e, task) =>
        if e == employee && track.current.Some? && track.current.value.task == task
        then Track(Interrupted(track, t), None) else track
  }

  function AllOf(track: Track): seq<Stretch> {
    track.done + (match track.current case None => [] case Some(s) => [s])
  }

  function Recorded(employee: nat, s: Stretch): Entry {
    Entry(employee, s.task, s.since, s.until,
          match s.until case None => None case Some(t) => Some(WholeSeconds(t - s.since)))
  }

  function AllRecorded(employee: nat, ss: seq<Stretch>): seq<Entry> {
    seq(|ss|, i requires 0 <= i < |ss| => Recorded(employee, ss[i]))
  }

  /** The employee's entries, in order. */
  function EntriesOf(es: seq<Entry>, employee: nat): seq<Entry> {
    if es == [] then []
    else EntriesOf(es[..|es| - 1], employee) + (if es[|es| - 1].employee == employee then [es[|es| - 1]] else [])
  }

  ghost predicate WellFormed(track: Track) {
    (forall i :: 0 <= i < |track.done| ==> track.done[i].until.Some?) &&
    (track.current.Some? ==> track.current.value.until.None?)
  }

  lemma {:induction false} FollowIsWellFormed(calls: seq<Call>, employee: nat)
    ensures WellFormed(Follow(calls, employee))
  {
    if calls != [] { FollowIsWellFormed(calls[..|calls| - 1], employee); }
  }

  lemma EntriesOfMore(es: seq<Entry>, e: Entry, employee: nat)
    ensures EntriesOf(es + [e], employee) == EntriesOf(es, employee) + (if e.employee == employee then [e] else [])
  {
    assert (es + [e])[..|es|] == es;
  }

  /** Stopping touches the stopped employee's entries only, and those one by one. */
  lemma {:induction false} EntriesOfStopped(es: seq<Entry>, stopped: nat, t: Time, employee: nat)
    ensures EntriesOf(StopOpen(es, stopped, t), employee) ==
            if employee == stopped then StopOpen(EntriesOf(es, employee), employee, t) else EntriesOf(es, employee)
  {
    if es != [] {
      var n := |es| - 1;
      EntriesOfStopped(es[..n], stopped, t, employee);
      assert StopOpen(es, stopped, t)[..n] == StopOpen(es[..n], stopped, t);
      var before, last := EntriesOf(es[..n], employee), es[n];
      assert EntriesOf(es, employee) == before + (if last.employee == employee then [last] else []);
      if employee == stopped && last.employee == employee {
        assert StopOpen(before + [last], employee, t) ==
               StopOpen(before, employee, t) + [if IsOpen(last, employee) then Stopped(last, t) else last];
      }
    }
  }

  lemma StopRecorded(track: Track, employee: nat, t: Time)
    requires WellFormed(track)
    ensures StopOpen(AllRecorded(employee, AllOf(track)), employee, t) == AllRecorded(employee, Interrupted(track, t))
  {
  }

  lemma RecordedMore(employee: nat, ss: seq<Stretch>, s: Stretch)
    ensures AllRecorded(employee, ss + [s]) == AllRecorded(employee, ss) + [Recorded(employee, s)]
  {
  }

  lemma {:induction false} EntriesOfMember(es: seq<Entry>, employee: nat, e: Entry)
    ensures e in EntriesOf(es, employee) <==> e in es && e.employee == employee
  {
    if es != [] {
      var n := |es| - 1;
      EntriesOfMember(es[..n], employee, e);
      assert es == es[..n] + [es[n]];
    }
  }

  /** The employee's open entry is for a task exactly when the track's current stretch is. */
  lemma OpenIsCurrent(es: seq<Entry>, employee: nat, task: nat, track: Track)
    requires WellFormed(track) && EntriesOf(es, employee) == AllRecorded(employee, AllOf(track))
    ensures IsOpenOn(es, employee, task) <==> track.current.Some? && track.current.value.task == task
  {
    var mine := EntriesOf(es, employee);
    forall e ensures e in mine <==> e in es && e.employee == employee { EntriesOfMember(es, employee, e); }
    if IsOpenOn(es, employee, task) {
      var i :| 0 <= i < |es| && IsOpen(es[i], employee) && es[i].task == task;
      assert es[i] in mine;
      var k :| 0 <= k < |mine| && mine[k] == es[i];
      assert mine[k] == Recorded(employee, AllOf(track)[k]);
    }
    if track.current.Some? && track.current.value.task == task {
      assert mine[|track.done|] == Recorded(employee, track.current.value);
      assert mine[|track.done|] in mine;
      var i :| 0 <= i < |es| && es[i] == mine[|track.done|];
    }
  }

  lemma StartFollows(es: seq<Entry>, track: Track, t: Time, e: nat, task: nat, employee: nat)
    requires WellFormed(track) && EntriesOf(es, employee) == AllRecorded(employee, AllOf(track))
    ensures EntriesOf(AfterStart(es, e, task, t), employee) ==
            if e == employee then AllRecorded(employee, Interrupted(track, t) + [Stretch(task, t, None)])
            else AllRecorded(employee, AllOf(track))
  {
    EntriesOfMore(StopOpen(es, e, t), Entry(e, task, t, None, None), employee);
    EntriesOfStopped(es, e, t, employee);
    StopRecorded(track, employee, t);
    RecordedMore(employee, Interrupted(track, t), Stretch(task, t, None));
    hide EntriesOf, StopOpen, AllRecorded, Interrupted, AllOf;
  }

  /**
    After any calls, an employee's entries are the stretches of work that the employee's own calls
    describe: which tasks, from when to when, with their whole seconds.
  */
  lemma {:induction false} EntriesFollowCalls(calls: seq<Call>, employee: nat)
    ensures EntriesOf(Run(calls), employee) == AllRecorded(employee, AllOf(Follow(calls, employee)))
  {
    if calls != [] {
      var n := |calls| - 1;
      var es, track := Run(calls[..n]), Follow(calls[..n], employee);
      EntriesFollowCalls(calls[..n], employee);
      FollowIsWellFormed(calls[..n], employee);
      hide EntriesOf, AllRecorded, Interrupted;
      match calls[n]
      case Start(t, e, task) =>
        StartFollows(es, track, t, e, task, employee);
      case Stop(t, e, task) =>
        if e == employee { OpenIsCurrent(es, employee, task, track); }
        EntriesOfStopped(es, e, t, employee);
        StopRecorded(track, employee, t);
        assert Interrupted(track, t) + [] == Interrupted(track, t);
    }
  }
}
