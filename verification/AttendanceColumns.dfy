/**
  Every column of an attendance row (backend/app/shifts/attendance.py) against the shift, its breaks
  and its idle intervals, whatever state the shift is in. Lengths are exact sums in microseconds,
  of which the row keeps whole seconds.
*/
module AttendanceColumns {
  import opened Common
  import opened Clock
  import opened ShiftModel
  import opened ShiftSteps
  import opened ShiftInvariant
  import opened ShiftHistory
  import opened TimeAccounting

  /** The exact length of all intervals. */
  function ExactLength(ivs: seq<Interval>): int {
    if ivs == [] then 0 else ivs[0].end - ivs[0].start + ExactLength(ivs[1..])
  }

  /** The exact length of the breaks that are over. */
  function ClosedLength(bs: seq<Break>): int {
    if bs == [] then 0
    else (match bs[0].endedAt case None => 0 case Some(end) => end - bs[0].startedAt) + ClosedLength(bs[1..])
  }

  /** What is kept of n lengths that add up to exact: each loses less than a second. */
  predicate Keeps(seconds: int, exact: int, n: nat) {
    0 <= exact - 1_000_000 * seconds <= n * 999_999
  }

  lemma {:induction false} ExactLengthMore(ivs: seq<Interval>, iv: Interval)
    ensures ExactLength(ivs + [iv]) == ExactLength(ivs) + iv.end - iv.start
  {
    if ivs == [] {
      assert [iv][1..] == [];
    } else {
      assert (ivs + [iv])[1..] == ivs[1..] + [iv];
      ExactLengthMore(ivs[1..], iv);
    }
  }

  /** An interval that ends before it starts counts as negative, truncated toward zero like any other. */
  lemma {:induction false} IdleSecondsAre(ivs: seq<Interval>)
    ensures -|ivs| * 999_999 <= ExactLength(ivs) - 1_000_000 * IdleSeconds(ivs) <= |ivs| * 999_999
    ensures (forall i :: 0 <= i < |ivs| ==> ivs[i].start <= ivs[i].end) ==>
              Keeps(IdleSeconds(ivs), ExactLength(ivs), |ivs|)
    ensures (forall i :: 0 <= i < |ivs| ==> ivs[i].start >= ivs[i].end) ==>
              Keeps(-IdleSeconds(ivs), -ExactLength(ivs), |ivs|)
  {
    if ivs != [] {
      var n := |ivs| - 1;
      IdleSecondsAre(ivs[..n]);
      ExactLengthMore(ivs[..n], ivs[n]);
      TruncatesTowardZero(ivs[n].end - ivs[n].start);
      assert ivs == ivs[..n] + [ivs[n]];
    }
  }

  lemma {:induction false} ClosedLengthMore(bs: seq<Break>, b: Break)
    ensures ClosedLength(bs + [b]) == ClosedLength(bs) + if b.endedAt.Some? then b.endedAt.value - b.startedAt else 0
  {
    if bs == [] {
      assert [b][1..] == [];
    } else {
      assert (bs + [b])[1..] == bs[1..] + [b];
      ClosedLengthMore(bs[1..], b);
    }
  }

  lemma {:induction false} BreakSecondsAre(bs: seq<Break>)
    requires forall i :: 0 <= i < |bs| && bs[i].endedAt.Some? ==> bs[i].startedAt <= bs[i].endedAt.value
    ensures Keeps(BreakSeconds(bs), ClosedLength(bs), |bs|)
  {
    if bs != [] {
      var n := |bs| - 1;
      BreakSecondsAre(bs[..n]);
      ClosedLengthMore(bs[..n], bs[n]);
      assert bs == bs[..n] + [bs[n]];
    }
  }

  // ---------- the row ----------

  /** The row names its shift, repeats its times, and keeps its idle time and its closed breaks. */
  lemma ColumnsOfRow(tb: Tables, now: Time, sid: ShiftId)
    requires Reachable(tb, now) && sid in tb.shifts
    ensures var r, s := FreshRow(tb, sid), tb.shifts[sid];
            var ivs := if sid in tb.idle then tb.idle[sid] else [];
            r.shift == sid && r.schedStart == s.terms.schedStart && r.schedEnd == s.terms.schedEnd &&
            r.actualStart == s.actualStart && r.actualEnd == s.actualEnd &&
            Keeps(r.durations.breaks, ClosedLength(BreaksOf(tb, sid)), |BreaksOf(tb, sid)|) &&
            -|ivs| * 999_999 <= ExactLength(ivs) - 1_000_000 * r.durations.idle <= |ivs| * 999_999 &&
            ((forall i :: 0 <= i < |ivs| ==> ivs[i].start <= ivs[i].end) ==>
               Keeps(r.durations.idle, ExactLength(ivs), |ivs|))
  {
    BreaksAreTiled(tb, now, sid);
    BreakSecondsAre(BreaksOf(tb, sid));
    IdleSecondsAre(if sid in tb.idle then tb.idle[sid] else []);
    hide Reachable, BreakSeconds, IdleSeconds, ExactLength, ClosedLength, Keeps, WholeSeconds;
  }

  /**
    Lateness needs a start and a scheduled start, early leave and overtime an end and a scheduled
    end; each is 0 otherwise, and worked time is 0 while the shift is not over.
  */
  lemma DurationsNeedTimes(s: Shift, breakSeconds: int, idleSeconds: int)
    ensures var d := ComputeDurations(s, breakSeconds, idleSeconds);
            (s.actualStart.None? || s.actualEnd.None? ==> d.worked == 0) &&
            (s.actualStart.None? || s.terms.schedStart.None? ==> d.late == 0) &&
            (s.actualEnd.None? || s.terms.schedEnd.None? ==> d.early == 0 && d.overtime == 0)
  {
  }

  /** A shift that is under way is late by the time since the end of its grace period, also while it runs. */
  lemma LatenessIs(s: Shift, breakSeconds: int, idleSeconds: int)
    requires s.actualStart.Some? && s.terms.schedStart.Some? && s.terms.policy.lateThresholdMin >= 0
    ensures var late := ComputeDurations(s, breakSeconds, idleSeconds).late;
            var behind := s.actualStart.value - s.terms.schedStart.value - s.terms.policy.lateThresholdMin * 60_000_000;
            if behind < 0 then late == 0 else 0 <= behind - 1_000_000 * late <= 999_999
  {
  }

  /** The work date: that of the scheduled start, else of the actual one, else of the derivation itself. */
  lemma DerivationWrites(tb: Tables, sid: ShiftId, t: Time)
    requires sid in tb.shifts
    ensures var s := tb.shifts[sid];
            var moment := if s.terms.schedStart.Some? then s.terms.schedStart.value
                          else if s.actualStart.Some? then s.actualStart.value else t;
            Derive(tb, sid, t) ==
            tb.(attendance := tb.attendance[(s.terms.employee, moment / 86_400_000_000) := FreshRow(tb, sid)])
  {
    hide FreshRow;
  }

  // ---------- worked time ----------

  lemma {:induction false} ClosedIsAll(bs: seq<Break>, until: Time)
    requires forall i :: 0 <= i < |bs| ==> bs[i].endedAt.Some?
    ensures ClosedLength(bs) == BreakMicros(bs, until)
  {
    if bs != [] {
      var n := |bs| - 1;
      assert bs == bs[..n] + [bs[n]];
      ClosedIsAll(bs[..n], until);
      ClosedLengthMore(bs[..n], bs[n]);
    }
  }

  /**
    Worked time of a finished shift from exact lengths: what its breaks and, unless idle counts as
    work, its idle intervals leave of the time from start to end, but not less than 0. The row is off
    by less than a second for the shift and for each break and interval.
  */
  lemma WorkedIsWhatIsLeft(tb: Tables, now: Time, sid: ShiftId)
    requires Reachable(tb, now) && sid in tb.shifts
    requires tb.shifts[sid].state in {Completed, AutoCompleted, ForceStopped}
    ensures tb.shifts[sid].actualStart.Some? && tb.shifts[sid].actualEnd.Some?
    ensures var s, bs := tb.shifts[sid], BreaksOf(tb, sid);
            var ivs := if sid in tb.idle && !s.terms.policy.idleIsWork then tb.idle[sid] else [];
            var left := s.actualEnd.value - s.actualStart.value - ClosedLength(bs) - ExactLength(ivs);
            var worked := 1_000_000 * FreshRow(tb, sid).durations.worked;
            (forall i :: 0 <= i < |ivs| ==> ivs[i].start <= ivs[i].end) ==>
              0 <= worked && left - 999_999 <= worked && (worked == 0 || worked <= left + (|bs| + |ivs|) * 999_999)
  {
    FinishedIsTiled(tb, now, sid);
    FinishedTimeAddsUp(tb, now, sid);
    ColumnsOfRow(tb, now, sid);
    var s, bs, d := tb.shifts[sid], BreaksOf(tb, sid), FreshRow(tb, sid).durations;
    var ivs := if sid in tb.idle && !s.terms.policy.idleIsWork then tb.idle[sid] else [];
    TruncationLosesUnderOneSecond(s.actualEnd.value - s.actualStart.value);
    hide Reachable, FreshRow, BreakSeconds, IdleSeconds, WholeSeconds, ClosedLength, BreaksOf;
    assert ivs == [] ==> ExactLength(ivs) == 0;
    hide ExactLength;
  }
}
