/** Which statuses and durations attendance can derive for a reachable shift. */
module AttendanceStatus {
  import opened Common
  import opened Clock
  import opened ShiftModel
  import opened ShiftSteps
  import opened ShiftReplay
  import opened ShiftInvariant
  import opened ShiftHistory

  /** Early leave and overtime exclude each other for any shift row whatever. */
  lemma EarlyExcludesOvertime(s: Shift, breakSeconds: int, idleSeconds: int)
    ensures var d := ComputeDurations(s, breakSeconds, idleSeconds); d.early <= 0 || d.overtime <= 0
  {
  }

  /**
    Lateness, early leave and overtime measured in microseconds: each is the largest whole number
    of seconds that fits, lateness counting from the end of the grace period.
  */
  lemma DurationsMeasure(s: Shift, breakSeconds: int, idleSeconds: int)
    requires s.actualStart.Some? && s.actualEnd.Some? && s.terms.schedStart.Some? && s.terms.schedEnd.Some?
    ensures var d, p := ComputeDurations(s, breakSeconds, idleSeconds), s.terms.policy;
            var behind := s.actualStart.value - s.terms.schedStart.value - p.lateThresholdMin * 60_000_000;
            var over := s.actualEnd.value - s.terms.schedEnd.value;
            (if over < 0 then d.overtime == 0 && 0 <= -over - MICROS * d.early < MICROS
             else d.early == 0 &&
                  if p.allowOvertime then 0 <= over - MICROS * d.overtime < MICROS else d.overtime == 0) &&
            (s.actualStart.value >= s.terms.schedStart.value ==>
               if behind < 0 then d.late == 0 else 0 <= behind - MICROS * d.late < MICROS) &&
            (s.actualStart.value < s.terms.schedStart.value && p.lateThresholdMin >= 0 ==> d.late == 0)
  {
  }

  /** A shift ended before its scheduled end was force-stopped or allowed to leave early. */
  lemma EndedEarly(terms: Terms, v: View, now: Time)
    requires ViewOk(terms, v, now) && IsFinished(v.state)
    requires terms.schedEnd.Some? && v.end.value < terms.schedEnd.value
    ensures v.state.ForceStopped? || (v.state.Completed? && terms.policy.allowEarlyClockout)
  {
  }

  lemma FinishedHasEnds(terms: Terms, v: View, now: Time)
    requires ViewOk(terms, v, now) && IsFinished(v.state)
    ensures v.start.Some? && v.end.Some?
  {
  }

  /**
    ABSENT is never derived; EARLY_LEAVE needs a force-stop or a policy that allows early
    clock-out; a shift that is not finished is PARTIAL, MISSED_SHIFT or REST_DAY; PRESENT means
    neither late, early nor overtime.
  */
  lemma StatusesThatOccur(tb: Tables, now: Time, sid: ShiftId)
    requires Reachable(tb, now) && sid in tb.shifts
    ensures var s, status, d := tb.shifts[sid], FreshRow(tb, sid).status, FreshRow(tb, sid).durations;
            !status.Absent? &&
            (status.EarlyLeave? ==>
               s.state.ForceStopped? || (s.state.Completed? && s.terms.policy.allowEarlyClockout)) &&
            (status.Overtime? ==> s.terms.policy.allowOvertime) &&
            (status.Partial? <==> IsActive(s.state)) &&
            (status.MissedShift? <==> s.state.Missed?) &&
            (status.RestDay? <==> s.state.Cancelled?) &&
            (status.Present? <==> IsFinished(s.state) && d.late <= 0 && d.early <= 0 && d.overtime <= 0) &&
            (status.Late? ==> d.late > 0 && d.early <= 0 && d.overtime <= 0) &&
            (status.EarlyLeave? ==> d.early > 0) && (status.Overtime? ==> d.overtime > 0)
  {
    ReachableInv(tb, now);
    var s := tb.shifts[sid];
    assert ShiftOk(tb, sid);
    if IsFinished(s.state) {
      var v := View(s.state, s.actualStart, s.actualEnd, BreaksOf(tb, sid));
      RowsAreOk(tb, now, sid);
      FinishedHasEnds(s.terms, v, now);
      hide ViewOk;
      if s.terms.schedEnd.Some? && v.end.value < s.terms.schedEnd.value {
        EndedEarly(s.terms, v, now);
      }
    }
    StatusOfShift(s, BreakSeconds(BreaksOf(tb, sid)), IdleSeconds(IdleOf(tb, sid)));
    hide *;
  }

  lemma StatusOfShift(s: Shift, breakSeconds: int, idleSeconds: int)
    requires !s.state.Scheduled?
    requires IsFinished(s.state) ==> s.actualStart.Some? && s.actualEnd.Some?
    requires IsFinished(s.state) && s.terms.schedEnd.Some? && s.actualEnd.value < s.terms.schedEnd.value ==>
               s.state.ForceStopped? || (s.state.Completed? && s.terms.policy.allowEarlyClockout)
    ensures var d := ComputeDurations(s, breakSeconds, idleSeconds);
            var status := DeriveStatus(s, d);
            !status.Absent? &&
            (status.EarlyLeave? ==>
               s.state.ForceStopped? || (s.state.Completed? && s.terms.policy.allowEarlyClockout)) &&
            (status.Overtime? ==> s.terms.policy.allowOvertime) &&
            (status.Partial? <==> IsActive(s.state)) &&
            (status.MissedShift? <==> s.state.Missed?) &&
            (status.RestDay? <==> s.state.Cancelled?) &&
            (status.Present? <==> IsFinished(s.state) && d.late <= 0 && d.early <= 0 && d.overtime <= 0) &&
            (status.Late? ==> d.late > 0 && d.early <= 0 && d.overtime <= 0) &&
            (status.EarlyLeave? ==> d.early > 0) && (status.Overtime? ==> d.overtime > 0)
  {
  }

  /** How late a manual start inside a window of latestMin minutes can be counted. */
  lemma ManualStartLateness(tb: Tables, now: Time, sid: ShiftId)
    requires Reachable(tb, now) && sid in tb.shifts
    requires Log(tb.events, sid) != [] && Log(tb.events, sid)[0].kind.EvShiftStart?
    requires tb.shifts[sid].terms.schedStart.Some? && tb.shifts[sid].terms.policy.latestMin.Some?
    ensures var p := tb.shifts[sid].terms.policy;
            0 <= FreshRow(tb, sid).durations.late <= Max(0, 60 * (p.latestMin.value - p.lateThresholdMin))
  {
    var s, log := tb.shifts[sid], Log(tb.events, sid);
    LogRebuildsRows(tb, now, sid);
    FirstEventStarts(s.terms, log);
    LateInWindow(s, BreakSeconds(BreaksOf(tb, sid)), IdleSeconds(IdleOf(tb, sid)));
    hide Reachable, Replay, Log, ComputeDurations, BreakSeconds, IdleSeconds, BreaksOf, IdleOf;
  }

  lemma LateInWindow(s: Shift, breakSeconds: int, idleSeconds: int)
    requires s.actualStart.Some? && s.terms.schedStart.Some? && s.terms.policy.latestMin.Some?
    requires !TooLate(s.terms, s.actualStart.value)
    ensures var p := s.terms.policy;
            var d := ComputeDurations(s, breakSeconds, idleSeconds);
            0 <= d.late <= Max(0, 60 * (p.latestMin.value - p.lateThresholdMin))
  {
    WholeSecondsMonotone(s.actualStart.value - s.terms.schedStart.value, MINUTE * s.terms.policy.latestMin.value);
    WholeSecondsOfMultiple(60 * s.terms.policy.latestMin.value);
    hide WholeSeconds;
  }

  /** The same bound for an automatic start does not exist: it may come any time after schedule. */
  lemma AutoStartIsNeverEarly(tb: Tables, now: Time, sid: ShiftId)
    requires Reachable(tb, now) && sid in tb.shifts
    requires Log(tb.events, sid) != [] && Log(tb.events, sid)[0].kind.EvAutoStart?
    ensures var s := tb.shifts[sid];
            s.terms.policy.autoStart && s.terms.schedStart.Some? && s.actualStart.Some? &&
            s.actualStart.value >= s.terms.schedStart.value
  {
    LogRebuildsRows(tb, now, sid);
    FirstEventStarts(tb.shifts[sid].terms, Log(tb.events, sid));
  }
}
