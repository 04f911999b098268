# Verified model of the workforce-monitoring core

This project models the parts of the repository whose correctness does not show in any single
function, and proves what they keep over whole runs.

**The shift engine** (`backend/app/shifts`). `Organization` is an object holding the tables of one
organization: shifts, breaks, the append-only event log and the attendance rows. Its methods are
the operations of `state_machine.py`, `attendance.py`, `service.py` and `scheduler.py`, each tied
to a function on the tables (`ShiftSteps`). A history is any sequence of creations, client
requests, daily runs and sweeps under a clock that never goes back. The central result is that the
mutable rows always equal the replay of the log (`ShiftReplay`, `ShiftInvariant`); break geometry,
time accounting, reachable statuses and sweep completeness follow from it.

**The offline queue and ingestion** (`agent/src/Agent.Service`, `backend/app/ingestion`).
`SyncAgent` has the queue, the flush loop and the ingestion tables as objects; `SyncProtocol` is
the transition system of both parties, in which the network may lose, delay and repeat anything
and the agent may crash at any point.

**Supporting cores.** The task timer, productivity rollups, policy inheritance, schedule windows,
webhook delivery and settings merging, a module or two each.

Every event carries a key that is either sent by the client or made by the server from shift, kind
and time; the model keeps the two apart and lets client keys clash with one another, with the
`:be` suffix spelled out, as the unique constraint of the log sees them. Ids that the code draws
at random are inputs, and one that is already taken is refused. Times are microseconds.

## Where the code differs from what is said about it

The model follows the code. Each point is a lemma.

- Paused time counts as worked (`TimeAccounting.WorkedIsWorkingPlusPaused`), while section 5 of
  docs/04-shift-state-machine.md counts WORKING intervals only: a shift can be credited with a
  minute of work without a moment of WORKING (`ShiftCounterexamples.PausedIsWorked`). The documented
  rule holds exactly for shifts whose pauses take no time (`TimeAccounting.OnlyWorkingCountsExactly`).
- The design has an overlong break flagged; a break that is cut short by the end of the shift
  never is (`BreakFlags.ExceededExactly`, `ShiftCounterexamples.UnflaggedBreak`).
- A replayed event id is recognised in the whole organization, whatever shift or action it was
  used for. Aimed at a shift that has neither a schedule nor a start, it files an attendance row
  under today's date (`AttendanceAgreement.TodayIsUsedExactly`), which goes stale when the shift is
  started on another day (`ShiftCounterexamples.StaleRow`). A step makes a row stale, or gives a
  shift a row on a second date, exactly when such a row is already there
  (`AttendanceDates.GoesStaleExactly`, `AttendanceDates.SecondDateExactly`).
- A replay is a no-op for shifts, breaks and events, but it re-derives attendance: the row changes
  exactly when it does not already name the replayed shift
  (`ReplayInsertion.ResendKeepsAttendanceExactly`, `ShiftCounterexamples.ResendFlipsRow`).
- Without a latest clock-in the missed sweep uses a deadline of zero minutes although a manual
  start would still be accepted (`ShiftSweepLaws.MissedMeansTooLate`,
  `ShiftCounterexamples.MissedThoughStartable`).
- The daily run compares UTC dates with a local day, so a window starting on another UTC date is
  created again once its shift is over (`DailyShifts.DisagreeingDateIsRecreated`,
  `ShiftCounterexamples.WindowCreatedTwice`). A step gives an employee a second shift on one day
  exactly when its window starts on a taken date while nothing is active and, in a daily run, the
  planned day is free (`DailyShifts.SecondShiftExactly`, `DailyShifts.OneShiftPerDayExactly`).
- A policy level that is itself blocked still decides about the level below it, so it can lift an
  organization's ban on overrides (`PolicyInheritance.BlockedLevelReopens`). A ban binds, and
  section 5 of docs/07-rbac-and-policy-model.md is followed, exactly when no level between it and a
  more specific policy allows override (`PolicyInheritance.OrganizationBanBindsExactly`,
  `PolicyInheritance.RuleIsFollowedExactly`).
- Tracked time is productive plus neutral plus unproductive time only without custom categories
  (`Rollups.TrackedIsThreeCategoriesExactly`), and custom categories can take a team's indicator
  outside its members' (`Rollups.CustomCategoryBreaksBound`). It is the indicator of all its members'
  events, which lies between them, exactly when custom and built-in time weigh the same on average
  (`CustomCategories.GroupIsPooledExactly`, `CustomCategories.OneMemberExactly`).

## Model

| member | source | states |
|---|---|---|
| Organization.Organization.Start | backend/app/shifts/state_machine.py:101-153 | Starting tests replay, state and clock-in window in that order and then sets start, state, version and one event; a refusal changes nothing |
| Organization.Organization.Pause | backend/app/shifts/state_machine.py:156-211 | Pausing opens a break or merely pauses, within the policy's break rules |
| Organization.Organization.Resume | backend/app/shifts/state_machine.py:214-262 | Resuming closes the open break, flags it if overlong, and appends BREAK_END then RESUME; a clash of the BREAK_END key aborts everything |
| Organization.Organization.End | backend/app/shifts/state_machine.py:265-323 | Ending closes the open break unflagged and reaches the state of its kind; only manual ends are held to the schedule |
| Organization.Organization.ExistingEvent | backend/app/shifts/state_machine.py:56-63 | A key is found exactly when some event of the organization carries it |
| Organization.Organization.CloseOpenBreak | backend/app/shifts/state_machine.py:301-308 | Closes the first open break of the shift and no other row |
| Organization.Organization.SumBreaks | backend/app/shifts/attendance.py:52-60 | The loop totals the whole seconds of the closed breaks |
| Organization.Organization.SumIdle | backend/app/shifts/attendance.py:63-83 | The loop totals the whole seconds of the idle intervals |
| Organization.Organization.DeriveForShift | backend/app/shifts/attendance.py:150-196 | Overwrites the one row of the employee and work date with a fresh derivation |
| Organization.Organization.HasActive | backend/app/shifts/service.py:25-35 | True exactly when the employee has a shift in an active state |
| Organization.Organization.CreateShiftForDay | backend/app/shifts/service.py:38-78 | Adds an available shift at version 0 unless one is active, keeping every invariant |
| Organization.Organization.Handle | backend/app/shifts/service.py:101-126 | A request runs its transition and re-derives attendance; all invariants hold afterwards, also after refusals and replays |
| Organization.Organization.EnsureShift | backend/app/shifts/scheduler.py:56-81 | One employee of the daily run: suppressed, already served, refused and windowless cases leave no shift |
| Organization.Organization.EnsureDailyShifts | backend/app/shifts/scheduler.py:45-83 | The loop over employees leaves the tables and count of the daily function and keeps the invariants |
| Organization.Organization.RunAutoStart | backend/app/shifts/scheduler.py:86-105 | The sweep starts exactly the due available shifts, logs one AUTO_START event for each and nothing else, writes exactly their attendance rows and returns their number |
| Organization.Organization.RunAutoEnd | backend/app/shifts/scheduler.py:108-128 | The same for due running shifts, closing their open breaks and logging one AUTO_END event for each |
| Organization.Organization.MarkMissed | backend/app/shifts/scheduler.py:182-219 | The same for shifts past their deadline, cancelled on leave and holidays; events and breaks stay as they are |
| ShiftReplay.LegalLogIsOk | backend/app/shifts/state_machine.py:96-323 | Whatever log the policy and the clock allow, the state it leads to has tiled breaks, sound flags, consistent start and end, and kept its guards |
| ShiftReplay.FirstEventStarts | backend/app/shifts/state_machine.py:126-146 | A shift's start is its first event, which respected the clock-in window or was a due automatic start |
| ShiftReplay.FinishedLogIsFinal | backend/app/shifts/state_machine.py:118-121 | No event can follow the end of a shift |
| RequestTable.AcceptedExactly | backend/app/shifts/state_machine.py:101-323 | After any history a request with a new id is accepted exactly when the transition table permits it and no BREAK_END key clashes |
| RequestTable.ServedExactly | backend/app/shifts/service.py:101-126 | A request is answered without an error exactly when it is a replay or so permitted |
| RequestTable.AcceptedOutcome | backend/app/shifts/state_machine.py:138-150 | An accepted request reaches the state of its row in the table, stamps start or end, counts one version, logs its events and leaves the other shifts alone |
| RequestTable.AcceptedBreaks | backend/app/shifts/state_machine.py:172-308 | After any history a break start adds an open break, only resuming or ending leaves it, which closes it and on resuming flags it if overlong, and nothing else changes the breaks |
| RequestKeys.PlainRequestExactly | backend/app/shifts/state_machine.py:49-53 | A request without an event id, later than all before it, is accepted exactly when the table permits it, and then takes effect; it is never taken for a repeat |
| RequestKeys.ClientReplayExactly | backend/app/shifts/state_machine.py:56-63 | A client's event id is a repeat exactly when some logged event of the organization carries it |
| RequestKeys.MadeKeyIsOfTheMoment | backend/app/shifts/state_machine.py:49-53 | A server-made key is on record only for an event of that shift and kind logged at that very moment |
| RequestKeys.KeysLogged | backend/app/shifts/state_machine.py:66-93 | Events are logged under the client's id, with :be for the end of a break, or under shift, kind and time |
| RequestKeys.RefusedWith | backend/app/shifts/state_machine.py:118-140 | Which error answers a refused request: unknown shift, wrong state, outside the window, not permitted, or a taken key |
| ShiftInvariant.DecideKeeps | backend/app/shifts/state_machine.py:101-323 | Every accepted transition changes rows and log in step |
| ShiftInvariant.TransitionKeeps | backend/app/shifts/state_machine.py:101-323 | Every state-machine call keeps rows, log, unique keys and single activity |
| ShiftInvariant.EnsureDailyKeeps | backend/app/shifts/scheduler.py:45-83 | The daily run keeps the invariant |
| ShiftHistory.LogRebuildsRows | backend/app/shifts/state_machine.py:96-323 | After any history, replaying a shift's events rebuilds state, start, end and every break row, and version counts the events but BREAK_END; missed and cancelled shifts have an empty log and version 1 |
| ShiftHistory.LogIsChronological | backend/app/shifts/state_machine.py:66-93 | A shift's events are in time order and no key ever repeats |
| ShiftHistory.BreaksAreTiled | backend/app/shifts/state_machine.py:172-198 | Breaks are ordered, disjoint and inside the shift; one is open exactly while on break; the policy's limits on breaks hold |
| ShiftHistory.OneActiveShiftPerEmployee | backend/alembic/versions/0002_attendance_shifts.py:187-193 | The unique index on active shifts can never fire |
| ShiftHistory.TerminalIsForever | backend/app/shifts/state_machine.py:118-121 | A terminal shift, its breaks and its log never change again in any later history |
| BreakFlags.ExceededExactly | backend/app/shifts/state_machine.py:233-244 | A break is flagged exactly when it was ended by resuming and ran over the maximum |
| TimeAccounting.FinishedTimeAddsUp | backend/app/shifts/attendance.py:105-113 | For a finished shift breaks never exceed gross time, worked plus breaks is gross unless idle is subtracted, and then worked is what remains, at least 0 |
| TimeAccounting.BreakSecondsTruncate | backend/app/shifts/attendance.py:52-60 | Truncation loses less than one second per break |
| TimeAccounting.TimeIsConserved | backend/app/shifts/state_machine.py:96-323 | Time in the three running states adds up to the time between the first and the last event |
| TimeAccounting.TimeOnBreakIsBreaks | backend/app/shifts/state_machine.py:172-251 | Logged time on break is the exact length of the break rows |
| TimeAccounting.WorkedIsWorkingPlusPaused | backend/app/shifts/attendance.py:105-113 | Worked seconds are logged working plus paused time, within the truncation, less recorded idle time unless idle counts as work |
| TimeAccounting.NoPausedTimeExactly | backend/app/shifts/state_machine.py:172-251 | A log has no paused time exactly when each of its pauses ends the moment it begins |
| TimeAccounting.OnlyWorkingCountsExactly | backend/app/shifts/attendance.py:105-113 | What a finished shift leaves after its breaks is its WORKING time exactly when no pause lasted |
| TimeAccounting.WorkedIsWorkingExactly | backend/app/shifts/attendance.py:105-113 | With times in whole seconds and no idle time subtracted, worked seconds are the WORKING time exactly then |
| AttendanceColumns.ColumnsOfRow | backend/app/shifts/attendance.py:150-196 | In any state the row names its shift, repeats its times, and keeps the exact length of its closed breaks and idle intervals up to a second each |
| AttendanceColumns.WorkedIsWhatIsLeft | backend/app/shifts/attendance.py:105-113 | Worked time of a finished shift is what breaks and, unless idle counts as work, idle intervals leave of it, at least 0, up to a second for each |
| AttendanceColumns.IdleSecondsAre | backend/app/shifts/attendance.py:63-83 | Idle seconds add up all intervals, each truncated to whole seconds |
| AttendanceColumns.DurationsNeedTimes | backend/app/shifts/attendance.py:86-128 | Durations whose times are missing are 0, worked time among them while the shift runs |
| AttendanceColumns.LatenessIs | backend/app/shifts/attendance.py:100-103 | Lateness is the time since the end of the grace period, also while the shift runs |
| AttendanceColumns.DerivationWrites | backend/app/shifts/attendance.py:157-173 | A derivation writes the one row of the employee and the UTC date of the scheduled, else the actual start, else of the moment |
| AttendanceStatus.StatusesThatOccur | backend/app/shifts/attendance.py:131-147 | ABSENT never occurs, EARLY_LEAVE needs a force-stop or an allowed early end, and each status means what its durations say |
| AttendanceStatus.DurationsMeasure | backend/app/shifts/attendance.py:86-128 | Lateness is time past the threshold, early leave and overtime the distance to the scheduled end, each within a second and 0 on the other side |
| AttendanceStatus.EarlyExcludesOvertime | backend/app/shifts/attendance.py:115-119 | Early leave and overtime are never both positive |
| AttendanceStatus.ManualStartLateness | backend/app/shifts/attendance.py:100-103 | A manual start inside a window of L minutes with T minutes of grace is at most 60(L-T) seconds late, or 0 |
| AttendanceStatus.AutoStartIsNeverEarly | backend/app/shifts/scheduler.py:96-103 | An automatic start happens under the policy and not before the schedule |
| AttendanceAgreement.RowIsFreshExactly | backend/app/shifts/attendance.py:150-196 | After any history a row equals a fresh derivation exactly when it does not sit on another date than its shift's |
| AttendanceAgreement.AttendanceAgrees | backend/app/shifts/service.py:101-126 | In particular, without replays on undated shifts every row is always fresh and no shift has rows on two dates |
| AttendanceDates.GoesStaleExactly | backend/app/shifts/attendance.py:150-196 | With all rows fresh before a step, all are fresh after it exactly when it is not the start, under a new id, of an available unscheduled shift that has a row on another day |
| AttendanceDates.OnlyStartsDate | backend/app/shifts/state_machine.py:118-146 | Of all requests only such a start is accepted for an undated shift and dates it elsewhere than its row |
| AttendanceDates.SecondDateExactly | backend/app/shifts/attendance.py:157-173 | With one date per shift before a step, there is one per shift after it exactly when it does not derive attendance for an unscheduled shift that has a row on another day |
| AttendanceDates.FreshThroughoutExactly | backend/app/shifts/service.py:101-126 | Every row is fresh at every moment of a history exactly when no step of it is such a start |
| AttendanceDates.OneDateThroughoutExactly | backend/app/shifts/service.py:101-126 | No shift has rows on two dates at any moment of a history exactly when no step of it is such a derivation |
| AttendanceAgreement.TodayIsUsedExactly | backend/app/shifts/attendance.py:157-161 | In a request, today's date stands in for the work date exactly when a used id is replayed on an undated shift |
| AttendanceDates.SweepNeverUsesToday | backend/app/shifts/scheduler.py:95-126 | In a sweep it never does: every shift fired is dated |
| AttendanceAgreement.SweepKeepsAttendance | backend/app/shifts/scheduler.py:95-103 | Every sweep keeps attendance sound |
| ReplayInsertion.ResendChangesNoRecord | backend/app/shifts/state_machine.py:113-116 | Inserting a resent request anywhere in a run changes no shift, break or event in the rest of it |
| ReplayInsertion.ResendKeepsAttendanceExactly | backend/app/shifts/service.py:101-126 | It changes attendance exactly when the row of that employee and date does not already name the shift |
| ReplayInsertion.ResendChangesNothing | backend/app/shifts/service.py:101-126 | While the row names the shift, the whole rest of the run is identical |
| ShiftCounterexamples.StaleRow | backend/app/shifts/attendance.py:157-173 | A history that leaves a row disagreeing with its shift and one shift with rows on two dates |
| ShiftCounterexamples.ResendFlipsRow | backend/app/shifts/service.py:101-126 | A history in which resending an old request hands the day's row to another shift |
| ShiftCounterexamples.UnflaggedBreak | backend/app/shifts/state_machine.py:301-308 | A history with a completed shift whose only break ran a day over its minute and is not flagged |
| ShiftCounterexamples.PausedIsWorked | backend/app/shifts/attendance.py:105-113 | A history with a shift that was never WORKING for any time and is credited with 60 worked seconds |
| ShiftCounterexamples.MissedThoughStartable | backend/app/shifts/scheduler.py:196-200 | A history after which the missed sweep marks a shift that a manual start at the same moment would have started |
| ShiftCounterexamples.WindowCreatedTwice | backend/app/shifts/scheduler.py:69-71 | A history of daily runs for one day and requests that leaves two shifts with the same window |
| ShiftSweepLaws.SweepIsComplete | backend/app/shifts/scheduler.py:86-128 | A sweep succeeds, fires exactly the due rows, logs exactly their events, leaves all others alone, counts them, and leaves none due |
| SweepTable.AutoStartExactly | backend/app/shifts/scheduler.py:86-105 | The sweep puts to WORKING exactly the available shifts whose policy starts them and whose scheduled start has come, and counts them |
| SweepTable.AutoEndExactly | backend/app/shifts/scheduler.py:108-128 | It auto-completes exactly the running shifts whose policy ends them and whose scheduled end has come, and counts them |
| SweepTable.MarkMissedExactly | backend/app/shifts/scheduler.py:182-219 | It marks exactly the available shifts past start and latest clock-in or 0 minutes, cancelled if employee and date are suppressed and missed otherwise, counts them, and logs nothing |
| ShiftSweepLaws.SecondSweepIsIdle | backend/app/shifts/scheduler.py:86-128 | Running it again at the same moment changes nothing and returns 0 |
| ShiftSweepLaws.NothingIsOverdue | backend/app/shifts/scheduler.py:86-219 | After a sweep no waiting shift is past its scheduled start or deadline and no running one past its end, where the policy automates it |
| ShiftSweepLaws.SweepOrderIsIrrelevant | backend/app/shifts/scheduler.py:182-219 | Rows, breaks, each shift's log, attendance and count do not depend on the order of the query |
| ShiftSweepLaws.MissedMeansTooLate | backend/app/shifts/scheduler.py:196-200 | A row due to be missed can no longer be started by hand exactly when there is a latest clock-in or the window has yet to open |
| ShiftSweepLaws.TooLateMeansMissed | backend/app/shifts/state_machine.py:135-137 | With a latest clock-in, due to be missed and too late to start coincide |
| ShiftSweeps.SweepEffect | backend/app/shifts/scheduler.py:86-128 | The closed form of a sweep over any part of the query, rows, breaks, logs, attendance and count, by induction over its rows |
| CreationTable.CreatedExactly | backend/app/shifts/service.py:25-78 | A creation succeeds exactly when none of the employee's shifts is available, working, on break or paused, and adds an available shift |
| CreationTable.EnsuredExactly | backend/app/shifts/scheduler.py:56-81 | The daily run creates a candidate's shift exactly when not suppressed, scheduled, nothing active and nothing starting on the day |
| CreationTable.DailyRunCreates | backend/app/shifts/scheduler.py:45-83 | Over employees considered once each it creates exactly the shifts needed on the tables before it, and counts them |
| DailyShifts.SecondShiftExactly | backend/app/shifts/scheduler.py:60-81 | For one employee, the daily run keeps one shift per day exactly when the window does not start on a taken date while the planned day is free and nothing is active |
| DailyShifts.DailyRunExactly | backend/app/shifts/scheduler.py:45-83 | A run over employees considered once each keeps it exactly when none of them meets that condition before the run |
| DailyShifts.OneShiftPerDayExactly | backend/app/shifts/scheduler.py:45-83 | After any history each employee has one shift per day exactly when none of its creations and daily runs met it |
| DailyShifts.CreationExactly | backend/app/shifts/service.py:38-78 | A manual creation gives a day a second shift exactly when its date is taken and nothing is active |
| DailyShifts.OneShiftPerDay | backend/app/shifts/scheduler.py:60-72 | In particular, with agreeing dates, repeated daily runs never give an employee two shifts on one day |
| DailyShifts.DisagreeingDateIsRecreated | backend/app/shifts/scheduler.py:69-71 | A window that already has a shift is created again exactly when no shift of the employee is active, and neither it nor another shift of the employee starts on the planned day |
| DailyShifts.DailyAddsWhatItCounts | backend/app/shifts/scheduler.py:73-83 | The daily run adds exactly the shifts it counts, all planned, unsuppressed and scheduled |
| SyncAgent.EventQueue.Enqueue | agent/src/Agent.Service/SqliteEventQueue.cs:51-67 | A new id gets a sequence above all earlier ones; a pending id is ignored |
| SyncAgent.EventQueue.PeekBatch | agent/src/Agent.Service/SqliteEventQueue.cs:69-87 | Returns the lowest sequences, up to the maximum |
| SyncAgent.EventQueue.AckThrough | agent/src/Agent.Service/SqliteEventQueue.cs:89-102 | Deletes exactly the rows through the sequence |
| SyncAgent.IngestServer.HasSeen | backend/app/ingestion/service.py:74-82 | True exactly when the table has a row with the id |
| SyncAgent.IngestServer.IngestBatch | backend/app/ingestion/service.py:85-188 | Every event is accepted, a duplicate or rejected; all acceptable ones are stored, each once |
| SyncAgent.SyncWorker.FlushOnce | agent/src/Agent.Service/SyncWorker.cs:49-64 | Without a response the queue keeps every row; with one, exactly the sent rows leave and are stored |
| SyncAgent.SyncWorker.Execute | agent/src/Agent.Service/SyncWorker.cs:28-47 | A flush succeeds exactly when it is delivered or nothing is left; the pauses are the interval after success and the back-off of the failures in a row otherwise; each success removes one batch, and all rows that are gone and acceptable are held by the server |
| SyncAgent.BackoffClosedForm | agent/src/Agent.Service/SyncWorker.cs:38-44 | The back-off after n failures is 5 doubled n-1 times, at most 120 seconds |
| SyncAgent.PauseAfterPause | agent/src/Agent.Service/SyncWorker.cs:20-45 | Each pause is 15 seconds after success, 5 after a first failure, and twice the one before, up to 120, after another |
| SyncModel.PeekIsLowest | agent/src/Agent.Service/SqliteEventQueue.cs:69-87 | Nothing peek leaves out precedes anything it returns |
| SyncModel.AckRemovesExactly | agent/src/Agent.Service/SqliteEventQueue.cs:89-102 | Acknowledging the last sequence of a prefix removes that prefix only |
| SyncModel.IngestHoldsAll | backend/app/ingestion/service.py:102-185 | Every acceptable event of a batch is on the server afterwards |
| SyncModel.ResendAcceptsZero | backend/app/ingestion/service.py:112-115 | Re-sending any part of a committed batch, after any others, accepts nothing and changes nothing |
| SyncModel.SameIdTwoTypes | backend/app/ingestion/service.py:112-185 | An id is a duplicate only within its table, which activity and idle intervals share |
| SyncModel.CountsAddUp | backend/app/ingestion/service.py:41-47 | Accepted, duplicate and rejected counts add up to the batch, and rows grow by the accepted |
| SyncModel.CountsAre | backend/app/ingestion/service.py:102-185 | Rejected are those of unknown type or without an id, accepted those newly stored, duplicates the rest |
| SyncProtocol.NoEventIsLost | agent/src/Agent.Service/SyncWorker.cs:49-64 | Under any interleaving of captures, sends, commits, lost responses, crashes and acknowledgements an event is queued, or its id is stored in its table, or it is of a kind the server refuses |
| SyncProtocol.NoEventIsReplaced | backend/app/ingestion/service.py:112-185 | What is stored under its id is a captured event, and the event itself, payload and all, if no other one shares its table and id |
| SyncProtocol.ServerStoresAtMostOnce | backend/app/ingestion/service.py:3-10 | The server never holds a table and id twice, nor anything that was not captured |
| SyncProtocol.EmptyQueueMeansDelivered | agent/src/Agent.Service/SyncWorker.cs:7-11 | With an empty queue the server holds exactly the acceptable events |
| SyncProtocol.AcknowledgeDropsOnlyTheBatch | agent/src/Agent.Service/SyncWorker.cs:61-62 | An acknowledgement deletes only the stored batch, although captures may come between peek and acknowledgement |
| SyncProtocol.DrainsInExactly | agent/src/Agent.Service/SyncWorker.cs:20-64 | n events drain in exactly n/200 successful flushes, rounded up |
| TaskTimer.RunIsTiled | backend/app/projects/router.py:146-215 | Over any calls one employee's entries are ordered and disjoint, each closed one with its length |
| TaskTimer.OneOpenEntryEach | backend/app/projects/router.py:157-170 | An employee never has two open entries |
| TaskTimer.TotalNeverExceedsSpan | backend/app/projects/router.py:167-208 | Recorded durations never exceed the time from the first start to the last stop or switch |
| TaskTracks.EntriesFollowCalls | backend/app/projects/router.py:146-215 | An employee's entries are the stretches of work on each task that the employee's own starts and stops describe |
| TaskTimer.TimeEntries.StartTask | backend/app/projects/router.py:146-184 | Starting stops the open entry, if any, and opens a new one |
| TaskTimer.TimeEntries.StopTask | backend/app/projects/router.py:187-215 | Stopping closes the open entry of that task or reports that there is none |
| Rollups.PickCategory | backend/app/productivity/resolver.py:62-77 | The first of the most specific matching rules wins |
| Rollups.ComputeEmployeeRollup | backend/app/productivity/rollups.py:47-129 | The loops tally application and website time by category into the employee's row |
| Rollups.TallyIsEventTime | backend/app/productivity/rollups.py:54-90 | Each bucket is the time of its category and tracked time is the time of all events |
| Rollups.TallyWeighsEvents | backend/app/productivity/resolver.py:114-120 | The numerator of the indicator is the weighted time of all events |
| Rollups.OneCategoryScores | backend/app/productivity/resolver.py:32-36 | Time of one category scores 100 times its weight, 0.5 if it has none |
| Rollups.TrackedIsThreeCategoriesExactly | backend/app/productivity/rollups.py:9-9 | Tracked time is the three built-in times exactly when custom time is zero |
| Rollups.GroupsAre | backend/app/productivity/rollups.py:163-172 | Each row lands once, in order, in its employee's group |
| Rollups.GroupOfMember | backend/app/productivity/rollups.py:145-157 | Members listed once are grouped by their own team and department |
| Rollups.GroupOfStranger | backend/app/productivity/rollups.py:163-168 | Rows of employees that are not listed have no group |
| Rollups.SummaryGrows | backend/app/productivity/rollups.py:174-182 | Column by column, a group row counts its rows and adds up their times |
| Rollups.EmptySummary | backend/app/productivity/rollups.py:174-182 | A group row starts from zero in every column |
| CustomCategories.DayRowIs | backend/app/productivity/rollups.py:92-127 | The columns of an employee's row are event times by category, with idle and worked seconds of the attendance row or 0 |
| Rollups.RollupConserves | backend/app/productivity/rollups.py:160-203 | Group rows plus groupless employees add up to the employee rows in every measure |
| Rollups.GroupLiesBetweenMembers | backend/app/productivity/rollups.py:174-182 | With built-in categories a group's exact indicator lies between its tracked members' |
| Rollups.BuiltInRowIsPlain | backend/app/productivity/rollups.py:54-127 | Rows computed from built-in categories meet the conditions of that bound |
| Rollups.IndicatorInPercent | backend/app/productivity/resolver.py:114-120 | Weights between 0 and 1 keep the indicator of any non-negative times between 0 and 100, custom categories included |
| Rollups.RowsInPercent | backend/app/productivity/rollups.py:92-93 | So is the indicator of every employee row |
| Rollups.GroupInPercent | backend/app/productivity/rollups.py:174-182 | And that of every group of rows |
| Rollups.CustomCategoryBreaksBound | backend/app/productivity/rollups.py:180-182 | A custom category puts a team's indicator outside its members' |
| CustomCategories.WeightSplits | backend/app/productivity/resolver.py:114-120 | The numerator of an indicator is its built-in part plus its custom part |
| CustomCategories.PooledLiesBetweenMembers | backend/app/productivity/rollups.py:92-93 | For any categories, the indicator of all members' events lies between the tracked members' |
| CustomCategories.GroupIsPooledExactly | backend/app/productivity/rollups.py:160-203 | A written group row has that indicator exactly when custom and built-in time have the same average weight, or custom time alone has no weight |
| CustomCategories.OneMemberExactly | backend/app/productivity/rollups.py:174-182 | A group of one has its member's indicator exactly then |
| CustomCategories.BoundSurvivesExactly | backend/app/productivity/rollups.py:174-182 | A group row keeps to given bounds exactly when its built-in time does, or, without any, when they allow for 0 |
| Rollups.RollupTables.Aggregate | backend/app/productivity/rollups.py:160-203 | Writes the summary of each group with rows and leaves the other rows of the table |
| Rollups.RollupTables.ComputeEmployeeRollups | backend/app/productivity/rollups.py:104-143 | Each employee considered gets the row of the day; other rows of the table stay |
| Rollups.RollupTables.ComputeOrgRollups | backend/app/productivity/rollups.py:132-157 | Writes the row of every employee and, from those rows, both group tables, leaves all other rows, and returns the number of employees |
| PolicyInheritance.ResolveKind | backend/app/policy/resolver.py:49-102 | The loops compute the walk over the levels' chosen policies |
| PolicyInheritance.PickHighest | backend/app/policy/resolver.py:92-93 | The first assignment of highest priority is chosen: none is higher, and all before it are lower |
| PolicyInheritance.ResolvesToOnePolicy | backend/app/policy/resolver.py:83-102 | The result is the defaults or one whole policy: that of the one most specific level that is unopposed or allowed by the nearest one above |
| PolicyTargets.NobodysPolicy | backend/app/policy/resolver.py:60-95 | Assignments to others, or of policies that cannot be loaded, leave the defaults |
| PolicyTargets.OnlyPolicy | backend/app/policy/resolver.py:60-102 | If one loadable assignment names the employee, or their team, department or organization, and no other does, its policy results |
| PolicyTargets.TwoPolicies | backend/app/policy/resolver.py:33-102 | Of two, the more general decides: its own policy if it forbids override, that of the more specific one if it allows it |
| PolicyInheritance.WalkClosedForm | backend/app/policy/resolver.py:83-102 | The fold has that closed form for any number of levels, and ends open exactly as the nearest source says |
| PolicyInheritance.OrderIsIrrelevantExactly | backend/app/policy/resolver.py:76-93 | No level's source depends on the order of the assignments exactly when those that tie for its highest priority contribute the same |
| PolicyInheritance.ResultIgnoresOrderExactly | backend/app/policy/resolver.py:76-102 | The resolved policy does not depend on the order exactly when the walk gives the same fields for every choice of a top assignment at each level |
| PolicyInheritance.OrderIsIrrelevant | backend/app/policy/resolver.py:76-93 | In particular it does not when ties agree, or when priorities at each level are distinct |
| PolicyInheritance.TiesFollowOrder | backend/app/policy/resolver.py:92-93 | With equal priorities it does |
| PolicyInheritance.BlockedLevelReopens | backend/app/policy/resolver.py:97-100 | For any organization assignment that forbids and department assignment that allows override, the team's policy is what is resolved |
| PolicyInheritance.BanBindsExactly | backend/app/policy/resolver.py:97-100 | No level below a ban takes effect exactly when every source from it on that has another below it bans too |
| PolicyInheritance.OrganizationBanBindsExactly | backend/app/policy/resolver.py:83-102 | The resolved policy is the winner's, and the organization that bans wins exactly then |
| PolicyInheritance.RuleIsFollowedExactly | backend/app/policy/resolver.py:3-6 | Levels take effect as described there, the inherited source and so every source above permitting, exactly when that holds for every ban |
| Occurrences.ComputeOccurrences | backend/app/scheduling/occurrences.py:53-88 | Fails exactly when the windows of the day cannot be looked up, and otherwise yields one occurrence per window, in order, each laid out on the local clock and converted at both ends |
| Occurrences.RotationRepeats | backend/app/scheduling/occurrences.py:70-81 | For a positive cycle the windows repeat every 7 * cycle days, before and after the anchor |
| Occurrences.WeekIndexInRange | backend/app/scheduling/occurrences.py:76-77 | The week index lies in the cycle for every date |
| Occurrences.MondaysAreZero | backend/app/scheduling/occurrences.py:20-60 | Weekdays 0 to 6 of a schedule are Monday to Sunday |
| Occurrences.FixedWindows | backend/app/scheduling/occurrences.py:59-62 | A fixed schedule uses its definition of the weekday |
| Occurrences.DatedWindows | backend/app/scheduling/occurrences.py:64-86 | Custom schedules have windows on listed dates only, flexible ones on every date, unknown ones never |
| Occurrences.RotationFollowsWeeks | backend/app/scheduling/occurrences.py:75-81 | Week i after the anchor uses the i-th definition |
| Occurrences.RotationByRemainder | backend/app/scheduling/occurrences.py:75-81 | For any cycle, the week is the one at the signed remainder of the weeks elapsed, counted from the end if negative, none or a failure beyond the definitions |
| Occurrences.RotationDefaults | backend/app/scheduling/occurrences.py:70-74 | A missing cycle is the number of definitions; without definitions or anchor there are no windows |
| Occurrences.RotationFailsExactly | backend/app/scheduling/occurrences.py:72-78 | A rotation fails exactly for a zero cycle or one too negative for its weeks |
| Occurrences.InstantsOf | backend/app/scheduling/occurrences.py:91-97 | The instants of an occurrence are the day's midnight plus its times, the end a day later if not after the start, each less the offset there |
| Occurrences.LocalLength | backend/app/scheduling/occurrences.py:91-97 | On the wall clock every window is longer than 0 and at most 24 hours |
| Occurrences.UtcLength | backend/app/scheduling/occurrences.py:91-97 | In UTC the length is kept exactly when the offset is the same at both ends |
| Occurrences.GapReversesWindow | backend/app/scheduling/occurrences.py:91-97 | Over a daylight-saving gap a window can end before it starts |
| Webhooks.WebhookQueue.Emit | backend/app/webhooks/service.py:36-55 | Queues one pending row per enabled subscriber of a known event |
| Webhooks.WebhookQueue.DeliverPending | backend/app/webhooks/service.py:58-104 | A pass tries exactly the rows it picked and counts the successes |
| Webhooks.EmissionReachesSubscribers | backend/app/webhooks/service.py:42-55 | A hook gets a row exactly when it is enabled and subscribed |
| Webhooks.SettledIsFinal | backend/app/webhooks/service.py:78-102 | Delivered and failed never change; pending means fewer than 5 attempts |
| Webhooks.SuccessesAreDelivered | backend/app/webhooks/service.py:91-104 | What a pass counts are the rows that it newly turns to delivered |
| Webhooks.RowFollowsItsFate | backend/app/webhooks/service.py:78-102 | A row is delivered exactly when its last attempt succeeded, failed exactly when its hook was gone or the fifth answer was bad, and counts its attempts |
| Webhooks.AllSettle | backend/app/webhooks/service.py:67-104 | n deliveries settle within n/20 + 5 passes, whatever is picked and answered |
| DeepMerge.MergeDicts | backend/app/settings/router.py:26-33 | The loop computes the recursive merge without changing its inputs |
| DeepMerge.Settings.Patch | backend/app/settings/router.py:53-68 | A patch replaces the settings by the merge and leaves untouched paths as they were |
| DeepMerge.LookupMerged | backend/app/settings/router.py:26-33 | What a merged value holds at any path, from what base and patch hold there |
| DeepMerge.MergeIsIdempotent | backend/app/settings/router.py:26-33 | The same patch twice is the same patch once |
| DeepMerge.AssociativeExactly | backend/app/settings/router.py:26-33 | Merging two patches first is the same exactly when no scalar of the middle one stands between mappings that do not already absorb |
| DeepMerge.NoScalarBetweenIsCompatible | backend/app/settings/router.py:26-33 | In particular when there is no such scalar at all |

## Left out

- One instant per operation: a request or sweep reads the clock several times; the model gives it one time, and the clock may stand still between operations but not go back.
- Concurrent transactions on one shift: `version` is incremented but never compared, so operations are atomic steps.
- Organization.Organization.Handle: does not emit the webhook that the wrappers send for a transition, also for a replayed one; delivery is modelled separately.
- Organization.Organization.CreateShiftForDay: takes the resolved policy and schedule as an input and creates AVAILABLE shifts only.
- Audit rows, event source, actor, device, client time and reason and `computed_at`.
- Policies, schedules and leave at creation time: what they resolve to is an input of the creation.
- Creation in the SCHEDULED state: no caller asks for it, so histories create AVAILABLE shifts; guards and sweeps still treat SCHEDULED rows as the code does.
- Idle intervals that arrive while a history runs: they are arbitrary but fixed, since later ones make attendance stale until the next derivation.
- String lengths, the rendering of server-made keys and client ids that imitate them.
- SyncAgent.EventQueue.Enqueue: does not return a sequence, because the value is meaningless for an ignored duplicate; it takes from SQLite that AUTOINCREMENT never reuses a number.
- Payload encryption, the HTTP client, the fields an ingested row keeps or drops by privacy policy, and batches aborted by an unconvertible payload (these behave as a lost request).
- TaskTimer.TimeEntries.StartTask: does not look the task or the employee up, so their 404 answers are absent, and entries do not record the shift they belong to.
- Rollups.ComputeEmployeeRollup: takes events already classified and selected for the day; the choice among rules is Rollups.PickCategory, the matching of names and domains is not modelled.
- Rollups.IndicatorInPercent: indicators are exact numbers; rounding to two places is not modelled.
- Occurrences.ComputeOccurrences: takes wall-clock times as parsed minutes and the zone as an offset function; parsing and zone data are not modelled.
- Webhooks.WebhookQueue.DeliverPending: signing, headers and the POST itself are represented by its outcome.
- `detect_monitoring_lost`, timesheets, payroll, alerts, devices, roles, reports, authentication, screenshots, collectors and the frontend.
