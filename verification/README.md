# Attendance transaction core: a verified model

This project models the parts of the backend whose guarantees hold only over whole runs, and proves those
guarantees in Dafny. `dafny verify dfyconfig.toml` checks everything.

The centre is **one employee's state machine**. Every call runs in one transaction under the employee's lock, so for one
employee the system is a sequence of atomic calls, each at the instant its transaction reads as `now()`. The calls are
check-in/out, apply (own or on behalf), approve / reject / revoke, cancel, enable, reassign, disable, and put / remove a
correction, in any order and with any arguments. `Tx` holds the tables and the SQL statements; the `*Service` modules
and `LeaveTransition` are the transactions step by step, loops and rollbacks included; each is proved equal to a step
function (`PunchStep`, `ApplyStep`, ...), and the `*Answers` modules say of every step, without the model's own
functions, which answer a call gets exactly when, and every row it leaves. The theorems are about a `History`: the
tables before and after every call of any run from empty tables, and every answer; `Service.ServeAll` serves a whole run
on a `Tx` and ends with exactly such a history. Around it stand four smaller cores: effective-dated ranges (`Periods`),
purge and restore over the foreign-key graph, the calendar helpers and batched span facts, and the OTP stores,
weekly-off view and keyset paging.

| Files | Contents |
|---|---|
| `Basics`, `CalendarDates` | shared vocabulary; why dates are day numbers |
| `Tables`, `LeaveWriter`, `CheckInOut`, `Leave`, `Lifecycle`, `Corrections`, `Machine` | the rows, the calls and the step functions |
| `Tx`, `CheckInOutService`, `LeaveTransition`, `LeaveService`, `EnrolmentService`, `CorrectionService`, `Service` | the same calls as transactions that change tables |
| `Periods`, `Enrolment` | the AD-8 change and enrolment over runs |
| `Frames`, `RateLimit`, `Records`, `LeaveLog`, `Exclusion`, `Notices`, `Messages`, `Reopening`, `Audit`, `RunExamples` | the theorems over runs, and runs in which a promise fails |
| `PunchAnswers`, `LeaveAnswers`, `EnrolmentAnswers`, `CorrectionAnswers` | which answer every call gets and what it leaves, said on the rows |
| `Relational`, `Purge`, `PersonPurge`, `PurgeTheorems`, `PurgePins`, `PinExample`, `Guards`, `GuardReads`, `Restore`, `SecondRestore`, `RestoreExample`, `GuardExample`, `PurgeAnswers`, `CoverageAnswers`, `RestoreAnswers`, `SuperCli` | purge and restore |
| `OffRows`, `SpanFacts`, `WeeklyOffs`, `Otp`, `Paging` | smaller cores |

## Where the code does not meet what it promises

Each of these is stated with its exact condition and a concrete input, and the code is modelled as it is.

- **A purge's receipt and its backup can disagree.** `notifications.job_id` cascades from `jobs`, and the plan deletes
  jobs before notifications: a notification of the person about one of their own jobs is in the backup but is gone when
  its own step counts it. The receipt agrees with the backup exactly when there is no such notification
  (`PurgeTheorems.ReceiptMatchesBackupIff`, and for the two totals `SuperCli.TotalsAgreeIff`;
  `RestoreExample.TechnicianIsNotRestored`).
- **A completed purge can be impossible to restore.** The restore aborts as a whole on the first row a foreign key or an
  insert trigger refuses. Right after the purge it goes through exactly when four things hold of the first database
  (`Restore.Restorable`, `Restore.RestoreCompletesIff`):
  no notification of the person is about a job of theirs and no photo names an upload of theirs, because those come back
  after them (`RestoreExample.TechnicianIsNotRestored`, `RestoreExample.PhotoIsNotRestored`);
  who made each of their leave requests, leave events, overrides and corrections is unset, staff, or still an active
  member of the company - so a leave request a removed member made is never restored
  (`GuardExample.FormerMemberIsNotRestored`);
  each of their reports, in the file's order, finds fewer than three in flight in its company;
  and their enrolments, if any, pass the coverage trigger as they are - an office archived since on the past leg of an
  open enrolment refuses the commit (`GuardExample.MovedIsNotRestored`).
  When it goes through, the store is known row by row and column by column (`Restore.RoundTrip`); what is missing from
  it then is what the purge took along unsaved - other people's notifications about the person's jobs, and the person's
  device tokens - and, on rows that survived, the inviter that was the person and the upload that was the person's.
- **A second restore is promised never to err, and can abort.** The limit on reports in flight is checked before it is
  known that the row exists: a second restore inserts nothing exactly when the company of every backed-up report has
  fewer than three in flight by then, and aborts otherwise (`SecondRestore.SecondRestoreIff`;
  `GuardExample.ThreeReportsOnlyOnce`).
- **A purge can still be refused after its preparation passed**: on coherent rows, exactly when somebody else corrected a
  day the person had overridden for a colleague, or the person ran a customer import
  (`PurgePins.PreparedPurgeCompletesIff`; `PinExample.ColleaguePins`). The import is a key on users
  (supabase/migrations/20261107000014_bulk_customer_import.sql:57) that neither the plan nor its list of keys knows; the
  tool's comparison of that list with the live schema, which is not modelled, would report it first.
- **Reassigning an office is refused on an enrolment that has an end.** The new assignment is unbounded, so the coverage
  trigger rejects it; it commits exactly when an open-ended enrolment covers the date
  (`Enrolment.ReassignCommitsIff`; `RunExamples.BoundedMoveIsRefused`).
- **A disable message can be swallowed**: exactly when an earlier disable already cancelled other days of the same
  request, because the dedupe key carries no date (`Messages.DisableSwallowedIff`; `RunExamples.SecondDisableIsUnheard`).
- **A request can be revoked or cancelled twice, and the second message be swallowed.** What a revoke or a cancel leaves
  is past, or today after the office start. It comes within reach again exactly when an enable or reassign takes effect
  today, after the start of the office so far and before that of the new one (`Reopening.Reopens`); in a run some call
  does so if and only if after some call a further one would repeat such an event
  (`Reopening.RepeatPossibleIff`), and, where somebody was told the first time, find its message key taken
  (`Reopening.SwallowPossibleIff`). `RunExamples.SecondCancelIsUnheard` is a run of five calls. On any clock apply,
  approve and reject never repeat (`Messages.OneDecisionEach`), and neither they nor a check-in's auto-cancel ever lose
  a message (`Messages.DecisionsAreHeard`).
- **Dates of the years 0000 to 0099 jump to the twentieth century.** `Date.UTC` reads such a year as 1900 to 1999, and
  the shape check lets the strings through. Adding days to a date string is adding to the day exactly from the year 100
  on (`CalendarDates.AddDaysAdds`, `CalendarDates.YearFiftyJumps`), and a span of more than one day is enumerated in
  full exactly then (`CalendarDates.ShapedDates`).
- **Waiting exactly the reported seconds may not reach a fresh OTP window**: the cache still serves the entry in its last
  millisecond, which matters exactly when the remainder is a whole number of seconds (`Otp.WaitReachesFreshIff`,
  `Otp.FirstWaitIsShort`).

## Assumptions

- A run starts from empty tables of one employee in one tenant. Other employees appear only as inputs: whether they
  hold the key (`taken`, `elsewhere`).
- Every row a transaction writes carries the one instant its transaction reads. Hypotheses about
  the clock are about the run's own instants, and only where they are needed: `Monotone` (instants do not go back in
  lock order), `DatesForward` (local dates do not), `FairClock` (nor does the wall clock within a date, so no two calls
  read it backwards in the hour a clock change repeats). The rate-limit bound and the messages of apply, approve, reject
  and disable need none of them.
- The calendar (`working`), the office start minutes and the text of an instant are arbitrary functions. The distance to
  the office pin, the tenant settings, the office's archive state and a day's grade are inputs of the call.
- `LeaveVanished`, `ActiveDayClash` and the other `Breach` answers mark the branches the code answers with an abort or a
  logged contract break; `Records.NoBreachEver` shows that none is reachable.
- The purge graph is the tool's `EXPECTED_EDGES`, the one restricting key on users it does not name
  (`import_batches.actor_user_id`), and the cascading and clearing foreign keys of the tables in the person plan, all
  read off the migrations. The insert triggers are those of the same migrations. The file holds the rows of a section
  in an arbitrary order (`Order`), and a restore comes right after its purge. The cache keeps an entry through the millisecond of its expiry.

## Model

| member | source | states |
|---|---|---|
| `CheckInOut.LadderOrder` | src/attendance/check-in-out.service.ts:221-226 | exactly one ladder outcome wins: stale before inaccurate before far before mocked, with the thresholds 30 s and 100 m, and ok exactly when none applies |
| `CheckInOut.AcceptedIff` | src/attendance/check-in-out.service.ts:101-258 | a call is accepted if and only if key, block, tracking, record state, leave confirmation, pin and fix all allow it |
| `CheckInOut.GateMeansLeave` | src/attendance/check-in-out.service.ts:183-195 | the gate fires only on an active full-day leave day on a working date |
| `PunchAnswers.RejectionIff` | src/attendance/check-in-out.service.ts:127-240 | for any tables, a call with a fresh key is rejected with each outcome exactly under its own gate and past those reported before it: a block, tracking, today's record, unconfirmed leave, the fix; one row with that outcome is kept |
| `PunchAnswers.HoldsIsFullDayLeave` | src/attendance/check-in-out.service.ts:183-195 | under the one-active-day rule the leave that holds a check-in is any active full-day leave of a working date |
| `PunchAnswers.RejectionWrites` | src/attendance/check-in-out.rejections.ts:25-151 | a rejection leaves one row, a ten-minute block exactly if it is the fifth counted one in ten minutes, and the admins' alert exactly from the third mocked one of the month on |
| `PunchAnswers.UsedKeyAnswer` | src/attendance/check-in-out.replay.ts:44-140 | a used key writes nothing: the other button is answered from today's record, the same one with what the first call stored |
| `PunchAnswers.NoRowAnswer` | src/attendance/check-in-out.service.ts:197-211 | a key another employee holds answers a duplicate and writes nothing, once an office covers today |
| `PunchAnswers.CheckInAnswer` | src/attendance/check-in-out.service.ts:242-282 | an accepted check-in adds its attempt and the record at today's office and, if leave held it, cancels today of that request with one event and its messages; nothing else changes |
| `PunchAnswers.CheckOutAnswer` | src/attendance/check-in-out.service.ts:242-311 | an accepted check-out adds its attempt and closes today's record; nothing else changes |
| `CheckInOutService.Judge` | src/attendance/check-in-out.service.ts:221-226 | the reassigned `rejection` ends as the winning outcome; ok exactly for a fresh, accurate, near, genuine fix |
| `CheckInOutService.RejectCommitted` | src/attendance/check-in-out.rejections.ts:72-99 | a state conflict appends one attempt and no block, or answers the raced key without a row |
| `CheckInOutService.MaybeAlertFakeLocation` | src/attendance/check-in-out.rejections.ts:120-151 | from the third mocked attempt of the month each admin has exactly one alert per month |
| `CheckInOutService.RejectWithLadder` | src/attendance/check-in-out.rejections.ts:25-69 | the fifth counted rejection in the window arms the block on its own row |
| `CheckInOutService.WriteCheckIn` | src/attendance/check-in-out.service.ts:242-282 | the accepted check-in writes attempt and record and cancels only today's leave date, or nothing |
| `CheckInOutService.WriteCheckOut` | src/attendance/check-in-out.service.ts:242-311 | the accepted check-out closes the open record once, or nothing |
| `CheckInOutService.Transact` | src/attendance/check-in-out.service.ts:101-312 | the whole transaction, branch by branch, leaves the tables and the answer of the step function |
| `Transaction.Tx.InsertAttempt` | src/attendance/check-in-out.repository.ts:146-202 | a key already in the tenant inserts nothing and returns no id |
| `Transaction.Tx.UpdateRecordCheckout` | src/attendance/check-in-out.records.repository.ts:111-138 | the check-out of a record is set only while it is unset |
| `Transaction.Tx.UpdateDays` | src/attendance/leave-transition.ts:148-157 | only days of the request, on the given dates and in a source state, move; the count is theirs |
| `Transaction.Tx.InsertDays` | src/attendance/leave-transition.ts:96-119 | the bulk insert is refused exactly when a date already has an active day |
| `Records.PunchEffect` | src/attendance/check-in-out.service.ts:101-312 | every call does one of four things: nothing, one logged rejection, one attempt with one record, one attempt that closes today's record |
| `Records.OneRowPerCall` | src/attendance/check-in-out.service.ts:116-158 | in any run a call adds exactly one attempt row unless its key is replayed or raced |
| `Records.AcceptedMatchRecords` | src/attendance/check-in-out.records.repository.ts:71-138 | in any run accepted check-ins match records and accepted check-outs match closed records one to one, one record per date |
| `Records.NoCheckoutBeforeCheckin` | src/attendance/check-in-out.service.ts:171-181 | with a clock that does not go back, no record is closed before it is opened |
| `Records.HistoryExtends` | src/attendance/check-in-out.records.repository.ts:111-138 | between any two points of a run attempts are only appended, and a record only ever gains its check-out, once |
| `Records.NoBreachEver` | src/attendance/check-in-out.service.ts:197-211 | no call of any run meets a missing pin or record, an unguarded check-out, a leave row-count mismatch, a clash or vanished leave |
| `Records.BurnedKeyWritesNothing` | src/attendance/check-in-out.service.ts:115-125 | a used key writes nothing, whatever the button |
| `Records.SameKeySameAnswer` | src/attendance/check-in-out.replay.ts:44-140 | after any other calls the same key and button write nothing and get the first answer, down to work date and instants |
| `Records.AnswerIsStable` | src/attendance/check-in-out.replay.ts:44-140 | the replayed answer of a stored attempt does not depend on anything recorded later |
| `RateLimit.AtMostFivePerWindow` | src/attendance/check-in-out.rejections.ts:37-47 | in any run, with any clock, ten minutes hold at most five counted rejections |
| `RateLimit.WindowStartsAfresh` | src/attendance/check-in-out.repository.ts:80-113 | once a block has ended, every rejection still in the window was recorded after its end |
| `RateLimit.BudgetIsBack` | src/attendance/constants.ts:15-29 | the moment a block ends the window count is zero and the next rejection arms nothing |
| `RateLimit.DisciplinedBounds` | src/attendance/check-in-out.repository.ts:102-113 | rows written only while unblocked, each fifth arming a block, hold at most five per window |
| `Exclusion.NeverPresentAndOnLeave` | src/attendance/leave-validation.ts:127-133 | in any mixed run no working date has both a record and an active full-day leave day |
| `Exclusion.CheckInClears` | src/attendance/check-in-out.leave.ts:20-68 | an accepted check-in leaves no active full-day leave on today's working date and touches no other day |
| `LeaveTransition.WriteEventAndNotification` | src/attendance/leave-transition.ts:221-272 | one audit row, then one message per recipient unless its dedupe key exists |
| `LeaveTransition.TransitionLeaveDays` | src/attendance/leave-transition.ts:133-170 | all requested dates move from the source states with one audit row, or the caller must roll back |
| `LeaveTransition.InsertInitialLeaveDays` | src/attendance/leave-transition.ts:85-126 | a fresh request gets one day per date in its initial state, an audit row and its messages |
| `LeaveTransition.CancelLeaveOnDisable` | src/attendance/leave-transition.ts:180-219 | the sweep cancels request by request what the read before it found |
| `LeaveTransition.AutoCancelLeaveForCheckIn` | src/attendance/check-in-out.leave.ts:20-68 | only today's date of the active request is cancelled |
| `LeaveService.EnumerateDates` | src/attendance/leave-validation.ts:62-70 | every date of the span once, ascending |
| `LeaveService.SplitActionableDates` | src/attendance/leave-validation.ts:186-209 | future dates and today before the cutoff are acted on, exactly the rest is kept with its reason, both in date order |
| `LeaveService.SplitForRequest` | src/attendance/leave.service.ts:552-575 | the split of a request's days equals the actionable dates among them |
| `LeaveService.ApplyTransact` | src/attendance/leave.service.ts:177-325 | replay, shape, facts, raced key, then request, days, event and messages, or nothing |
| `LeaveService.ActTransact` | src/attendance/leave.service.ts:329-411 | approve, reject and revoke as one decide-and-write under the lock |
| `LeaveService.CancelTransact` | src/attendance/leave.service.ts:430-494 | the employee's cancel of what is still ahead |
| `LeaveAnswers.ApplyRefusedIff` | src/attendance/leave-validation.ts:29-167 | for any tables, applying gets each refusal exactly under its own rule and past those reported before it: employee, shape, tracking, start, age, record, days off, correction, overlap; none writes |
| `LeaveAnswers.ApplyUnwrittenIff` | src/attendance/leave.service.ts:177-325 | it replays exactly the caller's own request, or one visible elsewhere, and answers a duplicate exactly when only the key is taken |
| `LeaveAnswers.ApplyOpensIff` | src/attendance/leave.service.ts:216-325 | it opens a request exactly when no rule refuses it and its key is free: the row, a day per date, one event, the messages |
| `LeaveAnswers.ActAnswer` | src/attendance/leave.service.ts:329-411 | approve, reject, revoke: with no day to move, success exactly if the request's last event is that action by that person, else the action's conflict, and nothing is written; otherwise exactly those days, one event, the employee's message |
| `LeaveAnswers.CancelAnswer` | src/attendance/leave.service.ts:430-494 | the employee's cancel in the same way |
| `LeaveLog.LogDeterminesState` | src/attendance/leave-transition.ts:221-239 | in any run a day exists exactly if an event names it, and is in the state the last such event moves its days to |
| `LeaveLog.OneActiveDayPerDate` | supabase/migrations/20260929000001_attendance_leave_tables.sql:104-109 | in any run at most one active day exists per date |
| `LeaveLog.StepMovesLegally` | supabase/migrations/20260929000001_attendance_leave_tables.sql:145-172 | a call moves a day pending to approved, rejected or cancelled, approved to revoked or cancelled, or not at all |
| `LeaveLog.TerminalForever` | src/attendance/leave.constants.ts:62-69 | rejected, cancelled and revoked days keep their state for the rest of the run |
| `LeaveLog.StepKeepsLeave` | src/attendance/leave-transition.ts:158-168 | every call keeps the leave tables sound; the row-count abort and the index clash are never reached |
| `LeaveLog.MoveSucceeds` | src/attendance/leave-transition.ts:133-170 | a caller that decided on the rows it read under the lock moves exactly those |
| `LeaveLog.ApplyForm` | src/attendance/leave.service.ts:216-325 | after the overlap pre-check the unique index has nothing to refuse |
| `LeaveLog.OpenedDays` | src/attendance/leave-transition.ts:85-107 | an opened request has a day on exactly its span, pending or (on behalf) approved; all other days stay |
| `LeaveLog.ActionOutcome` | src/attendance/leave.service.ts:329-411 | the state of every day after a successful approve, reject or revoke |
| `LeaveLog.CancelOutcome` | src/attendance/leave.service.ts:430-494 | the state of every day after a successful cancel |
| `LeaveLog.EventNamesMoved` | src/attendance/leave-transition.ts:225-239 | the audit row of an action names its actor and exactly the days that changed |
| `LeaveLog.ActionableIsAhead` | src/attendance/leave-validation.ts:186-209 | actionable means a future date, or today before today's office start if there is one |
| `LeaveLog.DisableLeavesNothing` | src/attendance/leave.repository.ts:578-621 | in any run a disable that goes through leaves no pending day and no approved day on or after its date |
| `Messages.OneDecisionEach` | src/attendance/leave.service.ts:352-380 | in any run, on any clock, a request has at most one apply, on-behalf, approve and reject event |
| `Reopening.OneEventPerCause` | src/attendance/leave.service.ts:352-494 | nor, while no call has reopened today, more than one owner-revoke and one employee-cancel event |
| `Reopening.RepeatPossibleIff` | src/attendance/leave.service.ts:552-575 | in a run some call reopens today (an enable or reassign, effective today, from an office that has started to one that has not, with a day of today left over) if and only if after some call a further one would log a second event of a once-only cause |
| `Reopening.CommitsIffGranted` | src/attendance/enrolments.service.ts:157-264 | an enable or reassign commits exactly if employee and live office are found and, for a reassign, an open-ended enrolment covers its date: the guard of reopening is known before the call |
| `Messages.DecisionsAreHeard` | src/attendance/leave-transition.ts:241-271 | in any run, on any clock, an apply, approve, reject or check-in call that logs a leave event finds all its message keys free and takes them |
| `Reopening.NoMessageSwallowed` | src/attendance/leave-transition.ts:241-271 | so does a revoke or a cancel, while no call has reopened today with a leftover day somebody was told of |
| `Reopening.SwallowPossibleIff` | src/attendance/leave-transition.ts:241-271 | in a run some call reopens today with such a day if and only if after some call a further one, no disable, would log an event and find a message key taken |
| `RunExamples.SecondCancelIsUnheard` | src/attendance/leave.service.ts:552-575 | a run of five calls from the empty tables: cancelled, moved to an office that starts later today, cancelled again, and the second message has its key taken |
| `Messages.DisableSwallowedIff` | src/attendance/leave-transition.ts:180-219 | a disable of any run logs one event for each request it cancels days of, and skips the message of it exactly when an earlier disable already cancelled days of the request |
| `Messages.DisableCommits` | src/attendance/enrolments.service.ts:271-315 | apart from the archived-office check, a disable is never refused: neither constraint nor trigger nor row count can stop it |
| `RunExamples.SecondDisableIsUnheard` | src/attendance/leave-transition.ts:180-219 | a run: leave approved on two days, disabled from the second, then from the first; the second message is skipped |
| `Messages.RetryIsQuiet` | src/attendance/leave.service.ts:369-380 | an owner's immediate repeat of a successful action succeeds and writes nothing |
| `Messages.CancelRetryIsQuiet` | src/attendance/leave.service.ts:460-470 | the employee's immediate repeat of a cancel succeeds and writes nothing |
| `Periods.DeletedIffStartsLater` | src/attendance/enrolments-response.model.ts:72-74 | the plan deletes exactly the rows that start on or after the date |
| `Periods.ChangeRefines` | src/attendance/enrolments-response.model.ts:62-92 | on disjoint non-empty ranges the change gives disjoint non-empty ranges that read as before until the date and as the new load, or nothing, from it on |
| `Periods.ChangeKeepsPast` | src/attendance/enrolments-response.model.ts:76-84 | rows wholly before the date stay, and the row covering it is clipped there |
| `Periods.ChangeLeavesNoOther` | src/attendance/enrolments.service.ts:323-357 | every row left is an old past row, the one clipped row or the inserted row |
| `Periods.OneRowCovers` | src/attendance/enrolments-response.model.ts:76-84 | at most one row covers a date, so at most one is clipped |
| `Enrolment.EnableMeans` | src/attendance/enrolments.service.ts:157-201 | from the date on enrolled and assigned to the office, before it unchanged |
| `Enrolment.ReassignMeans` | src/attendance/enrolments.service.ts:208-264 | from the date on the new office, enrolment untouched |
| `Enrolment.DisableMeans` | src/attendance/enrolments.service.ts:271-315 | from the date on neither enrolled nor assigned, before it unchanged |
| `Enrolment.EnableCommits` | src/attendance/enrolments.service.ts:157-201 | apart from the archived-office check, neither the exclusion constraint nor the coverage trigger can refuse an enable |
| `Enrolment.ReassignCommitsIff` | src/attendance/enrolments.service.ts:208-264 | apart from the archived-office check, a reassign commits exactly when an open-ended enrolment covers its date, and is refused by the trigger exactly when a bounded one does |
| `RunExamples.BoundedMoveIsRefused` | src/attendance/enrolments.service.ts:208-264 | a run: enabled, disabled from day 10, and a reassign from day 5 is refused although the employee is enrolled then |
| `Enrolment.GuardIffCovered` | supabase/migrations/20260927000007_attendance_enrolment_tables.sql:125-240 | apart from its archived-office check, the trigger's endpoint chaining accepts exactly the tables without overhang in which every enrolled date is assigned |
| `EnrolmentAnswers.EnableAnswer` | src/attendance/enrolments.service.ts:157-201 | which refusal an enable gets, in order; else enrolled and at the office from the wanted date, or today, on and as before until then |
| `EnrolmentAnswers.ReassignAnswer` | src/attendance/enrolments.service.ts:208-264 | which refusal a reassign gets, in order; else at the office from its date on - tomorrow once today has a record - with the enrolment as it was |
| `EnrolmentAnswers.DisableAnswer` | src/attendance/enrolments.service.ts:271-315 | which refusal a disable gets; else neither enrolled nor assigned from its date on, every pending and every later approved day cancelled, one event per request in order, one message each |
| `Enrolment.OneOfficePerEnrolledDate` | src/attendance/enrolments.service.ts:157-357 | in any run a date is enrolled exactly if an assignment covers it, and by one row only, with no constraint assumed |
| `Enrolment.PastNeverChanges` | src/attendance/enrolments.service.ts:157-315 | while every call of a run is made after a date, its enrolment and office do not change |
| `Enrolment.ReassignSparesCheckedInDay` | src/attendance/enrolments.service.ts:227-234 | a reassign after today's check-in leaves today's office alone |
| `EnrolmentService.ApplyPlanToAssignments` | src/attendance/enrolments.service.ts:323-357 | delete, clip and insert on the assignments give the change in one |
| `EnrolmentService.ApplyPlanToEnrolments` | src/attendance/enrolments.service.ts:323-357 | the same on the enrolments |
| `EnrolmentService.SetEnrolment` | src/attendance/enrolments.service.ts:157-201 | enable writes both tables or nothing |
| `EnrolmentService.ReassignOffice` | src/attendance/enrolments.service.ts:208-264 | reassign with the past-date clamp and the tomorrow rule |
| `EnrolmentService.DisableEnrolment` | src/attendance/enrolments.service.ts:271-315 | disable closes both tables and sweeps the leave, or nothing |
| `CorrectionService.Put` | src/attendance/corrections.service.ts:127-244 | the gates in order, then override and audit row together |
| `CorrectionService.Remove` | src/attendance/corrections.service.ts:247-298 | soft delete with its audit row, or a quiet false |
| `CorrectionAnswers.PutRefusedIff` | src/attendance/corrections.service.ts:127-200 | a correction gets each refusal exactly under its gate and past those before it, and then writes nothing |
| `CorrectionAnswers.PutAnswer` | src/attendance/corrections.service.ts:176-244 | an accepted one is the date's active override, all others stay, and one entry goes from the override's value, else the record's, else nothing, to the value answered |
| `CorrectionAnswers.RemoveRefusedIff` | src/attendance/corrections.service.ts:247-275 | a removal is refused exactly for an unknown employee or an untracked date |
| `CorrectionAnswers.RemoveAnswer` | src/attendance/corrections.service.ts:276-298 | past that it marks the override deleted exactly if one is active on a date that has come, with one entry from its value to nothing; else it answers false and writes nothing |
| `Audit.AuditIsHistory` | src/attendance/corrections.service.ts:176-296 | in any run the last entry of a date is what the corrections show, each entry starts from the value left before it, none goes from nothing to nothing, an active override has exactly one arm |
| `Audit.CorrectionsTouchNothingElse` | src/attendance/corrections.repository.ts:48-152 | corrections never change records, attempts or leave |
| `Service.Serve` | src/attendance/check-in-out.service.ts:101-312 | any call served on the tables leaves what the step function says and gives its answer |
| `Service.ServeAll` | src/attendance/leave.service.ts:177-494 | serving any run from the empty tables gives the replies, and ends in the tables, of a history of that run |
| `CalendarDates.TextOrderIsDayOrder` | src/attendance/leave-validation.ts:39-44 | the order of `YYYY-MM-DD` strings is the order of the days |
| `CalendarDates.FromToDay` | src/attendance/enrolments-response.model.ts:49-53 | day numbers and dates are inverse, leap years included |
| `CalendarDates.AddDaysAdds` | src/attendance/enrolments-response.model.ts:49-53 | adding days to a date string is adding to its day number exactly from the year 100 on |
| `CalendarDates.YearFiftyJumps` | src/attendance/enrolments-response.model.ts:49-53 | the day after the first of January 50 comes out as the second of January 1950 |
| `CalendarDates.EnumerateDates` | src/attendance/leave-validation.ts:62-70 | the loop over strings terminates with each date of the span once, in order, from the year 100 on; for any year with the first date and then every date after the one the first step jumps to |
| `CalendarDates.ShapedDates` | src/attendance/leave-validation.ts:29-70 | on the strings, the shape check refuses exactly what it refuses on day numbers, and past it 1 to 62 dates are enumerated: the span's each once in order exactly if it is one day or starts in the year 100 or later, else its first day only |
| `SpanFacts.FactIs` | src/attendance/leave.repository.ts:190-214 | for any calendar, a date is off exactly if its weekday is in the employee's override in force or, without one, in the default in force; it is worked exactly if neither off nor a holiday, and named holiday before weekly off |
| `SpanFacts.ReadSpanFacts` | src/attendance/leave.repository.ts:223-261 | one employee's facts, each the date's own, read off the whole calendar |
| `SpanFacts.ReadPageSpanFacts` | src/attendance/leave.repository.ts:279-352 | for every span of a page and every date in it the batched fact is the one of that employee alone |
| `SpanFacts.FactSame` | src/attendance/leave.repository.ts:190-214 | a superset of rows, in any order, gives the same fact |
| `WeeklyOffs.WithQueuedClears` | src/attendance/weekly-offs-response.model.ts:115-133 | appends, in row order, one empty stand-in for each row with a future end where nothing starts, and no other |
| `WeeklyOffs.SelectionIs` | src/attendance/weekly-offs-response.model.ts:79-90 | the selection of a date is that of the row in force, or none |
| `WeeklyOffs.NextIsTheFirstChange` | src/attendance/weekly-offs-response.model.ts:79-133 | the selection stays today's up to the shown next change, is its days there, and is constant forever when none is shown |
| `Paging.PageIsHead` | src/customers/customers.service.ts:489-519 | a page is the head of the listing, with a cursor exactly when more rows follow |
| `Paging.PageIs` | src/customers/customers.service.ts:489-519 | a page holds at most its size of matching rows beyond the cursor, newest first and then by larger id, leaves none out before its last, and has that one as cursor exactly when a row follows |
| `Paging.EveryRowOnce` | src/customers/customers.service.ts:489-519 | following nextCursor terminates and reads every matching row once in list order, for any table and page size |
| `Paging.FollowReadsRest` | src/customers/customers.service.ts:711-738 | from any cursor on, following reads exactly the rest of the listing |
| `Otp.SessionStore.CheckCode` | src/auth/auth.service.ts:271-316 | one check: absent, locked, wrong (counted and re-stored) or accepted |
| `Otp.CheckAnswer` | src/auth/auth.service.ts:271-316 | each answer exactly when: absent past the last millisecond, locked, accepted, wrong; the fifth wrong one locks, and a wrong one is stored for the least whole seconds that reach the expiry |
| `Otp.OpenAnswer` | src/auth/auth.service.ts:128-150 | a new code opens a session of five minutes without a wrong guess |
| `Otp.AcceptedInTime` | src/auth/auth.service.ts:286-313 | however guesses are paced, a code is accepted at most one second per wrong guess, so four seconds, after its expiry, and never after five |
| `Otp.LockedStaysLocked` | src/auth/auth.service.ts:286-300 | a locked session is neither accepted nor stored again |
| `Otp.RateStore.Increment` | src/auth/in-memory-otp-session.store.ts:35-65 | one more send is counted and the reported wait is the entry's remaining life in whole seconds, rounded up |
| `Otp.SendAnswer` | src/auth/in-memory-otp-session.store.ts:35-65 | past its last millisecond a window of ten minutes opens with one send; before, the count grows and the end stays |
| `Otp.WindowNeverMoves` | src/auth/in-memory-otp-session.store.ts:51-58 | a send falls in the same window or starts one that ends a whole window later |
| `Otp.AtMostFivePerWindow` | src/auth/auth.service.ts:107-122 | no window sends more than five codes, and the open one has sent exactly as many as it counted, up to five |
| `Otp.AtMostTenCodes` | src/auth/auth.service.ts:107-122 | at most ten codes go out in any 600 seconds |
| `Otp.WaitReachesFreshIff` | src/auth/in-memory-otp-session.store.ts:59-64 | waiting the reported seconds reaches a fresh window exactly when the remainder was no whole number of seconds |
| `Otp.FirstWaitIsShort` | src/auth/in-memory-otp-session.store.ts:42-49 | after a first send, waiting exactly 600 seconds still meets the old window |
| `PersonPurge.EdgesSane` | scripts/super/purge.ts:55-99 | every restricting key points from an earlier step to a later one, so a reverse restore inserts parents first; the others are the known cascades and the one clearing key |
| `Purge.StepRefusedIff` | scripts/super/purge.ts:346-353 | a statement is refused exactly when a row that outlives it names, under a restricting key, a row it removes |
| `Purge.RunTracks` | scripts/super/purge.ts:329-368 | a run's store is the first one less the rows gone, and each count is its backup section less what was gone already |
| `PurgeTheorems.GoneIs` | scripts/super/purge.ts:104-151 | the plan removes the person's rows, the notifications about their jobs and their device tokens, nothing else |
| `PurgeTheorems.NoRowTwice` | scripts/super/purge.ts:404-421 | no row is in two backup sections |
| `PurgeTheorems.ReceiptMatchesBackupIff` | scripts/super/purge.ts:329-421 | deleted rows equal backed-up rows, step by step, exactly when no notification of the person is about one of their own jobs |
| `PurgeTheorems.PurgeCompletesIff` | scripts/super/purge.ts:104-151 | the purge completes exactly when no row of somebody else refers to the person's under a restricting key other than the inviter link |
| `PurgeTheorems.PurgeLeaves` | scripts/super/purge.ts:104-151 | the store after a completed purge, exactly: the other rows, with an inviter cleared exactly if it was the person and a photo's upload exactly if it was the person's, every other column as it was |
| `PurgeAnswers.MineIsOwned` | scripts/super/purge.ts:104-151 | whose rows go, table by table and column by column |
| `PurgeAnswers.PurgeAnswer` | scripts/super/purge.ts:104-151 | the purge completes exactly when no other row refers to one of the person's through a review, a founding, an import, a correction of an override, a leave request or an attempt; what is left is every other row, column for column but for the cleared links |
| `PurgePins.PinsOnlyThrough` | scripts/super/purge.ts:55-99 | only reviews, founding, corrections on overrides, imports and rows of mixed employees can stop a purge |
| `PurgePins.PreparedPurgeCompletesIff` | scripts/super/purge.ts:436-545 | past the refusals, and on coherent rows, the purge completes exactly when every correction on a day the person overrode is about them or by them and they ran no customer import |
| `PinExample.ColleaguePins` | scripts/super/purge.ts:436-545 | five rows: nothing to refuse, coherent, no import, and a colleague's correction stops the purge |
| `Restore.RestoreCompletesIff` | scripts/super/restore.ts:185-227 | restoring right after a purge goes through exactly when no backed-up row comes back before one it names, every acting person is unset, staff or an active member, every report finds room in flight, and the person's enrolments pass the coverage trigger |
| `Restore.CommitsIff` | supabase/migrations/20261020000003_roles_rewrite_to_memberships.sql:428-523 | what the deferred trigger sees after the restore is what it would have seen of the person's rows on the first database |
| `Restore.PurgeCommits` | supabase/migrations/20260927000007_attendance_enrolment_tables.sql:245-255 | the purge itself passes the deferred trigger |
| `CoverageAnswers.CoverageIs` | supabase/migrations/20261020000003_roles_rewrite_to_memberships.sql:428-523 | where ranges do not overlap, the trigger accepts an employee exactly if assignments lie in enrolments, enrolled dates are assigned, and those of an enrolment that has not ended at a live office |
| `RestoreAnswers.RestoreAnswer` | scripts/super/restore.ts:185-227 | the condition of the restore, written out on tables and columns |
| `Restore.RoundTrip` | scripts/super/restore.ts:185-227 | a restore that goes through inserts every backed-up row and gives exactly this store: every row of the file with all its columns but the generated sequence and their old values, every other row as the purge left it |
| `SecondRestore.SecondRestoreIff` | scripts/super/restore.ts:195-209 | a second restore inserts nothing and changes nothing exactly when every company of a backed-up report has fewer than three in flight, and aborts otherwise |
| `SecondRestore.OrderMattersBetween` | supabase/migrations/20260920000009_reports_retry_requeue.sql:30-65 | with that room any order of the file fits, and none does once others alone have three in flight |
| `RestoreExample.TechnicianIsNotRestored` | scripts/super/purge.ts:138-141 | one technician, one job, one notification: the receipt disagrees with the backup and the restore aborts |
| `RestoreExample.PhotoIsNotRestored` | scripts/super/restore.ts:185-227 | one technician, one job, one upload, one photo of it: the purge completes and the restore aborts |
| `GuardExample.FormerMemberIsNotRestored` | supabase/migrations/20261020000009_roles_review_round_4.sql:190-231 | a removed member with one leave request of their own: the purge completes, nothing names ahead, and the restore aborts in any order |
| `GuardExample.MovedIsNotRestored` | supabase/migrations/20261020000003_roles_rewrite_to_memberships.sql:481-523 | an open enrolment whose past leg is at an archived office: covered, purged, and the restore's commit is refused on any date |
| `GuardExample.ThreeReportsOnlyOnce` | supabase/migrations/20260920000009_reports_retry_requeue.sql:30-65 | three queued reports are restored in any order, and the second restore aborts |
| `SuperCli.ExecutePlan` | scripts/super/purge.ts:329-377 | the delete loop reports the total of its steps, or changes nothing |
| `SuperCli.BackupPlan` | scripts/super/purge.ts:404-421 | the backup loop writes exactly the sections, and counts them |
| `SuperCli.InsertRows` | scripts/super/restore.ts:196-209 | row by row in the file's order the triggers judge every row, existing rows are skipped, and a row without its parent aborts |
| `SuperCli.ApplyRestore` | scripts/super/restore.ts:185-227 | sections in reverse and the trigger at commit, all or nothing; the backup is consumed exactly when every row went in |
| `SuperCli.TotalsAgreeIff` | scripts/super/purge.ts:554-576 | the deleted total equals the backed-up total exactly when no notification of the person is about one of their own jobs |
| `SuperCli.ExecutePurge` | scripts/super/purge.ts:554-576 | backup first, then in one transaction, exactly when nothing of somebody else's refers to the person, the store the purge leaves; the deleted total is the sum of the counts and matches the backup exactly under that condition |
| `SuperCli.RestorePerson` | scripts/super/restore.ts:185-227 | exactly under the condition of the round trip that backup is consumed and every row of it is back, column by column, the rest as it was; else nothing changes |

## Left out

- Malformed date strings, ids and bodies: refused before the calls modelled here.
- Message texts, HTTP statuses, retry-after seconds, coordinates, late and early minutes, flags and view shaping: no deep property.
- Office rules, holidays, setup and weekly-off writes, monthly reports and the dashboard: their SQL bodies and reads are not part of this model.
- The half of the coverage trigger about archived offices, and the tenant lock: an input (`liveOffices`) of the lifecycle calls; a restore has that half in full.
- The trigger on who acted, outside a restore: the callers of the leave and correction calls count as active members or staff; authorisation is not part of this model.
- Other employees' rows and the admin reads: inputs of the calls; a request key is unique per tenant, modelled by `elsewhere` and `taken`.
- The leave cause for a removed technician and the on-boarding mark: no caller among the modelled calls.
- `companyPlan`: only the person plan is modelled; the company plan also deletes tenants, whose cascades reach further tables.
- The schema drift check: not modelled. The key it does not name is in the graph, so it would report drift on this schema.
- Unique and exclusion constraints other than primary keys during a restore, the broadcast of a restored notification, the JSON encoding of the backup file and the auth identities: not part of the relational model. A skipped row is a row whose key exists.
- Restore.RoundTrip: says nothing about the new values of generated columns, which are not part of a restored row here.
- Otp.AcceptedInTime: calls on one session are taken one at a time; two checks that overlap between their read and their write are not modelled.
- Exclusion.NeverPresentAndOnLeave: the working calendar is fixed over the run; a holiday or weekly-off edit after the fact is not modelled.
- Paging of the leave and correction lists: their cursor is cut to milliseconds.
- Time zones, daylight saving and the distance formula: local date, minute, month and distance are given per instant or call.
- Monitoring, guards, controllers, screens and foreign services: plumbing.
