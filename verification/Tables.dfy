// The rows one employee owns, the calls that change them and the answers they get.
// Every call runs in one transaction under the employee's exclusive lock, so a run of the
// system is, for one employee, a sequence of these calls.

module Tables {
  import opened Basics
  import opened Periods

  // ------------------------------------------------------------- check-in/out

  datatype Kind = CheckIn | CheckOut

  datatype Outcome =
    | Ok | TooFar | LowAccuracy | Mocked | StaleFix
    | RateLimited | NotTracked | AlreadyCheckedIn | AlreadyCheckedOut | NotCheckedIn
    | LeaveConfirmationRequired

  /** One attendance_attempts row; its id is its position in the table. */
  datatype Attempt = Attempt(key: Key, kind: Kind, outcome: Outcome, at: Instant, blockedUntil: Option<Instant>)

  datatype CheckoutMark = CheckoutMark(at: Instant, attempt: nat)

  /** One attendance_records row. */
  datatype Record = Record(workDate: Date, office: OfficeId, checkinAt: Instant, checkinAttempt: nat,
                           checkout: Option<CheckoutMark>)

  // -------------------------------------------------------------------- leave

  datatype Part = FullDay | FirstHalf | SecondHalf

  datatype DayState = Pending | Approved | Rejected | Cancelled | Revoked

  /** One leave_requests row; its id is its position in the table. */
  datatype Request = Request(key: Key, createdBy: UserId, first: Date, last: Date, part: Part)

  datatype DayKey = DayKey(req: nat, date: Date)

  datatype Cause =
    | Apply | ApplyOnBehalf | Approve | Reject | EmployeeCancel | OwnerRevoke | CheckinAutoCancel | Disable

  /** One leave_events row; the table position is `seq`. `actor == None` is the system. */
  datatype Event = Event(req: nat, cause: Cause, actor: Option<UserId>, dates: set<Date>)

  /** A notification's dedupe key. The tenant, fixed here, and the employee of an alert are left implicit. */
  datatype NoticeKey =
    | LeaveNotice(cause: Cause, recipient: UserId, key: Key, tag: Option<Date>)
    | FakeLocationAlert(recipient: UserId, month: int)

  // -------------------------------------------------------------- corrections

  datatype DayGrade = Present | HalfDay | Absent | OtherGrade(code: nat)

  /** An override row. `status == None` is the times-only arm. */
  datatype Override = Override(status: Option<DayGrade>, checkinAt: Option<Instant>, checkoutAt: Option<Instant>,
                               deleted: bool)

  /** The observable shape of a day: instants are shown as tenant-offset text. */
  datatype Shown = Shown(status: Option<DayGrade>, checkin: Option<int>, checkout: Option<int>)

  datatype Correction = Correction(workDate: Date, actor: UserId, oldValue: Shown, newValue: Shown)

  // -------------------------------------------------------------------- state

  datatype Db = Db(
    attempts: seq<Attempt>,
    records: seq<Record>,
    requests: seq<Request>,
    days: map<DayKey, DayState>,
    events: seq<Event>,
    notices: set<NoticeKey>,
    enrolments: seq<Period<()>>,
    assignments: seq<Period<OfficeId>>,
    nextId: nat,
    overrides: map<Date, Override>,
    corrections: seq<Correction>)

  const EMPTY := Db([], [], [], map[], [], {}, [], [], 0, map[], [])

  /**
   * What the calls read and do not write: the tenant clock (local date, minute of day and month
   * of an instant), the fixed calendar, each office's start minute on a date, and the text an
   * instant is shown as.
   */
  datatype Env = Env(
    employee: UserId,
    today: Instant -> Date,
    minute: Instant -> int,
    month: Instant -> int,
    working: Date -> bool,
    start: (OfficeId, Date) -> Option<int>,
    text: Instant -> int)

  datatype Settings = Settings(setupCompleted: bool, enabled: bool)

  // -------------------------------------------------------------------- calls

  /** The device's fix; `distanceM` is the distance to the pin of the office covering today. */
  datatype Fix = Fix(fixAgeMs: int, accuracyM: real, distanceM: real, mocked: bool)

  /** `taken`: another employee of the tenant holds an attempt with this key. */
  datatype PunchCall = PunchCall(key: Key, kind: Kind, confirm: bool, fix: Fix, radiusM: real,
                                 settings: Settings, taken: bool, admins: seq<UserId>)

  /** Whether another employee's request holds the key, and whether the caller may see it. */
  datatype Elsewhere = Free | Hidden | Visible

  datatype ApplyCall = ApplyCall(key: Key, caller: UserId, onBehalf: bool, employeeExists: bool,
                                 first: Date, last: Date, part: Part, settings: Settings,
                                 elsewhere: Elsewhere, admins: seq<UserId>)

  datatype OwnerAction = ToApprove | ToReject | ToRevoke

  datatype OfficeFact = OfficeMissing | OfficeArchived | OfficeActive

  datatype PutCall = PutCall(workDate: Date, actor: UserId, status: Option<DayGrade>,
                             checkinAt: Option<Instant>, checkoutAt: Option<Instant>,
                             employeeExists: bool, noteOk: bool, tracked: bool, grade: DayGrade)

  datatype Call =
    | Punch(punch: PunchCall)
    | ApplyLeave(apply: ApplyCall)
    | ActOnLeave(req: nat, actor: UserId, action: OwnerAction)
    | CancelLeave(req: nat, admins: seq<UserId>)
    | Enable(office: OfficeId, startDate: Option<Date>, employeeOk: bool, fact: OfficeFact, liveOffices: bool)
    | Reassign(office: OfficeId, effective: Option<Date>, employeeOk: bool, fact: OfficeFact, liveOffices: bool)
    | DisableFrom(effective: Option<Date>, employeeOk: bool, liveOffices: bool)
    | PutCorrection(put: PutCall)
    | RemoveCorrection(workDate: Date, actor: UserId, employeeExists: bool, tracked: bool)

  // ------------------------------------------------------------------ answers

  datatype Refusal =
    | EmployeeNotFound | RequestNotFound | InvalidRange | AttendanceNotTracked | BeforeStartDate | TooOld
    | CheckedInConflict | AlreadyOff | Overlap | NotPending | NotRevokable | NotCancellable
    | OfficeNotFound | OfficeIsArchived | NotEnrolled | AssignmentGap
    | NoteInvalid | FutureDate | DateNotTracked | ValueInvalid | InstantInvalid

  /**
   * The contract breaks the code guards against: it aborts on each, except that it answers an index
   * clash as an overlap, and only logs leave that vanished. The model answers each with its own reply, so
   * that no call meeting one can be stated.
   */
  datatype Breach =
    | OfficePinMissing | RecordMissing | CheckoutUnguarded | ReadBackEmpty | DayCountMismatch | ActiveDayClash
    | PeriodClash | LeaveVanished

  datatype Reply =
    | CheckedIn(workDate: Date, checkinAt: Instant)
    | CheckedOut(workDate: Date, checkinAt: Instant, checkoutAt: Instant)
    | Rejection(outcome: Outcome)
    | DuplicateKey
    | LeaveView(req: nat, dates: set<Date>)
    | LeaveReplay(req: nat)
    | LeaveReplayElsewhere
    | AccessState
    | Corrected(shown: Shown)
    | Removed(deleted: bool)
    | Refused(refusal: Refusal)
    | Broken(breach: Breach)

  datatype Result = Result(db: Db, reply: Reply)

  predicate Active(s: DayState) {
    s == Pending || s == Approved
  }
}
