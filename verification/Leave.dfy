// The leave lifecycle: apply (own and on behalf), approve / reject / revoke, cancel.

module Leave {
  import opened Basics
  import opened Periods
  import opened Tables
  import opened LeaveWriter

  const LEAVE_MAX_PAST_DAYS: int := 7
  const LEAVE_MAX_SPAN_DAYS: int := 62

  // -------------------------------------------------------------------- apply

  /** Every date from `first` to `last`, both included. */
  function Span(first: Date, last: Date): (s: set<Date>)
    ensures forall d :: d in s <==> first <= d <= last
    decreases last - first
  {
    if last < first then {} else {first} + Span(first + 1, last)
  }

  /** The request this caller already made with the key: theirs, or made by them. */
  function FindRequest(env: Env, requests: seq<Request>, key: Key, caller: UserId): (r: Option<nat>)
    ensures r.Some? ==> r.value < |requests| && requests[r.value].key == key
  {
    if requests == [] then None
    else
      var n := |requests| - 1;
      var before := FindRequest(env, requests[..n], key, caller);
      if before.Some? then before
      else if requests[n].key == key && (caller == env.employee || requests[n].createdBy == caller) then Some(n)
      else None
  }

  predicate KeyHeld(requests: seq<Request>, key: Key) {
    exists r :: r in requests && r.key == key
  }

  function ShapeRefusal(a: ApplyCall): Option<Refusal> {
    if a.last < a.first then Some(InvalidRange)
    else if a.last - a.first + 1 > LEAVE_MAX_SPAN_DAYS then Some(InvalidRange)
    else if a.part != FullDay && a.first != a.last then Some(InvalidRange)
    else None
  }

  datatype Pick = CoveringDay(day: Date) | StartingAfter(day: Date) | AnyRow

  predicate Picks(p: Period<()>, pick: Pick) {
    match pick
    case CoveringDay(d) => Contains(p, d)
    case StartingAfter(d) => p.start > d
    case AnyRow => true
  }

  /** The first start, in date order, among the enrolment rows picked. */
  function EarliestStart(rows: seq<Period<()>>, pick: Pick): Option<Date> {
    if rows == [] then None
    else
      var rest := EarliestStart(rows[1..], pick);
      if !Picks(rows[0], pick) then rest
      else if rest.Some? && rest.value < rows[0].start then rest
      else Some(rows[0].start)
  }

  /** The tracking start leave may not precede. */
  function Floor(rows: seq<Period<()>>, today: Date): Option<Date> {
    var covering := EarliestStart(rows, CoveringDay(today));
    var coming := EarliestStart(rows, StartingAfter(today));
    if covering.Some? then covering
    else if coming.Some? then coming
    else EarliestStart(rows, AnyRow)
  }

  predicate CheckedInWithin(db: Db, first: Date, last: Date, today: Date) {
    exists r :: r in db.records && first <= r.workDate <= Min(last, today)
  }

  predicate ActiveWithin(db: Db, first: Date, last: Date) {
    exists k :: k in db.days && first <= k.date <= last && Active(db.days[k])
  }

  /** A correction that proves presence: a present or half-day status, or recorded instants. */
  predicate ProvesPresence(o: Override) {
    && !o.deleted
    && (o.status == Some(Present) || o.status == Some(HalfDay)
        || (o.status.None? && (o.checkinAt.Some? || o.checkoutAt.Some?)))
  }

  predicate CorrectedWithin(db: Db, first: Date, last: Date) {
    exists d :: d in db.overrides && first <= d <= last && ProvesPresence(db.overrides[d])
  }

  /** The gate and the rejection rules, in reporting order. */
  function FactsRefusal(env: Env, db: Db, today: Date, a: ApplyCall): Option<Refusal> {
    var floor := Floor(db.enrolments, today);
    if !a.settings.setupCompleted || !a.settings.enabled then Some(AttendanceNotTracked)
    else if db.enrolments == [] || (At(db.enrolments, today).None? && !(floor.Some? && floor.value > today)) then
      Some(AttendanceNotTracked)
    else if floor.Some? && a.first < floor.value then Some(BeforeStartDate)
    else if a.first < today - LEAVE_MAX_PAST_DAYS then Some(TooOld)
    else if CheckedInWithin(db, a.first, a.last, today) then Some(CheckedInConflict)
    else if forall d :: a.first <= d <= a.last ==> !env.working(d) then Some(AlreadyOff)
    else if CorrectedWithin(db, a.first, a.last) then Some(CheckedInConflict)
    else if ActiveWithin(db, a.first, a.last) then Some(Overlap)
    else None
  }

  /** The partial unique index: no second active day on any of the dates. */
  predicate ClashesWithActive(db: Db, dates: set<Date>) {
    exists k :: k in db.days && k.date in dates && Active(db.days[k])
  }

  /** The request row and its day rows, event and notifications. */
  function OpenRequest(env: Env, db: Db, a: ApplyCall): Db {
    var db' := db.(requests := db.requests + [Request(a.key, a.caller, a.first, a.last, a.part)]);
    OpenDays(db', |db.requests|, Span(a.first, a.last), if a.onBehalf then Approved else Pending,
             if a.onBehalf then ApplyOnBehalf else Apply, a.caller,
             if a.onBehalf then [env.employee] else a.admins)
  }

  function ApplyStep(env: Env, db: Db, now: Instant, a: ApplyCall): Result {
    var today := env.today(now);
    var mine := FindRequest(env, db.requests, a.key, a.caller);
    if a.onBehalf && !a.employeeExists then Result(db, Refused(EmployeeNotFound))
    else if mine.Some? then Result(db, LeaveReplay(mine.value))
    else if a.elsewhere == Visible then Result(db, LeaveReplayElsewhere)
    else if ShapeRefusal(a).Some? then Result(db, Refused(ShapeRefusal(a).value))
    else if FactsRefusal(env, db, today, a).Some? then Result(db, Refused(FactsRefusal(env, db, today, a).value))
    else if KeyHeld(db.requests, a.key) || a.elsewhere == Hidden then Result(db, DuplicateKey)
    else if ClashesWithActive(db, Span(a.first, a.last)) then Result(db, Broken(ActiveDayClash))
    else Result(OpenRequest(env, db, a), LeaveView(|db.requests|, {}))
  }

  // ---------------------------------------------------------------- the split

  /** Today's office start; no covering office or rule means there is no start to miss. */
  function StartMinute(env: Env, db: Db, today: Date): Option<int> {
    var office := At(db.assignments, today);
    if office.None? then None else env.start(office.value, today)
  }

  predicate CutoffPassed(env: Env, db: Db, now: Instant) {
    var start := StartMinute(env, db, env.today(now));
    start.Some? && env.minute(now) >= start.value
  }

  /** Future dates, and today until the office start. */
  predicate Actionable(env: Env, db: Db, now: Instant, d: Date) {
    d > env.today(now) || (d == env.today(now) && !CutoffPassed(env, db, now))
  }

  function ActionableIn(env: Env, db: Db, now: Instant, dates: set<Date>): set<Date> {
    set d | d in dates && Actionable(env, db, now, d)
  }

  // ------------------------------------------------- approve / reject / revoke

  function Sources(action: OwnerAction): set<DayState> {
    match action
    case ToApprove => {Pending}
    case ToReject => {Pending}
    case ToRevoke => {Approved}
  }

  function MovesTo(action: OwnerAction): DayState {
    match action
    case ToApprove => Approved
    case ToReject => Rejected
    case ToRevoke => Revoked
  }

  function CauseOf(action: OwnerAction): Cause {
    match action
    case ToApprove => Approve
    case ToReject => Reject
    case ToRevoke => OwnerRevoke
  }

  /** The dates an owner's action would move. */
  function ActionDates(env: Env, db: Db, now: Instant, req: nat, action: OwnerAction): set<Date> {
    var source := DatesIn(db, req, Sources(action));
    if action == ToRevoke then ActionableIn(env, db, now, source) else source
  }

  /** An empty action answers the actor's own retry, or a conflict. */
  function NothingToDo(db: Db, req: nat, cause: Cause, actor: UserId, refusal: Refusal): Result {
    var last := LastEvent(db.events, req);
    if last.Some? && last.value.cause == cause && last.value.actor == Some(actor)
    then Result(db, LeaveReplay(req))
    else Result(db, Refused(refusal))
  }

  function ActStep(env: Env, db: Db, now: Instant, req: nat, actor: UserId, action: OwnerAction): Result {
    if req >= |db.requests| then Result(db, Refused(RequestNotFound))
    else
      var dates := ActionDates(env, db, now, req, action);
      if dates == {} then
        NothingToDo(db, req, CauseOf(action), actor, if action == ToRevoke then NotRevokable else NotPending)
      else
        var done := TransitionDays(db, req, dates, Sources(action), MovesTo(action), CauseOf(action), Some(actor),
                                   [env.employee], None);
        if done.None? then Result(db, Broken(DayCountMismatch)) else Result(done.value, LeaveView(req, dates))
  }

  // ------------------------------------------------------------------- cancel

  function CancelDates(env: Env, db: Db, now: Instant, req: nat): set<Date> {
    ActionableIn(env, db, now, DatesIn(db, req, {Pending, Approved}))
  }

  function CancelStep(env: Env, db: Db, now: Instant, req: nat, admins: seq<UserId>): Result {
    if req >= |db.requests| then Result(db, Refused(RequestNotFound))
    else
      var dates := CancelDates(env, db, now, req);
      if dates == {} then NothingToDo(db, req, EmployeeCancel, env.employee, NotCancellable)
      else
        var done := TransitionDays(db, req, dates, {Pending, Approved}, Cancelled, EmployeeCancel,
                                   Some(env.employee), admins, None);
        if done.None? then Result(db, Broken(DayCountMismatch)) else Result(done.value, LeaveView(req, dates))
  }
}
