// Enrolments and office assignments: enable, reassign and disable, each an AD-8 change on one
// or both tables, checked at commit by the coverage trigger.

module Lifecycle {
  import opened Basics
  import opened Periods
  import opened Tables
  import opened LeaveWriter

  // ------------------------------------------------------ the coverage trigger

  predicate Within(p: Period<OfficeId>, e: Period<()>) {
    e.start <= p.start && (e.end.None? || (p.end.Some? && p.end.value <= e.end.value))
  }

  /** No assignment reaches outside one enrolment. */
  predicate NoOverhang(enrolments: seq<Period<()>>, assignments: seq<Period<OfficeId>>) {
    forall a :: a in assignments ==> exists e :: e in enrolments && Within(a, e)
  }

  predicate Leg(a: Period<OfficeId>, assignments: seq<Period<OfficeId>>, e: Period<()>) {
    a in assignments && Within(a, e)
  }

  predicate Consecutive(p: Period<OfficeId>, q: Period<OfficeId>, assignments: seq<Period<OfficeId>>,
                        e: Period<()>) {
    && Leg(p, assignments, e) && Leg(q, assignments, e) && p.start < q.start
    && forall r :: r in assignments && Leg(r, assignments, e) ==> r.start <= p.start || q.start <= r.start
  }

  /** Exact endpoint chaining: the legs start at the period's start, meet, and reach its end. */
  predicate Chained(e: Period<()>, assignments: seq<Period<OfficeId>>) {
    && (exists a :: a in assignments && Leg(a, assignments, e) && a.start == e.start)
    && (forall p, q :: p in assignments && q in assignments && Consecutive(p, q, assignments, e) ==>
          p.end == Some(q.start))
    && (exists a :: a in assignments && Leg(a, assignments, e) && a.end == e.end)
  }

  predicate CoverageGuard(enrolments: seq<Period<()>>, assignments: seq<Period<OfficeId>>) {
    && NoOverhang(enrolments, assignments)
    && forall e :: e in enrolments ==> Chained(e, assignments)
  }

  // ----------------------------------------------------------------- the calls

  function Clamped(wanted: Option<Date>, today: Date): Date {
    if wanted.Some? && wanted.value > today then wanted.value else today
  }

  function AfterEnable(db: Db, from: Date, office: OfficeId): Db {
    db.(assignments := Change(db.assignments, from, true, db.nextId, office),
        enrolments := Change(db.enrolments, from, true, db.nextId + 1, ()),
        nextId := db.nextId + 2)
  }

  function AfterReassign(db: Db, from: Date, office: OfficeId): Db {
    db.(assignments := Change(db.assignments, from, true, db.nextId, office), nextId := db.nextId + 1)
  }

  function AfterDisable(db: Db, from: Date): Db {
    db.(assignments := Change(db.assignments, from, false, db.nextId, 0),
        enrolments := Change(db.enrolments, from, false, db.nextId, ()))
  }

  /** The exclusion constraint on each table, then the coverage trigger at COMMIT. */
  function Committed(before: Db, after: Db, liveOffices: bool, reply: Reply): Result {
    if !Tidy(after.enrolments) || !Tidy(after.assignments) then Result(before, Broken(PeriodClash))
    else if !CoverageGuard(after.enrolments, after.assignments) || !liveOffices then Result(before, Refused(AssignmentGap))
    else Result(after, reply)
  }

  function EnableStep(env: Env, db: Db, now: Instant, office: OfficeId, startDate: Option<Date>, employeeOk: bool,
                      fact: OfficeFact, liveOffices: bool): Result {
    if !employeeOk then Result(db, Refused(EmployeeNotFound))
    else if fact == OfficeMissing then Result(db, Refused(OfficeNotFound))
    else if fact == OfficeArchived then Result(db, Refused(OfficeIsArchived))
    else
      var from := Clamped(startDate, env.today(now));
      Committed(db, AfterEnable(db, from, office), liveOffices, AccessState)
  }

  /** A change wanted for today applies from tomorrow once the employee has checked in. */
  function ReassignFrom(env: Env, db: Db, now: Instant, effective: Option<Date>): Date {
    var today := env.today(now);
    var wanted := Clamped(effective, today);
    if wanted == today && (exists r :: r in db.records && r.workDate == today) then today + 1 else wanted
  }

  function ReassignStep(env: Env, db: Db, now: Instant, office: OfficeId, effective: Option<Date>, employeeOk: bool,
                        fact: OfficeFact, liveOffices: bool): Result {
    if !employeeOk then Result(db, Refused(EmployeeNotFound))
    else if fact == OfficeMissing then Result(db, Refused(OfficeNotFound))
    else if fact == OfficeArchived then Result(db, Refused(OfficeIsArchived))
    else
      var from := ReassignFrom(env, db, now, effective);
      if At(db.enrolments, from).None? then Result(db, Refused(NotEnrolled))
      else Committed(db, AfterReassign(db, from, office), liveOffices, AccessState)
  }

  /** The dates a disable from `from` cancels in one request. */
  function SweepDates(db: Db, req: nat, from: Date): set<Date> {
    set k | k in db.days && k.req == req && (db.days[k] == Pending || (db.days[k] == Approved && k.date >= from))
      :: k.date
  }

  /** The sweep over the first `n` requests, oldest first. */
  function Sweep(env: Env, db: Db, from: Date, n: nat): Option<Db>
    requires n <= |db.requests|
    ensures var r := Sweep(env, db, from, n); r.Some? ==> r.value.requests == db.requests
  {
    if n == 0 then Some(db)
    else
      var before := Sweep(env, db, from, n - 1);
      if before.None? then None
      else TransitionDays(before.value, n - 1, SweepDates(db, n - 1, from), {Pending, Approved}, Cancelled, Disable,
                          None, [env.employee], None)
  }

  function DisableStep(env: Env, db: Db, now: Instant, effective: Option<Date>, employeeOk: bool,
                       liveOffices: bool): Result {
    if !employeeOk then Result(db, Refused(EmployeeNotFound))
    else
      var from := Clamped(effective, env.today(now));
      var closed := AfterDisable(db, from);
      var swept := Sweep(env, closed, from, |db.requests|);
      if !Tidy(closed.enrolments) || !Tidy(closed.assignments) then Result(db, Broken(PeriodClash))
      else if swept.None? then Result(db, Broken(DayCountMismatch))
      else Committed(db, swept.value, liveOffices, AccessState)
  }
}
