// Enable, reassign and disable: the AD-8 plan executed on one or both tables, then the commit.

module EnrolmentService {
  import opened Basics
  import opened Periods
  import opened Tables
  import opened LeaveWriter
  import opened Lifecycle
  import opened Transaction
  import opened LeaveTransition

  lemma {:induction false} DeleteNone<T>(rows: seq<Period<T>>)
    ensures DeleteRanges(rows, []) == rows
  {
    if rows != [] {
      DeleteNone(rows[1..]);
    }
  }

  /** The AD-8 plan on the assignments: delete, clip, insert. */
  method ApplyPlanToAssignments(tx: Tx, from: Date, insert: bool, office: OfficeId)
    modifies tx
    ensures tx.View() == old(tx.View()).(
              assignments := Change(old(tx.assignments), from, insert, old(tx.nextId), office),
              nextId := if insert then old(tx.nextId) + 1 else old(tx.nextId))
  {
    var plan := PlanAd8Change(tx.assignments, from, insert);
    if |plan.deleteIds| == 0 {
      DeleteNone(tx.assignments);
    } else {
      tx.assignments := DeleteRanges(tx.assignments, plan.deleteIds);
    }
    if plan.clipId.Some? && plan.clipEnd.Some? {
      tx.assignments := ClipRangeEnd(tx.assignments, plan.clipId.value, plan.clipEnd.value);
    }
    if plan.insertStart.Some? && insert {
      tx.InsertAssignment(plan.insertStart.value, office);
    }
  }

  /** The AD-8 plan on the enrolments. */
  method ApplyPlanToEnrolments(tx: Tx, from: Date, insert: bool)
    modifies tx
    ensures tx.View() == old(tx.View()).(
              enrolments := Change(old(tx.enrolments), from, insert, old(tx.nextId), ()),
              nextId := if insert then old(tx.nextId) + 1 else old(tx.nextId))
  {
    var plan := PlanAd8Change(tx.enrolments, from, insert);
    if |plan.deleteIds| == 0 {
      DeleteNone(tx.enrolments);
    } else {
      tx.enrolments := DeleteRanges(tx.enrolments, plan.deleteIds);
    }
    if plan.clipId.Some? && plan.clipEnd.Some? {
      tx.enrolments := ClipRangeEnd(tx.enrolments, plan.clipId.value, plan.clipEnd.value);
    }
    if plan.insertStart.Some? && insert {
      tx.InsertEnrolment(plan.insertStart.value);
    }
  }

  /** The database's say: the exclusion constraint, then the coverage trigger at COMMIT. */
  method Commit(tx: Tx, before: Db, liveOffices: bool) returns (reply: Reply)
    modifies tx
    ensures Result(tx.View(), reply) == Committed(before, old(tx.View()), liveOffices, AccessState)
  {
    if !Tidy(tx.enrolments) || !Tidy(tx.assignments) {
      tx.Rollback(before);
      return Broken(PeriodClash);
    }
    if !CoverageGuard(tx.enrolments, tx.assignments) || !liveOffices {
      tx.Rollback(before);
      return Refused(AssignmentGap);
    }
    reply := AccessState;
  }

  method SetEnrolment(tx: Tx, env: Env, now: Instant, office: OfficeId, startDate: Option<Date>, employeeOk: bool,
                      fact: OfficeFact, liveOffices: bool) returns (reply: Reply)
    modifies tx
    ensures Result(tx.View(), reply)
         == EnableStep(env, old(tx.View()), now, office, startDate, employeeOk, fact, liveOffices)
  {
    hide Change, Committed;
    var before, today := tx.View(), env.today(now);
    var start := if startDate.Some? && startDate.value > today then startDate.value else today;
    if !employeeOk {
      return Refused(EmployeeNotFound);
    }
    if fact == OfficeMissing {
      return Refused(OfficeNotFound);
    }
    if fact == OfficeArchived {
      return Refused(OfficeIsArchived);
    }
    ApplyPlanToAssignments(tx, start, true, office);
    ApplyPlanToEnrolments(tx, start, true);
    reply := Commit(tx, before, liveOffices);
  }

  method ReassignOffice(tx: Tx, env: Env, now: Instant, office: OfficeId, effective: Option<Date>, employeeOk: bool,
                        fact: OfficeFact, liveOffices: bool) returns (reply: Reply)
    modifies tx
    ensures Result(tx.View(), reply)
         == ReassignStep(env, old(tx.View()), now, office, effective, employeeOk, fact, liveOffices)
  {
    hide Change, Committed, At;
    var before, today := tx.View(), env.today(now);
    var from := if effective.Some? && effective.value > today then effective.value else today;
    if !employeeOk {
      return Refused(EmployeeNotFound);
    }
    if fact == OfficeMissing {
      return Refused(OfficeNotFound);
    }
    if fact == OfficeArchived {
      return Refused(OfficeIsArchived);
    }
    if from == today && exists r :: r in tx.records && r.workDate == today {
      from := today + 1;
    }
    var covering := At(tx.enrolments, from);
    if covering.None? {
      return Refused(NotEnrolled);
    }
    ApplyPlanToAssignments(tx, from, true, office);
    reply := Commit(tx, before, liveOffices);
  }

  method DisableEnrolment(tx: Tx, env: Env, now: Instant, effective: Option<Date>, employeeOk: bool,
                          liveOffices: bool) returns (reply: Reply)
    modifies tx
    ensures Result(tx.View(), reply) == DisableStep(env, old(tx.View()), now, effective, employeeOk, liveOffices)
  {
    hide Change, Committed, Sweep, Tidy;
    var before, today := tx.View(), env.today(now);
    var from := if effective.Some? && effective.value > today then effective.value else today;
    if !employeeOk {
      return Refused(EmployeeNotFound);
    }
    ApplyPlanToAssignments(tx, from, false, 0);
    ApplyPlanToEnrolments(tx, from, false);
    if !Tidy(tx.enrolments) || !Tidy(tx.assignments) {
      tx.Rollback(before);
      return Broken(PeriodClash);
    }
    var ok := CancelLeaveOnDisable(tx, env, from);
    if !ok {
      tx.Rollback(before);
      return Broken(DayCountMismatch);
    }
    reply := Commit(tx, before, liveOffices);
  }
}
