// The triggers that can refuse an inserted row: who acted, how many reports are in flight, and, at
// commit, the coverage of an employee's enrolments.

module Guards {
  import opened Basics
  import opened Periods
  import opened Lifecycle
  import opened Relational

  predicate Has(x: Row, c: Col, v: nat) {
    c in x && x[c] == v
  }

  // --------------------------------------------------------------- who acted

  const TRUE: nat := 1

  /** A membership's status. */
  const ACTIVE: nat := 1
  const REMOVED: nat := 2

  /** The column that says who acted, on the tables that check it. */
  function ActorCol(t: Table): Option<Col> {
    match t
    case LeaveRequests => Some(CreatedBy)
    case LeaveEvents => Some(ActorId)
    case AttendanceDayOverrides => Some(CreatedBy)
    case AttendanceCorrections => Some(ActorId)
    case _ => None
  }

  predicate Staff(t: Store, a: nat) {
    exists p :: p in t && p.table == Users && Has(t[p], Id, a) && Has(t[p], PlatformAdmin, TRUE)
  }

  predicate ActiveMember(t: Store, a: nat, tenant: nat) {
    exists p :: p in t && p.table == Memberships && Has(t[p], UserId, a) && Has(t[p], TenantId, tenant)
                && Has(t[p], Status, ACTIVE)
  }

  /** Nobody acted, or staff did, or an active member of the row's company. */
  predicate ActorOk(t: Store, table: Table, x: Row) {
    var col := ActorCol(table);
    || col.None? || col.value !in x
    || Staff(t, x[col.value]) || (TenantId in x && ActiveMember(t, x[col.value], x[TenantId]))
  }

  // ------------------------------------------------------- reports in flight

  const MAX_IN_FLIGHT: nat := 3

  /** A report's status. */
  const QUEUED: nat := 1
  const GENERATING: nat := 2
  const READY: nat := 3

  predicate InFlight(x: Row, tenant: nat) {
    Has(x, TenantId, tenant) && (Has(x, Status, QUEUED) || Has(x, Status, GENERATING))
  }

  function InFlightRows(t: Store, tenant: nat): set<Ref> {
    set r | r in t && r.table == ReportRequests && InFlight(t[r], tenant)
  }

  /** Before any report row, whatever its own status, its company has fewer than three in flight. */
  predicate RoomFor(t: Store, table: Table, x: Row) {
    table == ReportRequests && TenantId in x ==> |InFlightRows(t, x[TenantId])| < MAX_IN_FLIGHT
  }

  // ----------------------------------------------------------------- coverage

  function EndOf(x: Row): Option<Date> {
    if ValidTo in x then Some(x[ValidTo]) else None
  }

  function StartOf(x: Row): Date {
    if ValidFrom in x then x[ValidFrom] else 0
  }

  /** An employee's rows in a table. */
  function RowsOf(t: Store, table: Table, v: nat): set<Ref> {
    set r | r in t && r.table == table && Has(t[r], EmployeeId, v)
  }

  /** Their ids, ascending. */
  function IdsOf(t: Store, table: Table, v: nat): (ids: seq<Date>)
    ensures forall i :: i in ids <==> i >= 0 && Ref(table, i) in RowsOf(t, table, v)
  {
    Ascending(set r | r in RowsOf(t, table, v) :: r.row)
  }

  function RangeOf(id: nat, x: Row): Period<()> {
    Period(id, StartOf(x), EndOf(x), ())
  }

  function LegOf(id: nat, x: Row): Period<OfficeId> {
    Period(id, StartOf(x), EndOf(x), if OfficeId in x then x[OfficeId] else 0)
  }

  function RangesOf(t: Store, v: nat): seq<Period<()>> {
    var ids := IdsOf(t, AttendanceEnrolments, v);
    seq(|ids|, i requires 0 <= i < |ids| =>
      assert ids[i] in ids;
      RangeOf(ids[i], t[Ref(AttendanceEnrolments, ids[i])]))
  }

  function LegsOf(t: Store, v: nat): seq<Period<OfficeId>> {
    var ids := IdsOf(t, AttendanceOfficeAssignments, v);
    seq(|ids|, i requires 0 <= i < |ids| =>
      assert ids[i] in ids;
      LegOf(ids[i], t[Ref(AttendanceOfficeAssignments, ids[i])]))
  }

  predicate LiveOffice(t: Store, office: nat) {
    exists o :: o in t && o.table == AttendanceOffices && Has(t[o], Id, office) && ArchivedAt !in t[o]
  }

  function Live(t: Store, legs: seq<Period<OfficeId>>): (live: seq<Period<OfficeId>>)
    ensures forall a :: a in live <==> a in legs && LiveOffice(t, a.load)
  {
    if legs == [] then []
    else (if LiveOffice(t, legs[0].load) then [legs[0]] else []) + Live(t, legs[1..])
  }

  /** The range has not ended on the company's date of today. */
  predicate CurrentOrFuture(t: Store, v: nat, x: Row, today: nat -> Date) {
    TenantId in x
    && (exists m :: m in t && m.table == Memberships && Has(t[m], UserId, v) && Has(t[m], TenantId, x[TenantId]))
    && (ValidTo !in x || x[ValidTo] > today(x[TenantId]))
  }

  /** A current or future enrolment of the employee is chained over legs at offices that are not archived. */
  predicate LiveOk(t: Store, v: nat, today: nat -> Date, r: Ref) {
    r in t && r.table == AttendanceEnrolments && Has(t[r], EmployeeId, v) && CurrentOrFuture(t, v, t[r], today) ==>
      Chained(RangeOf(r.row, t[r]), Live(t, LegsOf(t, v)))
  }

  /**
   * What the coverage trigger asks of an employee: no leg outside an enrolment, every enrolment
   * chained, and every current or future one over live offices.
   */
  predicate CoverageOk(t: Store, v: nat, today: nat -> Date) {
    CoverageGuard(RangesOf(t, v), LegsOf(t, v)) && forall r :: r in t ==> LiveOk(t, v, today, r)
  }

  predicate Watched(t: Table) {
    t == AttendanceEnrolments || t == AttendanceOfficeAssignments
  }

  /** At commit the trigger runs for the employee of every enrolment and assignment that was inserted. */
  predicate Commits(before: Store, after: Store, today: nat -> Date) {
    forall r :: r in after && r !in before && Watched(r.table) && EmployeeId in after[r] ==>
      CoverageOk(after, after[r][EmployeeId], today)
  }
}
