// Purging one person: the plan, the foreign keys around it, when it completes, and when its
// receipt agrees with its backup.

module PersonPurge {
  import opened Basics
  import opened Relational
  import opened Purge

  function One(child: Table, col: Col, parent: Table, rule: Rule): Edge {
    Edge(child, Key(col, Id), None, parent, rule)
  }

  function Two(child: Table, c1: Col, c2: Col, parent: Table, p1: Col, p2: Col): Edge {
    Edge(child, Key(c1, p1), Some(Key(c2, p2)), parent, Restrict)
  }

  /** An (employee, tenant) reference to a membership. */
  function OfEmployee(child: Table): Edge {
    Two(child, EmployeeId, TenantId, Memberships, UserId, TenantId)
  }

  // The restricting keys the tool checks against the live schema before every run, by parent.

  /** The columns that refer to a user. */
  function UserColumns(): seq<(Table, Col)> {
    [(AccountDeletionRequests, ReviewedBy), (AccountDeletionRequests, UserId), (ActivityLogs, ActorId),
     (AttachmentReports, ReporterId), (AttachmentReports, ReviewedBy), (AttendanceCorrections, ActorId),
     (AttendanceDayOverrides, CreatedBy), (AuditLog, ActorUserId), (AuditLog, TargetUserId), (Jobs, TechnicianId),
     (LeaveEvents, ActorId), (LeaveRequests, CreatedBy), (Memberships, InvitedBy), (Memberships, UserId),
     (Notifications, UserId), (ReportRequests, RequestedBy), (SkillRequests, RequestedBy), (Tenants, CreatedBy)]
  }

  /** The tables whose rows belong to an employee. */
  function EmployeeTables(): seq<Table> {
    [AttendanceAttempts, AttendanceCorrections, AttendanceDayOverrides, AttendanceEnrolments,
     AttendanceOfficeAssignments, AttendanceOnboarding, AttendanceRecords, AttendanceWeeklyOffOverrides,
     LeaveEvents, LeaveRequestDays, LeaveRequests]
  }

  /** The tables that refer to the company by itself. */
  function TenantTables(): seq<Table> {
    [AuditLog, Memberships, Notifications, SkillRequests]
  }

  function OtherKeys(): seq<Edge> {
    [Two(AttendanceCorrections, EmployeeId, WorkDate, AttendanceDayOverrides, EmployeeId, WorkDate),
     Two(AttendanceOfficeAssignments, OfficeId, TenantId, AttendanceOffices, Id, TenantId),
     One(AttendanceOfficeRules, OfficeId, AttendanceOffices, Restrict),
     One(AttendanceRecords, CheckinAttemptId, AttendanceAttempts, Restrict),
     One(AttendanceRecords, CheckoutAttemptId, AttendanceAttempts, Restrict),
     Two(AttendanceRecords, OfficeId, TenantId, AttendanceOffices, Id, TenantId),
     One(AttendanceRecords, OfficeRulesId, AttendanceOfficeRules, Restrict),
     One(Jobs, CustomerId, Customers, Restrict),
     One(LeaveEvents, LeaveRequestId, LeaveRequests, Restrict),
     One(LeaveRequestDays, LeaveRequestId, LeaveRequests, Restrict)]
  }

  function ToUsers(columns: seq<(Table, Col)>): seq<Edge> {
    seq(|columns|, i requires 0 <= i < |columns| => One(columns[i].0, columns[i].1, Users, Restrict))
  }

  function ToMemberships(tables: seq<Table>): seq<Edge> {
    seq(|tables|, i requires 0 <= i < |tables| => OfEmployee(tables[i]))
  }

  function ToTenants(tables: seq<Table>): seq<Edge> {
    seq(|tables|, i requires 0 <= i < |tables| => One(tables[i], TenantId, Tenants, Restrict))
  }

  function ExpectedEdges(): seq<Edge> {
    ToUsers(UserColumns()) + ToMemberships(EmployeeTables()) + ToTenants(TenantTables()) + OtherKeys()
  }

  const NOTICE_OF_JOB := One(Notifications, JobId, Jobs, Cascade)
  const TOKEN_OF_USER := One(DeviceTokens, UserId, Users, Cascade)
  const PHOTO_OF_UPLOAD := One(Attachments, UploadId, AttachmentUploads, SetNull)

  /** The keys the check ignores because they never refuse a delete. */
  function SilentEdges(): seq<Edge> {
    [One(ActivityLogs, JobId, Jobs, Cascade),
     One(AttachmentUploads, JobId, Jobs, Cascade),
     One(Attachments, JobId, Jobs, Cascade),
     NOTICE_OF_JOB,
     One(AttachmentReports, AttachmentId, Attachments, Cascade),
     One(UserSkills, UserId, Users, Cascade),
     TOKEN_OF_USER,
     PHOTO_OF_UPLOAD]
  }

  /** On the migrations' schema: who ran an import. The tool's list does not name it. */
  const IMPORT_OF_USER := One(ImportBatches, ActorUserId, Users, Restrict)

  function Edges(): seq<Edge> {
    ExpectedEdges() + [IMPORT_OF_USER] + SilentEdges()
  }

  const ON_OWN_JOB := OneOf(JobId, Jobs, Is(TechnicianId))
  const ON_OWN_REQUEST := OneOf(LeaveRequestId, LeaveRequests, Is(CreatedBy))

  /** Everything that references the person, children first. */
  function Plan(): (plan: seq<Step>)
    ensures |plan| == STEPS
  {
    [Delete(AuditLog, Either(Is(ActorUserId), Is(TargetUserId))),
     Delete(ActivityLogs, Either(Is(ActorId), ON_OWN_JOB)),
     Delete(AttendanceCorrections, Either(Is(ActorId), Is(EmployeeId))),
     Delete(AttendanceDayOverrides, Either(Is(CreatedBy), Is(EmployeeId))),
     Delete(LeaveEvents, Either(Either(Is(ActorId), Is(EmployeeId)), ON_OWN_REQUEST)),
     Delete(LeaveRequestDays, Either(Is(EmployeeId), ON_OWN_REQUEST)),
     Delete(LeaveRequests, Either(Is(CreatedBy), Is(EmployeeId))),
     Delete(AttendanceRecords, Is(EmployeeId)),
     Delete(AttendanceAttempts, Is(EmployeeId)),
     Delete(AttendanceEnrolments, Is(EmployeeId)),
     Delete(AttendanceOfficeAssignments, Is(EmployeeId)),
     Delete(AttendanceOnboarding, Is(EmployeeId)),
     Delete(AttendanceWeeklyOffOverrides, Is(EmployeeId)),
     Delete(AttachmentReports, Either(Is(ReporterId), OneOf(AttachmentId, Attachments, ON_OWN_JOB))),
     Delete(AttachmentUploads, ON_OWN_JOB),
     Delete(Attachments, ON_OWN_JOB),
     Delete(Jobs, Is(TechnicianId)),
     Delete(Notifications, Is(UserId)),
     Delete(ReportRequests, Is(RequestedBy)),
     Delete(SkillRequests, Is(RequestedBy)),
     Delete(AccountDeletionRequests, Is(UserId)),
     Delete(UserSkills, Is(UserId)),
     Clear(Memberships, InvitedBy),
     Delete(Memberships, Is(UserId)),
     Delete(Users, Is(Id))]
  }

  const STEPS := 25
  const AT_UPLOADS := 14
  const AT_ATTACHMENTS := 15
  const AT_JOBS := 16
  const AT_NOTIFICATIONS := 17
  const AT_REPORTS := 18
  const AT_USERS := 24

  /** The step that deletes from a table. */
  function StepOf(t: Table): Option<nat> {
    match t
    case AuditLog => Some(0)
    case ActivityLogs => Some(1)
    case AttendanceCorrections => Some(2)
    case AttendanceDayOverrides => Some(3)
    case LeaveEvents => Some(4)
    case LeaveRequestDays => Some(5)
    case LeaveRequests => Some(6)
    case AttendanceRecords => Some(7)
    case AttendanceAttempts => Some(8)
    case AttendanceEnrolments => Some(9)
    case AttendanceOfficeAssignments => Some(10)
    case AttendanceOnboarding => Some(11)
    case AttendanceWeeklyOffOverrides => Some(12)
    case AttachmentReports => Some(13)
    case AttachmentUploads => Some(14)
    case Attachments => Some(15)
    case Jobs => Some(16)
    case Notifications => Some(17)
    case ReportRequests => Some(18)
    case SkillRequests => Some(19)
    case AccountDeletionRequests => Some(20)
    case UserSkills => Some(21)
    case Memberships => Some(23)
    case Users => Some(24)
    case _ => None
  }

  /** The condition of the step that deletes from a table. */
  function CondOf(t: Table): Cond {
    match t
    case AuditLog => Either(Is(ActorUserId), Is(TargetUserId))
    case ActivityLogs => Either(Is(ActorId), ON_OWN_JOB)
    case AttendanceCorrections => Either(Is(ActorId), Is(EmployeeId))
    case AttendanceDayOverrides => Either(Is(CreatedBy), Is(EmployeeId))
    case LeaveEvents => Either(Either(Is(ActorId), Is(EmployeeId)), ON_OWN_REQUEST)
    case LeaveRequestDays => Either(Is(EmployeeId), ON_OWN_REQUEST)
    case LeaveRequests => Either(Is(CreatedBy), Is(EmployeeId))
    case AttendanceRecords => Is(EmployeeId)
    case AttendanceAttempts => Is(EmployeeId)
    case AttendanceEnrolments => Is(EmployeeId)
    case AttendanceOfficeAssignments => Is(EmployeeId)
    case AttendanceOnboarding => Is(EmployeeId)
    case AttendanceWeeklyOffOverrides => Is(EmployeeId)
    case AttachmentReports => Either(Is(ReporterId), OneOf(AttachmentId, Attachments, ON_OWN_JOB))
    case AttachmentUploads => ON_OWN_JOB
    case Attachments => ON_OWN_JOB
    case Jobs => Is(TechnicianId)
    case Notifications => Is(UserId)
    case ReportRequests => Is(RequestedBy)
    case SkillRequests => Is(RequestedBy)
    case AccountDeletionRequests => Is(UserId)
    case UserSkills => Is(UserId)
    case Memberships => Is(UserId)
    case Users => Is(Id)
    case _ => Is(Id)
  }

  // -------------------------------------------------------- the plan's shape

  lemma OneStepPerTable(n: nat)
    requires n < |Plan()|
    ensures Plan()[n].Delete? <==> n != 22
    ensures Plan()[n].Delete? ==> StepOf(Plan()[n].table) == Some(n)
  {
  }

  lemma StepIsFor(t: Table)
    requires StepOf(t).Some?
    ensures StepOf(t).value < STEPS && Plan()[StepOf(t).value] == Delete(t, CondOf(t))
  {
  }

  /** The child's step, if both tables have one, comes first. */
  predicate ChildFirst(child: Table, parent: Table) {
    match parent
    case Users => child != Users
    case Memberships => child != Users && child != Memberships
    case AttendanceDayOverrides => child == AttendanceCorrections
    case LeaveRequests => child == LeaveEvents || child == LeaveRequestDays
    case AttendanceAttempts => child == AttendanceRecords
    case Tenants => true
    case Customers => true
    case AttendanceOffices => true
    case AttendanceOfficeRules => true
    case _ => false
  }

  lemma StepsInOrder(child: Table, parent: Table)
    requires ChildFirst(child, parent) && StepOf(child).Some? && StepOf(parent).Some?
    ensures StepOf(child).value < StepOf(parent).value
  {
  }

  /** What the proofs need of a restricting key; first of all: children before parents. */
  predicate RestrictSane(e: Edge) {
    && e.rule == Restrict && EdgeOk(e)
    && ChildFirst(e.child, e.parent)
    && e.parent != Notifications && e.parent != DeviceTokens && e.child != DeviceTokens
    && (e.child == Notifications ==> e.parent == Tenants || e == One(Notifications, UserId, Users, Restrict))
    && (HardChild(e) || e == One(Memberships, InvitedBy, Users, Restrict))
  }

  /** The cascading and the clearing keys, case by case. */
  predicate SilentSane(e: Edge) {
    && EdgeOk(e)
    && (|| (e == One(e.child, JobId, Jobs, Cascade)
            && e.child in {ActivityLogs, AttachmentUploads, Attachments, Notifications})
        || e == One(AttachmentReports, AttachmentId, Attachments, Cascade)
        || (e == One(e.child, UserId, Users, Cascade) && e.child in {UserSkills, DeviceTokens})
        || e == PHOTO_OF_UPLOAD)
  }

  /** The rows naming the person through this column are the person's own. */
  predicate Taken(t: Table, col: Col) {
    match t
    case AuditLog => col == ActorUserId || col == TargetUserId
    case ActivityLogs => col == ActorId
    case AttendanceCorrections => col == ActorId || col == EmployeeId
    case AttendanceDayOverrides => col == CreatedBy || col == EmployeeId
    case LeaveEvents => col == ActorId || col == EmployeeId
    case LeaveRequests => col == CreatedBy || col == EmployeeId
    case LeaveRequestDays => col == EmployeeId
    case AttendanceRecords => col == EmployeeId
    case AttendanceAttempts => col == EmployeeId
    case AttendanceEnrolments => col == EmployeeId
    case AttendanceOfficeAssignments => col == EmployeeId
    case AttendanceOnboarding => col == EmployeeId
    case AttendanceWeeklyOffOverrides => col == EmployeeId
    case AttachmentReports => col == ReporterId
    case Jobs => col == TechnicianId
    case Notifications => col == UserId
    case ReportRequests => col == RequestedBy
    case SkillRequests => col == RequestedBy
    case AccountDeletionRequests => col == UserId
    case Memberships => col == UserId
    case _ => false
  }

  /** The keys through which somebody else's row can refer to one of the person's. */
  predicate Review(e: Edge) {
    || e == One(AccountDeletionRequests, ReviewedBy, Users, Restrict)
    || e == One(AttachmentReports, ReviewedBy, Users, Restrict)
    || e == One(Tenants, CreatedBy, Users, Restrict)
  }

  const CORRECTION_OF_OVERRIDE :=
    Two(AttendanceCorrections, EmployeeId, WorkDate, AttendanceDayOverrides, EmployeeId, WorkDate)

  predicate SameEmployee(e: Edge) {
    || e == One(LeaveEvents, LeaveRequestId, LeaveRequests, Restrict)
    || e == One(LeaveRequestDays, LeaveRequestId, LeaveRequests, Restrict)
    || e == One(AttendanceRecords, CheckinAttemptId, AttendanceAttempts, Restrict)
    || e == One(AttendanceRecords, CheckoutAttemptId, AttendanceAttempts, Restrict)
  }

  predicate Explained(e: Edge) {
    || StepOf(e.parent).None?
    || (e == One(e.child, e.first.col, Users, Restrict) && Taken(e.child, e.first.col))
    || (e == OfEmployee(e.child) && Taken(e.child, EmployeeId))
    || Review(e) || SameEmployee(e) || e == CORRECTION_OF_OVERRIDE || e == IMPORT_OF_USER
    || e == One(Memberships, InvitedBy, Users, Restrict)
  }

  /** Jobs, photos and notifications have few parents. */
  predicate FewKeys(e: Edge) {
    && e.child != Users && e.child != Attachments && e.child != AttachmentUploads
    && (e.child == Jobs ==> e.first.col == CustomerId || e == One(Jobs, TechnicianId, Users, Restrict))
    && (e.child == Notifications ==> e.first.col == TenantId || e == One(Notifications, UserId, Users, Restrict))
  }

  predicate Known(e: Edge) {
    RestrictSane(e) && Explained(e) && FewKeys(e)
  }

  predicate UserColumn(t: Table, col: Col) {
    || Taken(t, col)
    || (t == AccountDeletionRequests && col == ReviewedBy)
    || (t == AttachmentReports && col == ReviewedBy)
    || (t == Tenants && col == CreatedBy)
    || (t == Memberships && col == InvitedBy)
  }

  lemma UserColumnsSane(i: nat)
    requires i < |UserColumns()|
    ensures UserColumn(UserColumns()[i].0, UserColumns()[i].1)
  {
  }

  lemma UserKeySane(t: Table, col: Col)
    requires UserColumn(t, col)
    ensures RestrictSane(One(t, col, Users, Restrict))
  {
    hide UserColumn, Taken, EdgeOk, ChildFirst, Hard;
    UserColumnIs(t, col);
    UserColumnOf(t, col);
    UserEdgeOk(t, col);
  }

  lemma UserEdgeOk(t: Table, col: Col)
    requires !Generated(col) && t != Users
    ensures EdgeOk(One(t, col, Users, Restrict)) && ChildFirst(t, Users)
  {
  }

  lemma UserColumnIs(t: Table, col: Col)
    requires UserColumn(t, col)
    ensures !Generated(col) && (Hard(col) || (t == Memberships && col == InvitedBy))
  {
  }

  lemma UserColumnOf(t: Table, col: Col)
    requires UserColumn(t, col)
    ensures t != Users && t != DeviceTokens && (t == Notifications ==> col == UserId)
  {
  }

  lemma UserKeyExplained(t: Table, col: Col)
    requires UserColumn(t, col)
    ensures Explained(One(t, col, Users, Restrict)) && FewKeys(One(t, col, Users, Restrict))
  {
  }

  lemma EmployeeTablesSane(i: nat)
    requires i < |EmployeeTables()|
    ensures Taken(EmployeeTables()[i], EmployeeId)
  {
  }

  lemma EmployeeKeySane(t: Table)
    requires Taken(t, EmployeeId)
    ensures Known(OfEmployee(t))
  {
  }

  lemma TenantKeysSane(i: nat)
    requires i < |TenantTables()|
    ensures Known(One(TenantTables()[i], TenantId, Tenants, Restrict))
  {
  }

  lemma OtherKeysSane(i: nat)
    requires i < |OtherKeys()|
    ensures RestrictSane(OtherKeys()[i])
  {
  }

  lemma OtherKeysExplained(i: nat)
    requires i < |OtherKeys()|
    ensures Explained(OtherKeys()[i]) && FewKeys(OtherKeys()[i])
  {
  }

  lemma SaneSilent()
    ensures forall e :: e in SilentEdges() ==> SilentSane(e)
  {
  }

  lemma ExpectedKnown(e: Edge)
    requires e in ExpectedEdges()
    ensures Known(e)
  {
    hide UserColumns, EmployeeTables, TenantTables, OtherKeys, RestrictSane, Explained, FewKeys, Taken, UserColumn;
    if e in ToUsers(UserColumns()) {
      var i: nat :| i < |UserColumns()| && e == ToUsers(UserColumns())[i];
      UserColumnsSane(i);
      UserKeySane(UserColumns()[i].0, UserColumns()[i].1);
      UserKeyExplained(UserColumns()[i].0, UserColumns()[i].1);
    } else if e in ToMemberships(EmployeeTables()) {
      var i: nat :| i < |EmployeeTables()| && e == ToMemberships(EmployeeTables())[i];
      EmployeeTablesSane(i);
      EmployeeKeySane(EmployeeTables()[i]);
    } else if e in ToTenants(TenantTables()) {
      var i: nat :| i < |TenantTables()| && e == ToTenants(TenantTables())[i];
      TenantKeysSane(i);
    } else {
      var i: nat :| i < |OtherKeys()| && e == OtherKeys()[i];
      OtherKeysSane(i);
      OtherKeysExplained(i);
    }
  }

  lemma ImportKnown()
    ensures Known(IMPORT_OF_USER)
  {
  }

  /** What the proofs know of every key of the schema. */
  lemma EdgesSane(e: Edge)
    requires e in Edges()
    ensures if e.rule == Restrict then Known(e) else SilentSane(e)
    ensures e.rule == Restrict <==> e !in SilentEdges()
  {
    hide ExpectedEdges, SilentEdges, StepOf, EdgeOk, Explained, FewKeys;
    SaneSilent();
    ImportKnown();
    if e in ExpectedEdges() {
      ExpectedKnown(e);
    }
    if e in SilentEdges() {
      NotRestrict(e);
    }
  }

  lemma NotRestrict(e: Edge)
    requires SilentSane(e)
    ensures e.rule != Restrict
  {
  }

  lemma {:induction false} EmptiedBefore(n: nat)
    requires n <= |Plan()|
    ensures forall t :: t in Emptied(Plan(), n) <==> StepOf(t).Some? && StepOf(t).value < n
  {
    hide Plan;
    if n > 0 {
      EmptiedBefore(n - 1);
      OneStepPerTable(n - 1);
    }
  }
}
