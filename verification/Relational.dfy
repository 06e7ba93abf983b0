// Rows, foreign keys and the three statements purge and restore use: delete with its referential
// actions, the update that clears a reference, and an insert that skips existing rows.

module Relational {
  import opened Basics

  datatype Table =
    | AuditLog | ActivityLogs | AttendanceCorrections | AttendanceDayOverrides | LeaveEvents | LeaveRequestDays
    | LeaveRequests | AttendanceRecords | AttendanceAttempts | AttendanceEnrolments | AttendanceOfficeAssignments
    | AttendanceOnboarding | AttendanceWeeklyOffOverrides | AttachmentReports | AttachmentUploads | Attachments
    | Jobs | Notifications | ReportRequests | SkillRequests | AccountDeletionRequests | UserSkills | Memberships
    | Users | Tenants | Customers | AttendanceOffices | AttendanceOfficeRules | DeviceTokens
    | ImportBatches

  datatype Col =
    | Id | UserId | TenantId | EmployeeId | ActorId | ActorUserId | TargetUserId | CreatedBy | RequestedBy
    | ReviewedBy | ReporterId | TechnicianId | CustomerId | JobId | AttachmentId | UploadId | LeaveRequestId
    | WorkDate | CheckinAttemptId | CheckoutAttemptId | OfficeId | OfficeRulesId | InvitedBy | Sequence
    | Status | PlatformAdmin | ArchivedAt | ValidFrom | ValidTo
    | Other(name: nat)

  /** A row holds its non-null columns. */
  type Row = map<Col, nat>

  datatype Ref = Ref(table: Table, row: nat)

  type Store = map<Ref, Row>

  /** NO ACTION is checked at the end of the statement, RESTRICT during it: nothing here tells them apart. */
  datatype Rule = Restrict | Cascade | SetNull

  /** A child column with the parent column it refers to. */
  datatype Key = Key(col: Col, ref: Col)

  /** A foreign key over one or two columns. */
  datatype Edge = Edge(child: Table, first: Key, second: Option<Key>, parent: Table, rule: Rule)

  predicate Agree(k: Key, x: Row, y: Row) {
    k.col in x && k.ref in y && x[k.col] == y[k.ref]
  }

  predicate Matches(e: Edge, x: Row, y: Row) {
    Agree(e.first, x, y) && (e.second.Some? ==> Agree(e.second.value, x, y))
  }

  /** Row `r` names row `p` through the foreign key. */
  predicate Names(e: Edge, s: Store, r: Ref, p: Ref) {
    r in s && p in s && r.table == e.child && p.table == e.parent && Matches(e, s[r], s[p])
  }

  /** A foreign key binds a row only if all its columns are set. */
  predicate Filled(e: Edge, x: Row) {
    e.first.col in x && (e.second.Some? ==> e.second.value.col in x)
  }

  ghost predicate ParentsExist(edges: seq<Edge>, s: Store) {
    forall e, r :: e in edges && r in s && r.table == e.child && Filled(e, s[r]) ==> exists p :: Names(e, s, r, p)
  }

  /** The columns a foreign key refers to identify one row. */
  ghost predicate ParentsUnique(edges: seq<Edge>, s: Store) {
    forall e, r, p, q :: e in edges && Names(e, s, r, p) && Names(e, s, r, q) ==> p == q
  }

  // ------------------------------------------------------------- conditions

  /** The where-clauses of the plans: `col = $1`, `col in (select id from t where ...)`, `a or b`. */
  datatype Cond =
    | Is(col: Col)
    | OneOf(col: Col, table: Table, inner: Cond)
    | Either(left: Cond, right: Cond)

  predicate Holds(s: Store, c: Cond, x: Row, u: nat) {
    match c
    case Is(col) => col in x && x[col] == u
    case OneOf(col, table, inner) =>
      col in x && exists p :: p in s && p.table == table && Holds(s, inner, s[p], u) && Id in s[p] && s[p][Id] == x[col]
    case Either(left, right) => Holds(s, left, x, u) || Holds(s, right, x, u)
  }

  function Matched(s: Store, table: Table, c: Cond, u: nat): set<Ref> {
    set r | r in s && r.table == table && Holds(s, c, s[r], u)
  }

  // ---------------------------------------------------------------- deletes

  predicate DiesWith(edges: seq<Edge>, s: Store, dead: set<Ref>, r: Ref) {
    exists e :: e in edges && e.rule == Cascade && exists p :: p in dead && Names(e, s, r, p)
  }

  /** The rows a delete takes along: everything that names a dead row through a cascading key. */
  function Closure(edges: seq<Edge>, s: Store, dead: set<Ref>): (gone: set<Ref>)
    requires dead <= s.Keys
    ensures dead <= gone <= s.Keys
    ensures forall r :: r in s && DiesWith(edges, s, gone, r) ==> r in gone
    decreases s.Keys - dead
  {
    var next := dead + set r | r in s && DiesWith(edges, s, dead, r);
    if next == dead then
      assert forall r :: r in s && DiesWith(edges, s, dead, r) ==> r in next;
      dead
    else Closure(edges, s, next)
  }

  predicate Refers(e: Edge, c: Col) {
    e.first.col == c || (e.second.Some? && e.second.value.col == c)
  }

  /** `on delete set null`: the reference to a dead row is cleared. */
  predicate Severed(edges: seq<Edge>, s: Store, gone: set<Ref>, r: Ref, c: Col) {
    exists e :: e in edges && e.rule == SetNull && Refers(e, c) && exists p :: p in gone && Names(e, s, r, p)
  }

  /** A surviving row still names a dead one: the database refuses the statement. */
  predicate Blocks(edges: seq<Edge>, s: Store, gone: set<Ref>) {
    exists e :: e in edges && e.rule == Restrict
      && exists r, p :: r in s && r !in gone && p in gone && Names(e, s, r, p)
  }

  function Without(edges: seq<Edge>, s: Store, gone: set<Ref>): Store {
    map r | r in s && r !in gone :: map c | c in s[r] && !Severed(edges, s, gone, r, c) :: s[r][c]
  }

  function DeleteRows(edges: seq<Edge>, s: Store, hit: set<Ref>): Option<Store>
    requires hit <= s.Keys
  {
    var gone := Closure(edges, s, hit);
    if Blocks(edges, s, gone) then None else Some(Without(edges, s, gone))
  }

  /** `update ... set col = null where col = $1`. */
  function ClearRows(s: Store, table: Table, col: Col, u: nat): Store {
    map r | r in s :: if r.table == table && col in s[r] && s[r][col] == u then s[r] - {col} else s[r]
  }

  lemma {:induction false} ClosureLeast(edges: seq<Edge>, s: Store, dead: set<Ref>, bound: set<Ref>)
    requires dead <= s.Keys && dead <= bound
    requires forall r :: r in s && DiesWith(edges, s, bound, r) ==> r in bound
    ensures Closure(edges, s, dead) <= bound
    decreases s.Keys - dead
  {
    var next := dead + set r | r in s && DiesWith(edges, s, dead, r);
    forall r | r in s && DiesWith(edges, s, dead, r)
      ensures r in bound
    {
      DiesWithMore(edges, s, dead, bound, r);
    }
    if next != dead {
      ClosureLeast(edges, s, next, bound);
    }
  }

  lemma DiesWithMore(edges: seq<Edge>, s: Store, dead: set<Ref>, more: set<Ref>, r: Ref)
    requires dead <= more && DiesWith(edges, s, dead, r)
    ensures DiesWith(edges, s, more, r)
  {
    var e, p :| e in edges && e.rule == Cascade && p in dead && Names(e, s, r, p);
    assert p in more;
  }

  // ---------------------------------------------------------------- inserts

  /** A generated-always column refuses explicit values; the database makes a new one. */
  predicate Generated(c: Col) {
    c == Sequence
  }

  function Insertable(x: Row): Row {
    map c | c in x && !Generated(c) :: x[c]
  }

  /** Every filled foreign key of the new row finds its parent. */
  predicate Anchored(edges: seq<Edge>, s: Store, table: Table, x: Row) {
    forall e :: e in edges && e.child == table && Filled(e, x) ==> HasParent(e, s, x)
  }

  predicate HasParent(e: Edge, s: Store, x: Row) {
    exists p :: p in s && p.table == e.parent && Matches(e, x, s[p])
  }
}
