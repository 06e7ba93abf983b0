// What a purge does, said on tables and columns: whose rows go, what stops it, what it leaves; and
// when its backup can be restored.

module PurgeAnswers {
  import opened Basics
  import opened Relational
  import opened Purge
  import opened PersonPurge
  import opened PurgeTheorems
  import opened PurgePins
  import opened Guards

  // ------------------------------------------------------------ whose rows go

  /** The row's job is one the person does. */
  ghost predicate OnOwnJob(s: Store, u: nat, x: Row) {
    JobId in x && exists j :: j in s && j.table == Jobs && Has(s[j], Id, x[JobId]) && Has(s[j], TechnicianId, u)
  }

  /** The row's request is one the person made. */
  ghost predicate OnOwnRequest(s: Store, u: nat, x: Row) {
    LeaveRequestId in x
    && exists q :: q in s && q.table == LeaveRequests && Has(s[q], Id, x[LeaveRequestId]) && Has(s[q], CreatedBy, u)
  }

  /** The reported photo is on one of the person's jobs. */
  ghost predicate OnOwnPhoto(s: Store, u: nat, x: Row) {
    AttachmentId in x
    && exists a :: a in s && a.table == Attachments && Has(s[a], Id, x[AttachmentId]) && OnOwnJob(s, u, s[a])
  }

  /** The row refers to the person as its table says. */
  ghost predicate RefersTo(s: Store, u: nat, t: Table, x: Row) {
    match t
    case AuditLog => Has(x, ActorUserId, u) || Has(x, TargetUserId, u)
    case ActivityLogs => Has(x, ActorId, u) || OnOwnJob(s, u, x)
    case AttendanceCorrections => Has(x, ActorId, u) || Has(x, EmployeeId, u)
    case AttendanceDayOverrides => Has(x, CreatedBy, u) || Has(x, EmployeeId, u)
    case LeaveEvents => Has(x, ActorId, u) || Has(x, EmployeeId, u) || OnOwnRequest(s, u, x)
    case LeaveRequestDays => Has(x, EmployeeId, u) || OnOwnRequest(s, u, x)
    case LeaveRequests => Has(x, CreatedBy, u) || Has(x, EmployeeId, u)
    case AttendanceRecords => Has(x, EmployeeId, u)
    case AttendanceAttempts => Has(x, EmployeeId, u)
    case AttendanceEnrolments => Has(x, EmployeeId, u)
    case AttendanceOfficeAssignments => Has(x, EmployeeId, u)
    case AttendanceOnboarding => Has(x, EmployeeId, u)
    case AttendanceWeeklyOffOverrides => Has(x, EmployeeId, u)
    case AttachmentReports => Has(x, ReporterId, u) || OnOwnPhoto(s, u, x)
    case AttachmentUploads => OnOwnJob(s, u, x)
    case Attachments => OnOwnJob(s, u, x)
    case Jobs => Has(x, TechnicianId, u)
    case Notifications => Has(x, UserId, u)
    case ReportRequests => Has(x, RequestedBy, u)
    case SkillRequests => Has(x, RequestedBy, u)
    case AccountDeletionRequests => Has(x, UserId, u)
    case UserSkills => Has(x, UserId, u)
    case Memberships => Has(x, UserId, u)
    case Users => Has(x, Id, u)
    case _ => false
  }

  ghost predicate Mine(s: Store, u: nat, r: Ref) {
    r in s && RefersTo(s, u, r.table, s[r])
  }

  lemma JobIs(s: Store, u: nat, x: Row)
    ensures Holds(s, ON_OWN_JOB, x, u) <==> OnOwnJob(s, u, x)
  {
    assert forall j :: j in s ==> (Holds(s, Is(TechnicianId), s[j], u) <==> Has(s[j], TechnicianId, u));
  }

  lemma RequestIs(s: Store, u: nat, x: Row)
    ensures Holds(s, ON_OWN_REQUEST, x, u) <==> OnOwnRequest(s, u, x)
  {
    assert forall q :: q in s ==> (Holds(s, Is(CreatedBy), s[q], u) <==> Has(s[q], CreatedBy, u));
  }

  lemma PhotoIs(s: Store, u: nat, x: Row)
    ensures Holds(s, OneOf(AttachmentId, Attachments, ON_OWN_JOB), x, u) <==> OnOwnPhoto(s, u, x)
  {
    forall a | a in s
      ensures Holds(s, ON_OWN_JOB, s[a], u) <==> OnOwnJob(s, u, s[a])
    {
      JobIs(s, u, s[a]);
    }
    hide OnOwnJob;
    OneOfIs(s, AttachmentId, Attachments, ON_OWN_JOB, x, u);
  }

  lemma OneOfIs(s: Store, col: Col, table: Table, inner: Cond, x: Row, u: nat)
    ensures Holds(s, OneOf(col, table, inner), x, u) <==>
              col in x && exists p :: && p in s && p.table == table && Holds(s, inner, s[p], u)
                                      && Id in s[p] && s[p][Id] == x[col]
  {
  }

  /** The backup and the deletes are about exactly those rows. */
  lemma MineIsOwned(s: Store, u: nat, r: Ref)
    ensures OwnedBy(s, u, r) <==> Mine(s, u, r)
  {
    hide Plan, OwnedBy, Holds, OnOwnJob, OnOwnRequest, OnOwnPhoto;
    OwnedIs(s, u, r);
    if r in s {
      if StepOf(r.table).Some? {
        CondIs(s, u, r.table, s[r]);
      } else {
        NotInPlan(s, u, r.table, s[r]);
      }
    }
  }

  lemma CondIs(s: Store, u: nat, t: Table, x: Row)
    requires StepOf(t).Some?
    ensures Holds(s, CondOf(t), x, u) <==> RefersTo(s, u, t, x)
  {
    hide Holds, OnOwnJob, OnOwnRequest, OnOwnPhoto;
    forall c: Col
      ensures Holds(s, Is(c), x, u) <==> Has(x, c, u)
    {
      IsHolds(s, c, x, u);
    }
    forall a: Cond, b: Cond
      ensures Holds(s, Either(a, b), x, u) <==> Holds(s, a, x, u) || Holds(s, b, x, u)
    {
      EitherHolds(s, a, b, x, u);
    }
    JobIs(s, u, x);
    RequestIs(s, u, x);
    PhotoIs(s, u, x);
  }

  lemma NotInPlan(s: Store, u: nat, t: Table, x: Row)
    requires StepOf(t).None?
    ensures !RefersTo(s, u, t, x)
  {
  }

  // ------------------------------------------------------------- what stops it

  /** The other row's column holds the key of a row of the person's. */
  predicate Links(x: Row, c: Col, y: Row, k: Col) {
    c in x && k in y && x[c] == y[k]
  }

  /** Somebody else's row that refers to one of the person's, and the columns through which. */
  ghost predicate Stops(s: Store, u: nat, r: Ref, p: Ref) {
    && r in s && p in s && !Mine(s, u, r) && Mine(s, u, p)
    && match r.table
       case AccountDeletionRequests => p.table == Users && Links(s[r], ReviewedBy, s[p], Id)
       case AttachmentReports => p.table == Users && Links(s[r], ReviewedBy, s[p], Id)
       case Tenants => p.table == Users && Links(s[r], CreatedBy, s[p], Id)
       case ImportBatches => p.table == Users && Links(s[r], ActorUserId, s[p], Id)
       case AttendanceCorrections =>
         && p.table == AttendanceDayOverrides && Links(s[r], EmployeeId, s[p], EmployeeId)
         && Links(s[r], WorkDate, s[p], WorkDate)
       case LeaveEvents => p.table == LeaveRequests && Links(s[r], LeaveRequestId, s[p], Id)
       case LeaveRequestDays => p.table == LeaveRequests && Links(s[r], LeaveRequestId, s[p], Id)
       case AttendanceRecords =>
         && p.table == AttendanceAttempts
         && (Links(s[r], CheckinAttemptId, s[p], Id) || Links(s[r], CheckoutAttemptId, s[p], Id))
       case _ => false
  }

  lemma PinStops(s: Store, u: nat, e: Edge, r: Ref, p: Ref)
    requires e in Edges() && Pins(s, u, e, r, p)
    ensures Stops(s, u, r, p)
  {
    hide Edges, OwnedBy, Mine;
    PinsOnlyThrough(s, u, e, r, p);
    MineIsOwned(s, u, r);
    MineIsOwned(s, u, p);
  }

  lemma ReviewKeys()
    ensures One(AccountDeletionRequests, ReviewedBy, Users, Restrict) in Edges()
    ensures One(AttachmentReports, ReviewedBy, Users, Restrict) in Edges()
    ensures One(Tenants, CreatedBy, Users, Restrict) in Edges()
  {
    hide EmployeeTables, TenantTables, OtherKeys, SilentEdges;
    var keys := ToUsers(UserColumns());
    assert keys[0] == One(AccountDeletionRequests, ReviewedBy, Users, Restrict) && keys[0] in keys;
    assert keys[4] == One(AttachmentReports, ReviewedBy, Users, Restrict) && keys[4] in keys;
    assert keys[17] == One(Tenants, CreatedBy, Users, Restrict) && keys[17] in keys;
  }

  lemma EmployeeKeys(e: Edge)
    requires SameEmployee(e)
    ensures e in Edges()
  {
    hide ToUsers, ToMemberships, ToTenants, SilentEdges;
    var keys := OtherKeys();
    assert keys[3] in keys && keys[4] in keys && keys[8] in keys && keys[9] in keys;
  }

  /** The key a stopping row refers through. */
  function StopKey(s: Store, r: Ref, p: Ref): Edge
    requires r in s && p in s
  {
    match r.table
    case AccountDeletionRequests => One(AccountDeletionRequests, ReviewedBy, Users, Restrict)
    case AttachmentReports => One(AttachmentReports, ReviewedBy, Users, Restrict)
    case Tenants => One(Tenants, CreatedBy, Users, Restrict)
    case AttendanceCorrections => CORRECTION_OF_OVERRIDE
    case LeaveEvents => One(LeaveEvents, LeaveRequestId, LeaveRequests, Restrict)
    case LeaveRequestDays => One(LeaveRequestDays, LeaveRequestId, LeaveRequests, Restrict)
    case AttendanceRecords =>
      One(AttendanceRecords, if Links(s[r], CheckinAttemptId, s[p], Id) then CheckinAttemptId else CheckoutAttemptId,
          AttendanceAttempts, Restrict)
    case _ => IMPORT_OF_USER
  }

  lemma StopNames(s: Store, u: nat, r: Ref, p: Ref)
    requires Stops(s, u, r, p)
    ensures var e := StopKey(s, r, p); e.rule == Restrict && HardChild(e) && Names(e, s, r, p)
  {
    hide Mine;
  }

  lemma StopKeyIsThere(s: Store, r: Ref, p: Ref)
    requires r in s && p in s
    ensures StopKey(s, r, p) in Edges()
  {
    hide Edges, Links;
    ReviewKeys();
    PinningEdges();
    var e := StopKey(s, r, p);
    if r.table == LeaveEvents || r.table == LeaveRequestDays || r.table == AttendanceRecords {
      EmployeeKeys(e);
    }
  }

  lemma PinnedIffStopped(s: Store, u: nat)
    ensures Pinned(s, u) <==> exists r, p :: Stops(s, u, r, p)
  {
    hide Edges, OwnedBy, Mine, Pins, Stops, StopKey;
    if Pinned(s, u) {
      var e, r, p :| e in Edges() && Pins(s, u, e, r, p);
      PinStops(s, u, e, r, p);
    }
    forall r, p | Stops(s, u, r, p)
      ensures Pinned(s, u)
    {
      StopPins(s, u, r, p);
    }
  }

  lemma StopPins(s: Store, u: nat, r: Ref, p: Ref)
    requires Stops(s, u, r, p)
    ensures Pinned(s, u)
  {
    hide Edges, OwnedBy, Mine, StopKey, HardChild, Names;
    StopNames(s, u, r, p);
    StopKeyIsThere(s, r, p);
    MineIsOwned(s, u, r);
    MineIsOwned(s, u, p);
    assert Pins(s, u, StopKey(s, r, p), r, p);
  }

  // -------------------------------------------------------------- what it leaves

  /** The rows that go unsaved: a notification about a job of the person's, and a device token of theirs. */
  ghost predicate GoesAlong(s: Store, u: nat, r: Ref)
    requires r in s
  {
    || (r.table == Notifications && OnOwnJob(s, u, s[r]))
    || (r.table == DeviceTokens && Has(s[r], UserId, u)
        && exists p :: p in s && p.table == Users && Has(s[p], Id, u))
  }

  /** A membership's inviter that is the person, or a photo's upload that is theirs. */
  ghost predicate IsCleared(s: Store, u: nat, r: Ref, c: Col)
    requires r in s && c in s[r]
  {
    || (r.table == Memberships && c == InvitedBy && s[r][c] == u)
    || (r.table == Attachments && c == UploadId
        && exists p :: Mine(s, u, p) && p.table == AttachmentUploads && Links(s[r], UploadId, s[p], Id))
  }

  lemma AlongIs(s: Store, u: nat, r: Ref)
    requires r in s
    ensures NoticeOfOwnJob(s, u, r) || TokenOfPerson(s, u, r) <==> GoesAlong(s, u, r)
  {
    hide OnOwnJob, Holds;
    JobIs(s, u, s[r]);
    OneOfIs(s, UserId, Users, Is(Id), s[r], u);
    forall p | p in s
      ensures Holds(s, Is(Id), s[p], u) <==> Has(s[p], Id, u)
    {
      IsHolds(s, Id, s[p], u);
    }
  }

  lemma ClearedIs(s: Store, u: nat, r: Ref, c: Col)
    requires r in s && c in s[r]
    ensures LinksPerson(s, u, r, c) <==> IsCleared(s, u, r, c)
  {
    hide OwnedBy, Mine;
    forall p
      ensures OwnedBy(s, u, p) == Mine(s, u, p)
      ensures Mine(s, u, p) ==> p in s
    {
      MineIsOwned(s, u, p);
      MineIsThere(s, u, p);
    }
    forall p | p in s
      ensures Names(PHOTO_OF_UPLOAD, s, r, p) <==>
                r.table == Attachments && p.table == AttachmentUploads && Links(s[r], UploadId, s[p], Id)
    {
    }
  }

  lemma MineIsThere(s: Store, u: nat, p: Ref)
    ensures Mine(s, u, p) ==> p in s
  {
  }

  /**
   * The purge of a person completes exactly when no row of somebody else's refers to one of theirs
   * through those columns. Then what is left is every other row but those that go along, column for
   * column as it was but for the cleared ones.
   */
  lemma PurgeAnswer(s: Store, u: nat)
    ensures var done := RunDeletes(Edges(), s, Plan(), u, STEPS);
            && (done.Some? <==> !exists r, p :: Stops(s, u, r, p))
            && (done.Some? ==>
                  && (forall r :: r in done.value.store <==> r in s && !Mine(s, u, r) && !GoesAlong(s, u, r))
                  && forall r :: r in done.value.store ==> LeftBy(s, u, r, done.value.store[r]))
  {
    hide Edges, Plan, RunDeletes, OwnedBy, Mine, GoesAlong, IsCleared, Stops, LinksPerson, Pinned, NoticeOfOwnJob,
         TokenOfPerson;
    PurgeCompletesIff(s, u);
    PinnedIffStopped(s, u);
    if RunDeletes(Edges(), s, Plan(), u, STEPS).Some? {
      PurgeLeaves(s, u);
      forall r | r in s
        ensures OwnedBy(s, u, r) == Mine(s, u, r)
        ensures NoticeOfOwnJob(s, u, r) || TokenOfPerson(s, u, r) <==> GoesAlong(s, u, r)
        ensures forall c :: c in s[r] ==> (LinksPerson(s, u, r, c) <==> IsCleared(s, u, r, c))
      {
        MineIsOwned(s, u, r);
        AlongIs(s, u, r);
        forall c | c in s[r]
          ensures LinksPerson(s, u, r, c) <==> IsCleared(s, u, r, c)
        {
          ClearedIs(s, u, r, c);
        }
      }
    }
  }

  ghost predicate LeftBy(s: Store, u: nat, r: Ref, x: Row)
    requires r in s
  {
    forall c :: (c in x <==> c in s[r] && !IsCleared(s, u, r, c)) && (c in x ==> x[c] == s[r][c])
  }
}
