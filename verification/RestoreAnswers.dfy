// When a backup can be restored right after the purge, said on tables and columns.

module RestoreAnswers {
  import opened Basics
  import Periods
  import opened Relational
  import opened Purge
  import opened PersonPurge
  import opened PurgeTheorems
  import opened Guards
  import opened Restore
  import opened PurgeAnswers
  import opened CoverageAnswers

  // -------------------------------------------------------------- the condition

  /** The column names nobody, or staff, or an active member of the row's company. */
  ghost predicate Stands(s: Store, x: Row, c: Col) {
    || c !in x
    || (exists p :: p in s && p.table == Users && Has(s[p], Id, x[c]) && Has(s[p], PlatformAdmin, 1))
    || (TenantId in x && exists m :: && m in s && m.table == Memberships && Has(s[m], UserId, x[c])
                                     && Has(s[m], TenantId, x[TenantId]) && Has(s[m], Status, 1))
  }

  /** Who made the leave requests, leave events, overrides and corrections; on other tables nobody is asked. */
  ghost predicate ActorStands(s: Store, t: Table, x: Row) {
    match t
    case LeaveRequests => Stands(s, x, CreatedBy)
    case LeaveEvents => Stands(s, x, ActorId)
    case AttendanceDayOverrides => Stands(s, x, CreatedBy)
    case AttendanceCorrections => Stands(s, x, ActorId)
    case _ => true
  }

  /** The reports of a company in flight: everybody else's, and the person's that come earlier. */
  ghost function Flying(s: Store, u: nat, earlier: seq<Ref>, tenant: nat): set<Ref> {
    set q | q in s && q.table == ReportRequests && Has(s[q], TenantId, tenant)
            && (Has(s[q], Status, 1) || Has(s[q], Status, 2)) && (!Mine(s, u, q) || q in earlier)
  }

  /** The person's reports, as their section of the backup holds them. */
  ghost function Reports(s: Store, u: nat): Store {
    map q | q in s && q.table == ReportRequests && Mine(s, u, q) :: s[q]
  }

  /** Nothing of the person's comes back before a row of theirs it refers to. */
  ghost predicate InOrder(s: Store, u: nat) {
    && (forall r :: Mine(s, u, r) && r.table == Notifications ==> !OnOwnJob(s, u, s[r]))
    && forall r, p :: Mine(s, u, r) && r.table == Attachments
                      && Mine(s, u, p) && p.table == AttachmentUploads ==>
         !Links(s[r], UploadId, s[p], Id)
  }

  lemma InOrderIs(s: Store, u: nat)
    ensures NamesAhead(s, u) <==> !InOrder(s, u)
  {
    hide Edges, Plan, OwnedBy, RefersTo, OnOwnJob;
    forall r
      ensures OwnedBy(s, u, r) == Mine(s, u, r)
    {
      MineIsOwned(s, u, r);
    }
    forall r | r in s
      ensures NoticeOfOwnJob(s, u, r) <==> r.table == Notifications && OnOwnJob(s, u, s[r])
    {
      JobIs(s, u, s[r]);
    }
    forall r, p | r in s && p in s
      ensures Names(PHOTO_OF_UPLOAD, s, r, p) <==>
                && r.table == Attachments && p.table == AttachmentUploads
                && Links(s[r], UploadId, s[p], Id)
    {
    }
    hide Names, NoticeOfOwnJob, Links;
  }

  lemma ActorIs(s: Store, t: Table, x: Row)
    ensures ActorOk(s, t, x) <==> ActorStands(s, t, x)
  {
  }

  lemma ActorsAre(s: Store, u: nat)
    ensures ActorsStand(s, u) <==> forall r :: Mine(s, u, r) ==> ActorStands(s, r.table, s[r])
  {
    hide OwnedBy, RefersTo, ActorOk, ActorStands;
    forall r
      ensures OwnedBy(s, u, r) == Mine(s, u, r)
      ensures r in s ==> ActorOk(s, r.table, s[r]) == ActorStands(s, r.table, s[r])
    {
      MineIsOwned(s, u, r);
      if r in s {
        ActorIs(s, r.table, s[r]);
      }
    }
    assert forall r :: ActorGone(s, u, r) <==> Mine(s, u, r) && !ActorStands(s, r.table, s[r]);
  }

  lemma ReportsAre(s: Store, u: nat, order: Order)
    ensures SectionOf(s, Plan()[AT_REPORTS], u) == Reports(s, u)
    ensures forall earlier, tenant :: InFlightBefore(s, u, earlier, tenant) == Flying(s, u, earlier, tenant)
  {
    hide OwnedBy, RefersTo, Plan, Hit;
    forall q
      ensures OwnedBy(s, u, q) == Mine(s, u, q)
      ensures q in Hit(s, Plan()[AT_REPORTS], u) <==> Mine(s, u, q) && q.table == ReportRequests
    {
      MineIsOwned(s, u, q);
      HitIff(s, u, AT_REPORTS, q);
      ReportStep(q.table);
    }
  }

  lemma ReportStep(t: Table)
    ensures StepOf(t) == Some(AT_REPORTS) <==> t == ReportRequests
  {
  }

  /**
   * Right after the purge the backup goes in exactly when nothing of the person's comes back before a
   * row of theirs it refers to; everybody who made their leave, overrides and corrections stands;
   * each of their reports, in the file's order, finds fewer than three in flight in its company; and
   * their enrolments, if any, are covered.
   */
  lemma RestoreAnswer(s: Store, u: nat, order: Order, today: nat -> Date)
    requires ParentsExist(Edges(), s) && ParentsUnique(Edges(), s) && IsOrder(order)
    requires Periods.Tidy(RangesOf(s, u)) && Periods.Tidy(LegsOf(s, u))
    requires RunDeletes(Edges(), s, Plan(), u, STEPS).Some?
    ensures RestoreRows(Edges(), Purged(s, u), PersonBackup(s, u), order, today).Some? <==>
              && InOrder(s, u)
              && (forall r :: Mine(s, u, r) ==> ActorStands(s, r.table, s[r]))
              && (forall i :: 0 <= i < |order(Reports(s, u))| ==> FitsAt(s, u, order(Reports(s, u)), i))
              && ((exists r :: Mine(s, u, r) && r.table in {AttendanceEnrolments, AttendanceOfficeAssignments})
                  ==> IsCovered(s, u, today))
  {
    hide Edges, Plan, RunDeletes, RestoreRows, ParentsExist, ParentsUnique, Backup, OwnedBy, RefersTo,
         NamesAhead, InOrder, ActorsStand, ActorStands, IsOrder, RangesOf, LegsOf, CoverageOk, IsCovered, SectionOf,
         Reports, InFlightBefore, Flying, Purged, PersonBackup;
    RestoreCompletesIff(s, u, order, today);
    InOrderIs(s, u);
    ActorsAre(s, u);
    ReportsAre(s, u, order);
    CoverageIs(s, u, today);
    forall r
      ensures OwnedBy(s, u, r) == Mine(s, u, r)
    {
      MineIsOwned(s, u, r);
    }
    var rows := order(Reports(s, u));
    forall i | 0 <= i < |rows|
      ensures ReportFits(s, u, rows, i) == FitsAt(s, u, rows, i)
    {
    }
    hide ReportFits, FitsAt;
    assert ReportsFit(s, u, order) <==> forall i :: 0 <= i < |rows| ==> ReportFits(s, u, rows, i);
  }

  ghost predicate FitsAt(s: Store, u: nat, rows: seq<Ref>, i: nat)
    requires i < |rows|
  {
    rows[i] in s && TenantId in s[rows[i]] ==> |Flying(s, u, rows[..i], s[rows[i]][TenantId])| < 3
  }
}
