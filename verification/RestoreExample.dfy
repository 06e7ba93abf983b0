// Databases on which the round trip fails: a notification about one's own job, and a photo made from
// an upload.

module RestoreExample {
  import opened Basics
  import opened Relational
  import opened Purge
  import opened PersonPurge
  import opened PurgeTheorems
  import opened Restore

  /** A technician, a job of theirs, and a notification to them about that job. */
  function OneTechnician(): Store {
    map[Ref(Users, 0) := map[Id := 7],
        Ref(Jobs, 0) := map[Id := 1, TechnicianId := 7],
        Ref(Notifications, 0) := map[UserId := 7, JobId := 1]]
  }

  lemma ExampleParent(e: Edge, r: Ref)
    requires e in Edges() && r in OneTechnician() && r.table == e.child && Filled(e, OneTechnician()[r])
    ensures Names(e, OneTechnician(), r, Ref(e.parent, 0))
  {
    hide Edges, RestrictSane, Explained;
    EdgesSane(e);
  }

  lemma OneRowPerTable(p: Ref, q: Ref)
    requires p in OneTechnician() && q in OneTechnician() && p.table == q.table
    ensures p == q
  {
  }

  lemma ExampleConsistent()
    ensures ParentsExist(Edges(), OneTechnician()) && ParentsUnique(Edges(), OneTechnician())
  {
    hide Edges, OneTechnician, Matches, Filled;
    var s := OneTechnician();
    forall e, r | e in Edges() && r in s && r.table == e.child && Filled(e, s[r])
      ensures exists p :: Names(e, s, r, p)
    {
      ExampleParent(e, r);
    }
    forall e, r, p, q | e in Edges() && Names(e, s, r, p) && Names(e, s, r, q)
      ensures p == q
    {
      OneRowPerTable(p, q);
    }
  }

  /**
   * The purge of that technician completes, its receipt disagrees with its backup, and the restore
   * of the backup aborts.
   */
  lemma TechnicianIsNotRestored(order: Order, today: nat -> Date)
    requires IsOrder(order)
    ensures var s := OneTechnician();
            && RunDeletes(Edges(), s, Plan(), 7, STEPS).Some?
            && !(forall j :: 0 <= j < STEPS ==>
                   RunDeletes(Edges(), s, Plan(), 7, STEPS).value.counts[j] == |Hit(s, Plan()[j], 7)|)
            && RestoreRows(Edges(), Purged(s, 7), PersonBackup(s, 7), order, today).None?
  {
    hide Edges, Plan, RunDeletes, RestoreRows, ParentsExist, ParentsUnique, Backup, OwnedBy, ActorsStand, ReportsFit,
         CoverageStands, IsOrder;
    var s := OneTechnician();
    forall r | r in s
      ensures OwnedBy(s, 7, r)
    {
      OwnedIs(s, 7, r);
    }
    PurgeCompletesIff(s, 7);
    var notice, job := Ref(Notifications, 0), Ref(Jobs, 0);
    OneOfHolds(s, JobId, Jobs, Is(TechnicianId), s[notice], job, 7);
    HitIff(s, 7, AT_NOTIFICATIONS, notice);
    ReceiptMatchesBackupIff(s, 7);
    ExampleConsistent();
    RestoreCompletesIff(s, 7, order, today);
  }

  // ---------------------------------------------------------------- a photo

  /** A technician, a job of theirs, an upload for it, and the photo made from that upload. */
  function OnePhoto(): Store {
    map[Ref(Users, 0) := map[Id := 7],
        Ref(Jobs, 0) := map[Id := 1, TechnicianId := 7],
        Ref(AttachmentUploads, 0) := map[Id := 2, JobId := 1],
        Ref(Attachments, 0) := map[Id := 3, JobId := 1, UploadId := 2]]
  }

  lemma PhotoParent(e: Edge, r: Ref)
    requires e in Edges() && r in OnePhoto() && r.table == e.child && Filled(e, OnePhoto()[r])
    ensures Names(e, OnePhoto(), r, Ref(e.parent, 0))
  {
    hide Edges, RestrictSane, Explained;
    EdgesSane(e);
  }

  lemma OnePhotoRowPerTable(p: Ref, q: Ref)
    requires p in OnePhoto() && q in OnePhoto() && p.table == q.table
    ensures p == q
  {
  }

  lemma PhotoConsistent()
    ensures ParentsExist(Edges(), OnePhoto()) && ParentsUnique(Edges(), OnePhoto())
  {
    hide Edges, OnePhoto, Matches, Filled;
    var s := OnePhoto();
    forall e, r | e in Edges() && r in s && r.table == e.child && Filled(e, s[r])
      ensures exists p :: Names(e, s, r, p)
    {
      PhotoParent(e, r);
    }
    forall e, r, p, q | e in Edges() && Names(e, s, r, p) && Names(e, s, r, q)
      ensures p == q
    {
      OnePhotoRowPerTable(p, q);
    }
  }

  lemma PhotoIsOwned()
    ensures forall r :: r in OnePhoto() ==> OwnedBy(OnePhoto(), 7, r)
  {
    hide Edges, Plan, OwnedBy, Holds;
    var s := OnePhoto();
    var job := Ref(Jobs, 0);
    IsHolds(s, TechnicianId, s[job], 7);
    IsHolds(s, Id, s[Ref(Users, 0)], 7);
    OneOfHolds(s, JobId, Jobs, Is(TechnicianId), s[Ref(AttachmentUploads, 0)], job, 7);
    OneOfHolds(s, JobId, Jobs, Is(TechnicianId), s[Ref(Attachments, 0)], job, 7);
    forall r | r in s
      ensures OwnedBy(s, 7, r)
    {
      OwnedIs(s, 7, r);
    }
  }

  /** The purge completes, but the photo comes back before the upload it names: the restore aborts. */
  lemma PhotoIsNotRestored(order: Order, today: nat -> Date)
    requires IsOrder(order)
    ensures var s := OnePhoto();
            && RunDeletes(Edges(), s, Plan(), 7, STEPS).Some?
            && RestoreRows(Edges(), Purged(s, 7), PersonBackup(s, 7), order, today).None?
  {
    hide Edges, Plan, RunDeletes, RestoreRows, ParentsExist, ParentsUnique, Backup, OwnedBy, ActorsStand, ReportsFit,
         CoverageStands, IsOrder;
    PhotoIsOwned();
    PurgeCompletesIff(OnePhoto(), 7);
    PhotoConsistent();
    assert Names(PHOTO_OF_UPLOAD, OnePhoto(), Ref(Attachments, 0), Ref(AttachmentUploads, 0));
    RestoreCompletesIff(OnePhoto(), 7, order, today);
  }
}
