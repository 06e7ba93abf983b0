// What purging a person does to a database whose foreign keys hold: when it completes, what it
// removes, and when the receipt's count agrees with the backup.

module PurgeTheorems {
  import opened Basics
  import opened Relational
  import opened Purge
  import opened PersonPurge

  lemma CascadesStayEarly(n: nat)
    requires n <= AT_JOBS
    ensures CascadesWithin(Edges(), Emptied(Plan(), n))
  {
    hide Emptied, Edges, Plan;
    EmptiedBefore(n);
    forall e | e in Edges() && e.rule == Cascade && e.parent in Emptied(Plan(), n)
      ensures e.child in Emptied(Plan(), n)
    {
      EdgesSane(e);
    }
  }

  /** Only steps before the jobs select through other tables, and never through one emptied before. */
  lemma StepSelects(n: nat)
    requires n < STEPS && Plan()[n].Delete?
    ensures Selected(Plan()[n].cond) != {} ==> n < AT_JOBS
    ensures forall t :: t in Selected(Plan()[n].cond) && StepOf(t).Some? ==> StepOf(t).value >= n
  {
  }

  lemma StepReads(n: nat)
    requires n < STEPS && Plan()[n].Delete?
    ensures CondOk(Plan()[n].cond)
  {
  }

  lemma StepIsOk(n: nat)
    requires n < STEPS
    ensures StepOk(Edges(), Plan(), n)
  {
    OneStepPerTable(n);
    ClearsInviter();
    hide Plan, Emptied, CascadesWithin, Edges, StepOf, Selected, CondOk;
    EmptiedBefore(n);
    if n < AT_JOBS {
      CascadesStayEarly(n);
    }
    if Plan()[n].Delete? {
      StepReads(n);
      StepSelects(n);
    }
  }

  lemma ClearsInviter()
    ensures Plan()[22] == Clear(Memberships, InvitedBy)
  {
  }

  lemma PlanIsOk()
    ensures PlanOk(Edges(), Plan())
  {
    hide StepOk, EdgeOk, Edges, Plan;
    forall e | e in Edges()
      ensures EdgeOk(e)
    {
      EdgesSane(e);
    }
    forall n | 0 <= n < STEPS
      ensures StepOk(Edges(), Plan(), n)
    {
      StepIsOk(n);
    }
  }

  /** The rows the purge is about: everything some step's condition matches. */
  function Owned(s: Store, u: nat): (rows: set<Ref>)
    ensures rows <= s.Keys
  {
    Doomed(s, Plan(), u, STEPS)
  }

  predicate OwnedBy(s: Store, u: nat, r: Ref) {
    StepOf(r.table).Some? && StepOf(r.table).value < STEPS && r in Hit(s, Plan()[StepOf(r.table).value], u)
  }

  /** A row is owned exactly if its table's condition holds of it. */
  lemma OwnedIs(s: Store, u: nat, r: Ref)
    ensures OwnedBy(s, u, r) <==> StepOf(r.table).Some? && r in s && Holds(s, CondOf(r.table), s[r], u)
  {
    hide Plan, Holds, CondOf;
    if StepOf(r.table).Some? {
      StepIsFor(r.table);
    }
  }

  /** The rows step `n` matches on the untouched store. */
  lemma HitIff(s: Store, u: nat, n: nat, r: Ref)
    requires n < STEPS
    ensures r in Hit(s, Plan()[n], u) <==> OwnedBy(s, u, r) && StepOf(r.table) == Some(n)
  {
    hide Plan, StepOf, Holds;
    OneStepPerTable(n);
  }

  lemma OwnedHasStep(s: Store, u: nat, r: Ref)
    requires OwnedBy(s, u, r)
    ensures StepOf(r.table).Some? && StepOf(r.table).value < STEPS && r in s
  {
    hide Plan, StepOf;
  }

  /** A row is doomed by the first `n` steps exactly if its own table's step is among them and matches it. */
  lemma {:induction false} DoomedIs(s: Store, u: nat, n: nat)
    requires n <= STEPS
    ensures forall r :: r in Doomed(s, Plan(), u, n) <==>
              OwnedBy(s, u, r) && StepOf(r.table).Some? && StepOf(r.table).value < n
  {
    hide Plan, StepOf, OwnedBy, Hit;
    if n > 0 {
      DoomedIs(s, u, n - 1);
      forall r
        ensures r in Hit(s, Plan()[n - 1], u) <==> OwnedBy(s, u, r) && StepOf(r.table) == Some(n - 1)
      {
        HitIff(s, u, n - 1, r);
      }
    }
  }

  // ----------------------------------------------------------- collateral rows

  /** A notification about one of the person's jobs. */
  predicate NoticeOfOwnJob(s: Store, u: nat, r: Ref) {
    r in s && r.table == Notifications && Holds(s, ON_OWN_JOB, s[r], u)
  }

  /** A device token of the person. */
  predicate TokenOfPerson(s: Store, u: nat, r: Ref) {
    r in s && r.table == DeviceTokens && Holds(s, OneOf(UserId, Users, Is(Id)), s[r], u)
  }

  lemma NamesOwnJob(s: Store, u: nat, e: Edge, r: Ref, p: Ref)
    requires e == One(e.child, JobId, Jobs, Cascade) && Names(e, s, r, p) && Holds(s, Is(TechnicianId), s[p], u)
    ensures Holds(s, ON_OWN_JOB, s[r], u)
  {
  }

  lemma NamesOwnPhoto(s: Store, u: nat, r: Ref, p: Ref)
    requires Names(One(AttachmentReports, AttachmentId, Attachments, Cascade), s, r, p) && Holds(s, ON_OWN_JOB, s[p], u)
    ensures Holds(s, OneOf(AttachmentId, Attachments, ON_OWN_JOB), s[r], u)
  {
    hide Holds;
    OneOfHolds(s, AttachmentId, Attachments, ON_OWN_JOB, s[r], p, u);
  }

  lemma OneOfHolds(s: Store, col: Col, table: Table, inner: Cond, x: Row, p: Ref, u: nat)
    requires p in s && p.table == table && Holds(s, inner, s[p], u) && col in x && Id in s[p] && s[p][Id] == x[col]
    ensures Holds(s, OneOf(col, table, inner), x, u)
  {
  }

  /** What the first `n` steps remove beyond their own rows. */
  predicate Collateral(s: Store, u: nat, n: nat, r: Ref) {
    (n > AT_JOBS && NoticeOfOwnJob(s, u, r)) || (n > AT_USERS && TokenOfPerson(s, u, r))
  }

  /** A row that cascades from an owned one is owned - by an earlier step - or collateral. */
  lemma CascadesFromOwned(s: Store, u: nat, n: nat, e: Edge, r: Ref, p: Ref)
    requires e in Edges() && e.rule == Cascade && Names(e, s, r, p)
    requires OwnedBy(s, u, p) && StepOf(p.table).value < n
    ensures (OwnedBy(s, u, r) && StepOf(r.table).value < n) || Collateral(s, u, n, r)
  {
    hide Holds, Edges, Plan, OwnedBy;
    EdgesSane(e);
    OwnedIs(s, u, p);
    if e == One(e.child, JobId, Jobs, Cascade) {
      CascadesFromJob(s, u, n, e, r, p);
    } else {
      OwnedIs(s, u, r);
      if e.child == AttachmentReports {
        NamesOwnPhoto(s, u, r, p);
        EitherHolds(s, Is(ReporterId), OneOf(AttachmentId, Attachments, ON_OWN_JOB), s[r], u);
      } else {
        IsHolds(s, Id, s[p], u);
        IsHolds(s, UserId, s[r], u);
        OneOfHolds(s, UserId, Users, Is(Id), s[r], p, u);
      }
    }
  }

  lemma CascadesFromJob(s: Store, u: nat, n: nat, e: Edge, r: Ref, p: Ref)
    requires e == One(e.child, JobId, Jobs, Cascade) && SilentSane(e) && Names(e, s, r, p)
    requires Holds(s, Is(TechnicianId), s[p], u) && AT_JOBS < n
    ensures (OwnedBy(s, u, r) && StepOf(r.table).value < n) || Collateral(s, u, n, r)
  {
    hide Holds, Plan, OwnedBy;
    OwnedIs(s, u, r);
    NamesOwnJob(s, u, e, r, p);
    EitherHolds(s, Is(ActorId), ON_OWN_JOB, s[r], u);
  }

  lemma EitherHolds(s: Store, a: Cond, b: Cond, x: Row, u: nat)
    ensures Holds(s, Either(a, b), x, u) <==> Holds(s, a, x, u) || Holds(s, b, x, u)
  {
  }

  lemma IsHolds(s: Store, col: Col, x: Row, u: nat)
    ensures Holds(s, Is(col), x, u) <==> col in x && x[col] == u
  {
  }

  lemma SilentKeys()
    ensures NOTICE_OF_JOB in Edges() && TOKEN_OF_USER in Edges() && PHOTO_OF_UPLOAD in Edges()
  {
    hide ExpectedEdges;
    assert SilentEdges()[3] == NOTICE_OF_JOB && SilentEdges()[6] == TOKEN_OF_USER && SilentEdges()[7] == PHOTO_OF_UPLOAD;
  }

  lemma CollateralDies(s: Store, u: nat, n: nat, r: Ref)
    requires n <= STEPS && Collateral(s, u, n, r)
    ensures r in Gone(Edges(), s, Plan(), u, n)
  {
    hide Edges, Plan, Doomed, Closure, DiesWith, OwnedBy;
    SilentKeys();
    DoomedIs(s, u, n);
    var gone := Gone(Edges(), s, Plan(), u, n);
    if n > AT_JOBS && NoticeOfOwnJob(s, u, r) {
      var p :| p in s && p.table == Jobs && Holds(s, Is(TechnicianId), s[p], u) && Id in s[p] && s[p][Id] == s[r][JobId];
      OwnedIs(s, u, p);
      Dies(Edges(), s, gone, NOTICE_OF_JOB, r, p);
    } else {
      var p :| p in s && p.table == Users && Holds(s, Is(Id), s[p], u) && Id in s[p] && s[p][Id] == s[r][UserId];
      OwnedIs(s, u, p);
      Dies(Edges(), s, gone, TOKEN_OF_USER, r, p);
    }
  }

  lemma Dies(edges: seq<Edge>, s: Store, gone: set<Ref>, e: Edge, r: Ref, p: Ref)
    requires e in edges && e.rule == Cascade && p in gone && Names(e, s, r, p)
    ensures DiesWith(edges, s, gone, r)
  {
  }

  /** Everything a purge removes: the person's rows, the notifications on their jobs, their device tokens. */
  lemma GoneIs(s: Store, u: nat, n: nat)
    requires n <= STEPS
    ensures forall r :: r in Gone(Edges(), s, Plan(), u, n) <==> r in Doomed(s, Plan(), u, n) || Collateral(s, u, n, r)
  {
    hide Edges, Plan, Doomed, Collateral, OwnedBy;
    DoomedIs(s, u, n);
    var doomed := Doomed(s, Plan(), u, n);
    var bound := set r | r in s && (r in doomed || Collateral(s, u, n, r));
    forall r | r in s && DiesWith(Edges(), s, bound, r)
      ensures r in bound
    {
      var e, p :| e in Edges() && e.rule == Cascade && p in bound && Names(e, s, r, p);
      if p in doomed {
        CascadesFromOwned(s, u, n, e, r, p);
        if OwnedBy(s, u, r) {
          OwnedHasStep(s, u, r);
        }
      } else {
        NothingCascadesFurther(s, u, n, e, r, p);
      }
    }
    ClosureLeast(Edges(), s, doomed, bound);
    forall r | Collateral(s, u, n, r)
      ensures r in Gone(Edges(), s, Plan(), u, n)
    {
      CollateralDies(s, u, n, r);
    }
  }

  lemma NothingCascadesFurther(s: Store, u: nat, n: nat, e: Edge, r: Ref, p: Ref)
    requires e in Edges() && e.rule == Cascade && Collateral(s, u, n, p)
    ensures !Names(e, s, r, p)
  {
    hide Edges, Holds;
    EdgesSane(e);
  }

  // ------------------------------------------------------- backup and receipt

  /** No row is in two backup sections. */
  lemma NoRowTwice(s: Store, u: nat, i: nat, j: nat)
    requires i < j < STEPS
    ensures Hit(s, Plan()[i], u) !! Hit(s, Plan()[j], u)
  {
    hide Plan;
    OneStepPerTable(i);
    OneStepPerTable(j);
  }

  /** What is already gone when a step runs: among its rows, only notifications about the person's own jobs. */
  lemma AlreadyGone(s: Store, u: nat, j: nat, r: Ref)
    requires j < STEPS && r in Hit(s, Plan()[j], u)
    ensures r in Gone(Edges(), s, Plan(), u, j) <==> j == AT_NOTIFICATIONS && NoticeOfOwnJob(s, u, r)
  {
    hide Edges, Plan, Gone, Doomed, Holds;
    GoneIs(s, u, j);
    DoomedIs(s, u, j);
    OneStepPerTable(j);
  }

  lemma SizeIff<T>(a: set<T>, b: set<T>)
    ensures |a - b| == |a| <==> a !! b
  {
    if a !! b {
      assert a - b == a;
    } else {
      var x :| x in a && x in b;
      SubsetSize(a - b, a - {x});
    }
  }

  /**
   * The receipt's counts agree with the backup, section by section, exactly when no notification of
   * the person is about one of their own jobs: deleting the jobs takes those along before their own
   * step counts them.
   */
  lemma ReceiptMatchesBackupIff(s: Store, u: nat)
    requires RunDeletes(Edges(), s, Plan(), u, STEPS).Some?
    ensures var counts := RunDeletes(Edges(), s, Plan(), u, STEPS).value.counts;
            (forall j :: 0 <= j < STEPS ==> counts[j] == |Hit(s, Plan()[j], u)|)
            <==> forall r :: r in Hit(s, Plan()[AT_NOTIFICATIONS], u) ==> !NoticeOfOwnJob(s, u, r)
  {
    hide Edges, Plan, Gone, RunDeletes, Hit, NoticeOfOwnJob, PlanOk;
    PlanIsOk();
    RunTracks(Edges(), s, Plan(), u, STEPS);
    var counts := RunDeletes(Edges(), s, Plan(), u, STEPS).value.counts;
    forall j | 0 <= j < STEPS
      ensures counts[j] == |Hit(s, Plan()[j], u)| <==>
                forall r :: r in Hit(s, Plan()[j], u) ==> !(j == AT_NOTIFICATIONS && NoticeOfOwnJob(s, u, r))
    {
      SizeIff(Hit(s, Plan()[j], u), Gone(Edges(), s, Plan(), u, j));
      forall r | r in Hit(s, Plan()[j], u)
        ensures r in Gone(Edges(), s, Plan(), u, j) <==> j == AT_NOTIFICATIONS && NoticeOfOwnJob(s, u, r)
      {
        AlreadyGone(s, u, j, r);
      }
    }
  }

  // ---------------------------------------------------------- completion

  /** Somebody else's row refers, under a restricting key that is not cleared, to one of the person's. */
  ghost predicate Pinned(s: Store, u: nat) {
    exists e, r, p :: e in Edges() && Pins(s, u, e, r, p)
  }

  predicate Pins(s: Store, u: nat, e: Edge, r: Ref, p: Ref) {
    e.rule == Restrict && HardChild(e) && Names(e, s, r, p) && OwnedBy(s, u, p) && !OwnedBy(s, u, r)
  }

  lemma RefuserPins(s: Store, t: Store, u: nat, n: nat, e: Edge, r: Ref, p: Ref)
    requires n < STEPS && e in Edges() && e.rule == Restrict && Names(e, t, r, p)
    requires Remains(s, t, Gone(Edges(), s, Plan(), u, n)) && Cleared(t, Plan(), u, n)
    requires r !in Gone(Edges(), s, Plan(), u, n + 1) && p in Gone(Edges(), s, Plan(), u, n + 1)
    ensures Pins(s, u, e, r, p)
  {
    hide Edges, Plan, Gone, Remains, Cleared, Doomed, OwnedBy, Holds, StepOf, ChildFirst, Explained, FewKeys, SilentSane;
    EdgesSane(e);
    RowsOfStore(s, t, u, n, e, r, p);
    GoneIs(s, u, n + 1);
    DoomedIs(s, u, n + 1);
    assert OwnedBy(s, u, p);
    OwnedHasStep(s, u, p);
    InviterCleared(s, t, u, n, r, p);
    if OwnedBy(s, u, r) {
      OwnedHasStep(s, u, r);
      StepsInOrder(e.child, e.parent);
      assert false;
    }
  }

  /** A refusal is somebody else's row: the person's own children went before, and inviter links are cleared. */
  lemma RefusedMeansPinned(s: Store, t: Store, u: nat, n: nat)
    requires n < STEPS && PlanOk(Edges(), Plan())
    requires Remains(s, t, Gone(Edges(), s, Plan(), u, n)) && Cleared(t, Plan(), u, n)
    requires RunStep(Edges(), t, Plan()[n], u).None?
    ensures Pinned(s, u)
  {
    hide Edges, Plan, Gone, RunStep, PlanOk, Remains, Cleared, Names, Pins;
    StepRefusedIff(Edges(), s, t, Plan(), u, n);
    var e, r, p :| e in Edges() && e.rule == Restrict && Names(e, t, r, p)
                   && r !in Gone(Edges(), s, Plan(), u, n + 1) && p in Gone(Edges(), s, Plan(), u, n + 1);
    RefuserPins(s, t, u, n, e, r, p);
  }

  lemma RowsOfStore(s: Store, t: Store, u: nat, n: nat, e: Edge, r: Ref, p: Ref)
    requires n <= STEPS && Remains(s, t, Gone(Edges(), s, Plan(), u, n)) && EdgeOk(e) && Names(e, t, r, p)
    ensures Names(e, s, r, p)
  {
    hide Edges, Plan, Gone;
    NamesSame(e, s, t, Gone(Edges(), s, Plan(), u, n), r, p);
  }

  /** By the time the person's own row goes, no membership names them as inviter. */
  lemma InviterCleared(s: Store, t: Store, u: nat, n: nat, r: Ref, p: Ref)
    requires n < STEPS && Remains(s, t, Gone(Edges(), s, Plan(), u, n)) && Cleared(t, Plan(), u, n)
    requires OwnedBy(s, u, p) && StepOf(p.table).value < n + 1
    ensures !Names(One(Memberships, InvitedBy, Users, Restrict), t, r, p)
  {
    hide Edges, Gone;
    if p in t && p.table == Users && r in t && r.table == Memberships && InvitedBy in t[r] {
      assert SameRow(s[p], t[p]);
      assert Plan()[22] == Clear(Memberships, InvitedBy);
      assert Plan()[24] == Delete(Users, Is(Id));
    }
  }

  // The converse.

  lemma PinnedMeansRefused(s: Store, t: Store, u: nat, e: Edge, r: Ref, p: Ref)
    requires e in Edges() && Pins(s, u, e, r, p) && PlanOk(Edges(), Plan())
    requires var n := StepOf(p.table).value;
             && Remains(s, t, Gone(Edges(), s, Plan(), u, n)) && Cleared(t, Plan(), u, n)
    ensures RunStep(Edges(), t, Plan()[StepOf(p.table).value], u).None?
  {
    hide Edges, Plan, Gone, RunStep, PlanOk, Remains, Cleared, Doomed, Holds;
    var n := StepOf(p.table).value;
    EdgesSane(e);
    GoneIs(s, u, n);
    GoneIs(s, u, n + 1);
    DoomedIs(s, u, n);
    DoomedIs(s, u, n + 1);
    StranderStays(s, u, n + 1, e, r, p);
    StillNames(s, t, u, n, e, r, p);
    StepRefusedIff(Edges(), s, t, Plan(), u, n);
  }

  /** A row that pins is not collateral either: a notification pinned to the person's user row is theirs. */
  lemma StranderStays(s: Store, u: nat, n: nat, e: Edge, r: Ref, p: Ref)
    requires e in Edges() && Pins(s, u, e, r, p)
    ensures !Collateral(s, u, n, r)
  {
    hide Edges, Plan, OwnedBy, Holds;
    EdgesSane(e);
    OwnedIs(s, u, p);
    OwnedIs(s, u, r);
    IsHolds(s, Id, s[p], u);
    IsHolds(s, UserId, s[r], u);
  }

  lemma StillNames(s: Store, t: Store, u: nat, n: nat, e: Edge, r: Ref, p: Ref)
    requires n <= STEPS && Remains(s, t, Gone(Edges(), s, Plan(), u, n)) && EdgeOk(e) && HardChild(e) && Names(e, s, r, p)
    requires r !in Gone(Edges(), s, Plan(), u, n) && p !in Gone(Edges(), s, Plan(), u, n)
    ensures Names(e, t, r, p)
  {
    hide Edges, Plan, Gone;
    NamesSame(e, s, t, Gone(Edges(), s, Plan(), u, n), r, p);
  }

  lemma {:induction false} CompletesUnlessPinned(s: Store, u: nat, n: nat)
    requires n <= STEPS && !Pinned(s, u)
    ensures RunDeletes(Edges(), s, Plan(), u, n).Some?
  {
    hide Edges, Plan, RunDeletes, RunStep, PlanOk, Remains, Cleared, Pinned;
    PlanIsOk();
    if n == 0 {
      FirstRun(s, u);
    } else {
      CompletesUnlessPinned(s, u, n - 1);
      RunTracks(Edges(), s, Plan(), u, n - 1);
      LastRun(Edges(), s, Plan(), u, n - 1);
      var t := RunDeletes(Edges(), s, Plan(), u, n - 1).value.store;
      if RunStep(Edges(), t, Plan()[n - 1], u).None? {
        RefusedMeansPinned(s, t, u, n - 1);
      }
    }
  }

  lemma FirstRun(s: Store, u: nat)
    ensures RunDeletes(Edges(), s, Plan(), u, 0).Some?
  {
  }

  lemma {:induction false} RunPrefix(s: Store, u: nat, m: nat, n: nat)
    requires m <= n <= STEPS && RunDeletes(Edges(), s, Plan(), u, n).Some?
    ensures RunDeletes(Edges(), s, Plan(), u, m).Some?
    decreases n
  {
    hide Edges, Plan, RunDeletes, RunStep;
    if m < n {
      LastRun(Edges(), s, Plan(), u, n - 1);
      RunPrefix(s, u, m, n - 1);
    }
  }

  lemma PinnedNeverCompletes(s: Store, u: nat, e: Edge, r: Ref, p: Ref)
    requires e in Edges() && Pins(s, u, e, r, p)
    ensures RunDeletes(Edges(), s, Plan(), u, STEPS).None?
  {
    hide Edges, Plan, RunDeletes, RunStep, PlanOk, Remains, Cleared, OwnedBy, Names, StepOf, Gone;
    OwnedHasStep(s, u, p);
    var n := StepOf(p.table).value;
    PlanIsOk();
    if RunDeletes(Edges(), s, Plan(), u, STEPS).Some? {
      RunPrefix(s, u, n + 1, STEPS);
      RunPrefix(s, u, n, STEPS);
      RunTracks(Edges(), s, Plan(), u, n);
      LastRun(Edges(), s, Plan(), u, n);
      PinnedMeansRefused(s, RunDeletes(Edges(), s, Plan(), u, n).value.store, u, e, r, p);
    }
  }

  /**
   * The purge completes exactly when no row of somebody else refers, under a restricting key other
   * than the inviter link, to a row of the person - and never for want of order among their own rows.
   */
  lemma PurgeCompletesIff(s: Store, u: nat)
    ensures RunDeletes(Edges(), s, Plan(), u, STEPS).Some? <==> !Pinned(s, u)
  {
    hide Edges, Plan, RunDeletes, Pins;
    if Pinned(s, u) {
      var e, r, p :| e in Edges() && Pins(s, u, e, r, p);
      PinnedNeverCompletes(s, u, e, r, p);
    } else {
      CompletesUnlessPinned(s, u, STEPS);
    }
  }

  // ------------------------------------------------------------ what is left

  /** A photo that names an upload of the person. */
  ghost predicate NamesOwnUpload(s: Store, u: nat, r: Ref) {
    exists p :: OwnedBy(s, u, p) && Names(PHOTO_OF_UPLOAD, s, r, p)
  }

  /** The column links a surviving row to the person: the inviter of a membership, or a photo's upload. */
  ghost predicate LinksPerson(s: Store, u: nat, r: Ref, c: Col)
    requires r in s && c in s[r]
  {
    || (c == InvitedBy && r.table == Memberships && s[r][c] == u)
    || (c == UploadId && NamesOwnUpload(s, u, r))
  }

  /** A surviving row after the purge: those links are cleared, every other column is as it was. */
  ghost function LeftOf(s: Store, u: nat, r: Ref): Row
    requires r in s
  {
    map c | c in s[r] && !LinksPerson(s, u, r, c) :: s[r][c]
  }

  /** The rows a purge leaves alone: not the person's, no notification about their jobs, no token of theirs. */
  predicate Survives(s: Store, u: nat, r: Ref) {
    r in s && !OwnedBy(s, u, r) && !NoticeOfOwnJob(s, u, r) && !TokenOfPerson(s, u, r)
  }

  ghost function AfterPurge(s: Store, u: nat): Store {
    map r | r in s && Survives(s, u, r) :: LeftOf(s, u, r)
  }

  lemma SeveredIsUpload(s: Store, u: nat, r: Ref, c: Col)
    requires Severed(Edges(), s, Gone(Edges(), s, Plan(), u, STEPS), r, c)
    ensures c == UploadId && NamesOwnUpload(s, u, r)
  {
    hide Edges, Plan, Gone, OwnedBy, Matches, Known;
    var gone := Gone(Edges(), s, Plan(), u, STEPS);
    var e, p :| e in Edges() && e.rule == SetNull && Refers(e, c) && p in gone && Names(e, s, r, p);
    EdgesSane(e);
    UploadGone(s, u, p);
  }

  lemma UploadIsSevered(s: Store, u: nat, r: Ref)
    requires NamesOwnUpload(s, u, r)
    ensures Severed(Edges(), s, Gone(Edges(), s, Plan(), u, STEPS), r, UploadId)
  {
    hide Edges, Plan, Gone, OwnedBy, Doomed, Collateral, StepOf;
    SilentKeys();
    var p :| OwnedBy(s, u, p) && Names(PHOTO_OF_UPLOAD, s, r, p);
    OwnedHasStep(s, u, p);
    GoneIs(s, u, STEPS);
    DoomedIs(s, u, STEPS);
  }

  lemma OnlyUploadsSever(s: Store, u: nat, r: Ref, c: Col)
    ensures Severed(Edges(), s, Gone(Edges(), s, Plan(), u, STEPS), r, c) <==> c == UploadId && NamesOwnUpload(s, u, r)
  {
    hide Edges, Plan, Gone, Severed, NamesOwnUpload;
    if Severed(Edges(), s, Gone(Edges(), s, Plan(), u, STEPS), r, c) {
      SeveredIsUpload(s, u, r, c);
    }
    if c == UploadId && NamesOwnUpload(s, u, r) {
      UploadIsSevered(s, u, r);
    }
  }

  /** An upload goes only as the person's own. */
  lemma UploadGone(s: Store, u: nat, p: Ref)
    requires p in Gone(Edges(), s, Plan(), u, STEPS) && p.table == AttachmentUploads
    ensures OwnedBy(s, u, p)
  {
    hide Edges, Plan, Gone, OwnedBy, Holds;
    GoneIs(s, u, STEPS);
    DoomedIs(s, u, STEPS);
  }

  lemma OnlyInvitersClear(s: Store, u: nat, r: Ref, c: Col)
    requires r in s && c in s[r]
    ensures ClearedBy(s, Plan(), u, STEPS, r, c) <==> c == InvitedBy && r.table == Memberships && s[r][c] == u
  {
    if ClearedBy(s, Plan(), u, STEPS, r, c) {
      var j :| 0 <= j < STEPS && Plan()[j] == Clear(r.table, c);
      OneStepPerTable(j);
      assert j == 22;
    }
    assert Plan()[22] == Clear(Memberships, InvitedBy);
  }

  lemma LeftIs(s: Store, u: nat, r: Ref)
    requires r in s
    ensures Left(Edges(), s, Plan(), u, STEPS, r) == LeftOf(s, u, r)
  {
    hide Edges, Plan, Gone, Severed, ClearedBy, NamesOwnUpload;
    forall c | c in s[r]
      ensures c in Left(Edges(), s, Plan(), u, STEPS, r) <==> c in LeftOf(s, u, r)
    {
      OnlyUploadsSever(s, u, r, c);
      OnlyInvitersClear(s, u, r, c);
    }
  }

  lemma RowSurvives(s: Store, u: nat, r: Ref)
    requires RunDeletes(Edges(), s, Plan(), u, STEPS).Some?
    ensures var t := RunDeletes(Edges(), s, Plan(), u, STEPS).value.store;
            (r in t <==> Survives(s, u, r)) && (r in t ==> t[r] == LeftOf(s, u, r))
  {
    hide Edges, Plan, Gone, RunDeletes, NoticeOfOwnJob, TokenOfPerson, PlanOk, SameRow, Doomed, OwnedBy, Left, LeftOf;
    PlanIsOk();
    RunTracks(Edges(), s, Plan(), u, STEPS);
    GoneIs(s, u, STEPS);
    DoomedIs(s, u, STEPS);
    if OwnedBy(s, u, r) {
      OwnedHasStep(s, u, r);
    }
    if r in s {
      LeftIs(s, u, r);
    }
  }

  /**
   * What a completed purge leaves, exactly: every row but the person's, the notifications about their
   * jobs - whoever they were sent to - and their device tokens; in those rows only the inviter links to
   * the person and the links to their uploads are cleared.
   */
  lemma PurgeLeaves(s: Store, u: nat)
    requires RunDeletes(Edges(), s, Plan(), u, STEPS).Some?
    ensures RunDeletes(Edges(), s, Plan(), u, STEPS).value.store == AfterPurge(s, u)
  {
    hide Edges, Plan, RunDeletes, Survives, LeftOf;
    var t := RunDeletes(Edges(), s, Plan(), u, STEPS).value.store;
    forall r
      ensures (r in t <==> r in s && Survives(s, u, r)) && (r in t ==> t[r] == LeftOf(s, u, r))
    {
      RowSurvives(s, u, r);
      if Survives(s, u, r) {
        SurvivorsExist(s, u, r);
      }
    }
  }

  lemma SurvivorsExist(s: Store, u: nat, r: Ref)
    requires Survives(s, u, r)
    ensures r in s
  {
  }
}
