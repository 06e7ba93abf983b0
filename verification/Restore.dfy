// The backup a purge writes and the restore that replays it, parents first, skipping rows that
// exist: when it goes through past the foreign keys and the insert triggers, what it brings back,
// and what a second restore does.

module Restore {
  import opened Basics
  import opened Relational
  import opened Purge
  import opened PersonPurge
  import opened PurgeTheorems
  import opened Guards
  import opened GuardReads

  /** One section of the backup file: the rows one delete step matched. */
  function SectionOf(s: Store, step: Step, u: nat): Store {
    map r | r in Hit(s, step, u) :: s[r]
  }

  /** The sections of the first `n` steps, in plan order, without empty ones. */
  function Backup(s: Store, plan: seq<Step>, u: nat, n: nat): seq<Store>
    requires n <= |plan|
  {
    if n == 0 then []
    else
      var section := SectionOf(s, plan[n - 1], u);
      Backup(s, plan, u, n - 1) + if |section| > 0 then [section] else []
  }

  datatype Restored = Restored(store: Store, inserted: nat)

  /** Rows of a section that are not there yet. */
  function Missing(t: Store, section: Store): set<Ref> {
    section.Keys - t.Keys
  }

  /** Some rows of a section, as they are inserted. */
  function Put(section: Store, refs: set<Ref>): Store {
    map r | r in refs && r in section :: Insertable(section[r])
  }

  /** In what order the file holds the rows of a section. */
  type Order = Store -> seq<Ref>

  /** Every row once. */
  ghost predicate Lists(rows: seq<Ref>, refs: set<Ref>) {
    && (forall i :: 0 <= i < |rows| ==> rows[i] in refs) && (forall r :: r in refs ==> r in rows)
    && forall i, j :: 0 <= i < j < |rows| ==> rows[i] != rows[j]
  }

  ghost predicate IsOrder(order: Order) {
    forall section: Store :: Lists(order(section), section.Keys)
  }

  lemma ListedBy(order: Order, section: Store)
    requires IsOrder(order)
    ensures Lists(order(section), section.Keys)
  {
  }

  /** The rows that were inserted before the i-th one is tried. */
  function InBefore(t: Store, rows: seq<Ref>, i: nat): set<Ref>
    requires i <= |rows|
  {
    (set r | r in rows[..i]) - t.Keys
  }

  /** The i-th row finds room among the reports in flight. */
  predicate RoomAt(t: Store, section: Store, rows: seq<Ref>, i: nat)
    requires i < |rows|
  {
    rows[i] in section ==>
      RoomFor(t + Put(section, InBefore(t, rows, i)), rows[i].table, Insertable(section[rows[i]]))
  }

  /**
   * What aborts a section: the triggers run for every row, existing ones too; a row that is not
   * there yet needs its parents as well.
   */
  predicate Refuses(edges: seq<Edge>, t: Store, section: Store, rows: seq<Ref>) {
    || (exists r :: r in section && !ActorOk(t, r.table, Insertable(section[r])))
    || (exists i :: 0 <= i < |rows| && !RoomAt(t, section, rows, i))
    || (exists r :: r in Missing(t, section) && !Anchored(edges, t, r.table, Insertable(section[r])))
  }

  /** Inserts a section's missing rows, or aborts the transaction. */
  function InsertSection(edges: seq<Edge>, t: Store, section: Store, rows: seq<Ref>): Option<Restored> {
    if Refuses(edges, t, section, rows) then None
    else Some(Restored(t + Put(section, Missing(t, section)), |Missing(t, section)|))
  }

  /** The sections from the last to the first. */
  function InsertSections(edges: seq<Edge>, t: Store, sections: seq<Store>, order: Order): Option<Restored>
    decreases |sections|
  {
    if sections == [] then Some(Restored(t, 0))
    else
      var n := |sections| - 1;
      var one := InsertSection(edges, t, sections[n], order(sections[n]));
      if one.None? then None
      else
        var rest := InsertSections(edges, one.value.store, sections[..n], order);
        if rest.None? then None
        else Some(Restored(rest.value.store, one.value.inserted + rest.value.inserted))
  }

  /** The whole transaction: the inserts, and at commit the deferred coverage trigger. */
  function RestoreRows(edges: seq<Edge>, t: Store, sections: seq<Store>, order: Order, today: nat -> Date)
    : Option<Restored>
  {
    var done := InsertSections(edges, t, sections, order);
    if done.Some? && Commits(t, done.value.store, today) then done else None
  }

  function Total(sections: seq<Store>): nat {
    if sections == [] then 0 else Total(sections[..|sections| - 1]) + |sections[|sections| - 1]|
  }

  // ------------------------------------------------------------- the invariant

  /** A row that is there when the sections of the steps from `n` on have been restored. */
  predicate BackBy(s: Store, u: nat, n: nat, r: Ref) {
    && r in s
    && if OwnedBy(s, u, r) then StepOf(r.table).value >= n else !NoticeOfOwnJob(s, u, r) && !TokenOfPerson(s, u, r)
  }

  /** A row as the round trip gives it back: restored, or as the purge left it. */
  ghost function RowBack(s: Store, u: nat, r: Ref): Row
    requires r in s
  {
    if OwnedBy(s, u, r) then Insertable(s[r]) else LeftOf(s, u, r)
  }

  ghost predicate HalfRestored(s: Store, t: Store, u: nat, n: nat) {
    && (forall r :: r in t <==> BackBy(s, u, n, r))
    && forall r :: r in t ==> SameKeys(s[r], t[r]) && t[r] == RowBack(s, u, r)
  }

  /** A backed-up row that names a row of an earlier section: its parent comes back after it. */
  predicate Strands(s: Store, u: nat, e: Edge, r: Ref, p: Ref) {
    Names(e, s, r, p) && OwnedBy(s, u, r) && OwnedBy(s, u, p) && StepOf(p.table).value < StepOf(r.table).value
  }

  lemma InsertableKeys(x: Row)
    ensures SameKeys(x, Insertable(x))
  {
  }

  lemma NamesThrough(e: Edge, s: Store, t: Store, r: Ref, p: Ref)
    requires EdgeOk(e) && r in s && p in s && p in t && SameKeys(s[p], t[p])
    ensures r.table == e.child && p.table == e.parent ==>
              (Matches(e, Insertable(s[r]), t[p]) <==> Names(e, s, r, p))
  {
  }

  /** The parents of a row of section `n` are there, unless one stands in an earlier section. */
  lemma AnchoredUnlessStranded(s: Store, t: Store, u: nat, n: nat, r: Ref)
    requires ParentsExist(Edges(), s) && n < STEPS && HalfRestored(s, t, u, n + 1) && r in Hit(s, Plan()[n], u)
    requires forall e, p :: e in Edges() ==> !Strands(s, u, e, r, p)
    ensures Anchored(Edges(), t, r.table, Insertable(s[r]))
  {
    hide Edges, Plan, Hit, EdgeOk, NoticeOfOwnJob, TokenOfPerson, SameKeys, Matches;
    OneStepPerTable(n);
    HitTable(s, u, n, r);
    forall e | e in Edges() && e.child == r.table && Filled(e, Insertable(s[r]))
      ensures HasParent(e, t, Insertable(s[r]))
    {
      EdgesSane(e);
      var p :| Names(e, s, r, p);
      ParentComesFirst(s, t, u, n, e, r, p);
      NamesThrough(e, s, t, r, p);
    }
  }

  lemma HitTable(s: Store, u: nat, n: nat, r: Ref)
    requires n < STEPS && r in Hit(s, Plan()[n], u)
    ensures StepOf(r.table) == Some(n) && OwnedBy(s, u, r)
  {
    hide Plan, StepOf, OwnedBy, Hit;
    HitIff(s, u, n, r);
  }

  lemma ParentComesFirst(s: Store, t: Store, u: nat, n: nat, e: Edge, r: Ref, p: Ref)
    requires HalfRestored(s, t, u, n + 1) && e in Edges() && Names(e, s, r, p)
    requires OwnedBy(s, u, r) && StepOf(r.table) == Some(n) && !Strands(s, u, e, r, p)
    ensures p in t
  {
    hide Edges, Plan, Hit, SameKeys, RowBack, Matches, Holds, OwnedBy, StepOf;
    ParentTable(e);
    if OwnedBy(s, u, p) {
      OwnedHasStep(s, u, p);
      DifferentStep(e);
    }
  }

  /** No key refers to a row that goes only by a cascade, or to its own table. */
  lemma ParentTable(e: Edge)
    requires e in Edges()
    ensures e.parent != Notifications && e.parent != DeviceTokens && e.parent != e.child
  {
    hide Edges, ChildFirst, Explained, FewKeys;
    EdgesSane(e);
  }

  lemma DifferentStep(e: Edge)
    requires e.child != e.parent && StepOf(e.child).Some? && StepOf(e.parent).Some?
    ensures StepOf(e.child) != StepOf(e.parent)
  {
  }

  /** A stranded row has no parent yet: its only one is still missing. */
  lemma StrandedIsNotAnchored(s: Store, t: Store, u: nat, n: nat, e: Edge, r: Ref, p: Ref)
    requires ParentsUnique(Edges(), s) && HalfRestored(s, t, u, n + 1)
    requires e in Edges() && Strands(s, u, e, r, p) && StepOf(r.table) == Some(n)
    ensures !Anchored(Edges(), t, r.table, Insertable(s[r]))
  {
    hide Edges, Plan, Hit, SameKeys, Holds, OwnedBy;
    EdgesSane(e);
    forall q | q in t && q.table == e.parent
      ensures !Matches(e, Insertable(s[r]), t[q])
    {
      NamesThrough(e, s, t, r, q);
    }
    FilledThrough(e, s, r, p);
  }

  lemma FilledThrough(e: Edge, s: Store, r: Ref, p: Ref)
    requires EdgeOk(e) && Names(e, s, r, p)
    ensures Filled(e, Insertable(s[r]))
  {
  }

  // --------------------------------------- the foreign keys, section by section

  ghost predicate SectionStranded(s: Store, u: nat, n: nat) {
    exists e, r, p :: e in Edges() && Strands(s, u, e, r, p) && StepOf(r.table) == Some(n)
  }

  /** The rows of section `n` are exactly what is still missing there. */
  lemma SectionMissing(s: Store, t: Store, u: nat, n: nat)
    requires n < STEPS && HalfRestored(s, t, u, n + 1)
    ensures var section := SectionOf(s, Plan()[n], u);
            && Missing(t, section) == section.Keys && (forall r :: r in section ==> OwnedBy(s, u, r))
            && forall r :: BackBy(s, u, n, r) <==> BackBy(s, u, n + 1, r) || r in section
  {
    hide Plan, Hit, OwnedBy, NoticeOfOwnJob, TokenOfPerson, SameKeys;
    var section := SectionOf(s, Plan()[n], u);
    forall r
      ensures r in section <==> OwnedBy(s, u, r) && StepOf(r.table) == Some(n)
      ensures BackBy(s, u, n, r) <==> BackBy(s, u, n + 1, r) || r in section
    {
      if r in section {
        HitTable(s, u, n, r);
      }
      BackAt(s, u, n, r);
    }
  }

  lemma BackAt(s: Store, u: nat, n: nat, r: Ref)
    requires n < STEPS
    ensures OwnedBy(s, u, r) && StepOf(r.table) == Some(n) ==> r in Hit(s, Plan()[n], u) && r in s
    ensures OwnedBy(s, u, r) ==> StepOf(r.table).Some?
  {
    hide Plan, StepOf, OwnedBy, Hit;
    HitIff(s, u, n, r);
    if OwnedBy(s, u, r) {
      OwnedHasStep(s, u, r);
    }
  }

  lemma SectionAnchored(s: Store, t: Store, u: nat, n: nat)
    requires ParentsExist(Edges(), s) && n < STEPS && HalfRestored(s, t, u, n + 1) && !SectionStranded(s, u, n)
    ensures var section := SectionOf(s, Plan()[n], u);
            forall r :: r in section ==> Anchored(Edges(), t, r.table, Insertable(section[r]))
  {
    hide Edges, Plan, Hit, Strands, Anchored, OwnedBy, Insertable, HalfRestored, ParentsExist;
    var section := SectionOf(s, Plan()[n], u);
    forall r | r in section
      ensures Anchored(Edges(), t, r.table, Insertable(section[r]))
    {
      HitTable(s, u, n, r);
      AnchoredUnlessStranded(s, t, u, n, r);
    }
  }

  // ------------------------------------------------- the triggers, section by section

  /** From the sections of steps `n` on, the rows of a table restored by then are all back. */
  lemma TableIsBack(s: Store, t: Store, u: nat, n: nat, table: Table)
    requires HalfRestored(s, t, u, n) && table != Notifications && table != DeviceTokens
    requires StepOf(table).Some? ==> StepOf(table).value >= n
    ensures SameRows(s, t, table)
  {
    hide OwnedBy, SameKeys, RowBack;
    forall p: Ref | p.table == table && OwnedBy(s, u, p)
      ensures p in s && StepOf(table).Some?
    {
      OwnedHasStep(s, u, p);
    }
  }

  /** A backed-up row whose actor is neither staff nor an active member of its company. */
  ghost predicate ActorGone(s: Store, u: nat, r: Ref) {
    r in s && OwnedBy(s, u, r) && !ActorOk(s, r.table, s[r])
  }

  ghost predicate SectionBarred(s: Store, u: nat, n: nat) {
    exists r :: ActorGone(s, u, r) && StepOf(r.table) == Some(n)
  }

  /** Users and memberships come back before the rows whose actor is checked. */
  lemma ActorsAreBack(s: Store, t: Store, u: nat, n: nat, r: Ref)
    requires n < STEPS && HalfRestored(s, t, u, n + 1) && r in s && StepOf(r.table) == Some(n)
    ensures ActorOk(t, r.table, Insertable(s[r])) == ActorOk(s, r.table, s[r])
  {
    hide HalfRestored, ActorOk, SameRows;
    if ActorCol(r.table).Some? {
      TableIsBack(s, t, u, n + 1, Users);
      TableIsBack(s, t, u, n + 1, Memberships);
    }
    ActorReads(s, t, r.table, s[r]);
  }

  lemma BarredIff(s: Store, t: Store, u: nat, n: nat)
    requires n < STEPS && HalfRestored(s, t, u, n + 1)
    ensures var section := SectionOf(s, Plan()[n], u);
            (exists r :: r in section && !ActorOk(t, r.table, Insertable(section[r]))) <==> SectionBarred(s, u, n)
  {
    hide Plan, Hit, HalfRestored, ActorOk, OwnedBy, Insertable, StepOf;
    var section := SectionOf(s, Plan()[n], u);
    forall r | r in section
      ensures OwnedBy(s, u, r) && StepOf(r.table) == Some(n)
      ensures ActorOk(t, r.table, Insertable(section[r])) == ActorOk(s, r.table, s[r])
    {
      HitTable(s, u, n, r);
      ActorsAreBack(s, t, u, n, r);
    }
    forall r | ActorGone(s, u, r) && StepOf(r.table) == Some(n)
      ensures r in section
    {
      BackAt(s, u, n, r);
    }
  }

  /** The reports in flight when a backed-up report is tried: everybody else's, and the earlier ones. */
  function InFlightBefore(s: Store, u: nat, earlier: seq<Ref>, tenant: nat): set<Ref> {
    set q | q in s && q.table == ReportRequests && InFlight(s[q], tenant) && (!OwnedBy(s, u, q) || q in earlier)
  }

  predicate ReportFits(s: Store, u: nat, rows: seq<Ref>, i: nat)
    requires i < |rows|
  {
    rows[i] in s && TenantId in s[rows[i]] ==>
      |InFlightBefore(s, u, rows[..i], s[rows[i]][TenantId])| < MAX_IN_FLIGHT
  }

  /** Every backed-up report, in the file's order, finds fewer than three in flight. */
  ghost predicate ReportsFit(s: Store, u: nat, order: Order) {
    var rows := order(SectionOf(s, Plan()[AT_REPORTS], u));
    forall i :: 0 <= i < |rows| ==> ReportFits(s, u, rows, i)
  }

  lemma ReportsSoFar(s: Store, t: Store, u: nat, rows: seq<Ref>, i: nat, tenant: nat)
    requires HalfRestored(s, t, u, AT_REPORTS + 1) && i < |rows|
    requires Lists(rows, SectionOf(s, Plan()[AT_REPORTS], u).Keys)
    ensures InFlightRows(t + Put(SectionOf(s, Plan()[AT_REPORTS], u), InBefore(t, rows, i)), tenant)
         == InFlightBefore(s, u, rows[..i], tenant)
  {
    hide Plan, Hit, HalfRestored, OwnedBy, SameKeys, InFlight;
    var section := SectionOf(s, Plan()[AT_REPORTS], u);
    var now := t + Put(section, InBefore(t, rows, i));
    forall q: Ref | q.table == ReportRequests
      ensures q in now <==> q in s && (!OwnedBy(s, u, q) || q in rows[..i])
      ensures q in now ==> InFlight(now[q], tenant) == InFlight(s[q], tenant)
    {
      BackAt(s, u, AT_REPORTS, q);
      OtherReport(s, t, u, q);
      assert q in rows[..i] ==> q in rows;
      if q in section {
        HitTable(s, u, AT_REPORTS, q);
      }
      if q in now {
        InsertableKeys(s[q]);
        SameInFlight(s[q], now[q], tenant);
      }
    }
  }

  /** Before their section, exactly the other people's reports are there. */
  lemma OtherReport(s: Store, t: Store, u: nat, q: Ref)
    requires HalfRestored(s, t, u, AT_REPORTS + 1) && q.table == ReportRequests
    ensures q in t <==> q in s && !OwnedBy(s, u, q)
    ensures q in t ==> SameKeys(s[q], t[q])
  {
    hide OwnedBy, SameKeys, RowBack;
  }

  lemma FullIff(s: Store, t: Store, u: nat, n: nat, order: Order)
    requires n < STEPS && HalfRestored(s, t, u, n + 1) && IsOrder(order)
    ensures var section := SectionOf(s, Plan()[n], u);
            var rows := order(section);
            (exists i :: 0 <= i < |rows| && !RoomAt(t, section, rows, i))
            <==> n == AT_REPORTS && !ReportsFit(s, u, order)
  {
    hide Plan, Hit, HalfRestored, OwnedBy, InFlightBefore, InFlightRows, Put, InBefore;
    var section := SectionOf(s, Plan()[n], u);
    var rows := order(section);
    assert Lists(rows, section.Keys);
    forall i | 0 <= i < |rows|
      ensures RoomAt(t, section, rows, i) <==> (n == AT_REPORTS ==> ReportFits(s, u, rows, i))
    {
      assert rows[i] in rows;
      HitTable(s, u, n, rows[i]);
      if n == AT_REPORTS && TenantId in s[rows[i]] {
        ReportsSoFar(s, t, u, rows, i, s[rows[i]][TenantId]);
      }
      OnlyReports(rows[i].table, n);
    }
  }

  lemma OnlyReports(t: Table, n: nat)
    requires StepOf(t) == Some(n)
    ensures t == ReportRequests <==> n == AT_REPORTS
  {
  }

  // --------------------------------------------------------------- one section

  /** Why a section aborts. */
  ghost predicate SectionRefused(s: Store, u: nat, order: Order, n: nat) {
    SectionStranded(s, u, n) || SectionBarred(s, u, n) || (n == AT_REPORTS && !ReportsFit(s, u, order))
  }

  lemma SectionRestores(s: Store, t: Store, u: nat, n: nat, order: Order)
    requires ParentsExist(Edges(), s) && n < STEPS && HalfRestored(s, t, u, n + 1) && IsOrder(order)
    requires !SectionRefused(s, u, order, n)
    ensures var section := SectionOf(s, Plan()[n], u);
            var r := InsertSection(Edges(), t, section, order(section));
            r.Some? && HalfRestored(s, r.value.store, u, n) && r.value.inserted == |section|
  {
    hide Edges, Plan, Hit, SectionStranded, SectionBarred, ReportsFit, Anchored, ActorOk, RoomAt, BackBy, Insertable,
         SameKeys, ParentsExist, HalfRestored;
    var section := SectionOf(s, Plan()[n], u);
    SectionMissing(s, t, u, n);
    assert !Refuses(Edges(), t, section, order(section)) by {
      hide IsOrder, OwnedBy;
      SectionAnchored(s, t, u, n);
      BarredIff(s, t, u, n);
      FullIff(s, t, u, n, order);
    }
    hide Refuses, IsOrder, OwnedBy;
    InsertedRestores(s, t, u, n, section, t + Put(section, Missing(t, section)));
  }

  lemma InsertedRestores(s: Store, t: Store, u: nat, n: nat, section: Store, after: Store)
    requires HalfRestored(s, t, u, n + 1) && Missing(t, section) == section.Keys
    requires forall r :: r in section ==> r in s && section[r] == s[r]
    requires forall r :: BackBy(s, u, n, r) <==> BackBy(s, u, n + 1, r) || r in section
    requires forall r :: r in section ==> OwnedBy(s, u, r)
    requires after == t + Put(section, section.Keys)
    ensures HalfRestored(s, after, u, n)
  {
    hide OwnedBy, Insertable, SameKeys, NoticeOfOwnJob, TokenOfPerson, LeftOf;
    forall r | r in after
      ensures SameKeys(s[r], after[r]) && after[r] == RowBack(s, u, r)
    {
      if r in section {
        InsertableKeys(s[r]);
      }
    }
  }

  lemma StrandedFails(s: Store, t: Store, u: nat, n: nat)
    requires ParentsUnique(Edges(), s) && n < STEPS && HalfRestored(s, t, u, n + 1) && SectionStranded(s, u, n)
    ensures var section := SectionOf(s, Plan()[n], u);
            exists r :: r in Missing(t, section) && !Anchored(Edges(), t, r.table, Insertable(section[r]))
  {
    hide Edges, Plan, Hit, Anchored, OwnedBy, Insertable, SameKeys, NoticeOfOwnJob, TokenOfPerson, Names;
    var e, r, p :| e in Edges() && Strands(s, u, e, r, p) && StepOf(r.table) == Some(n);
    StrandedIsNotAnchored(s, t, u, n, e, r, p);
    BackAt(s, u, n, r);
    assert r in Missing(t, SectionOf(s, Plan()[n], u));
  }

  lemma SectionFails(s: Store, t: Store, u: nat, n: nat, order: Order)
    requires ParentsUnique(Edges(), s) && n < STEPS && HalfRestored(s, t, u, n + 1) && IsOrder(order)
    requires SectionRefused(s, u, order, n)
    ensures var section := SectionOf(s, Plan()[n], u);
            InsertSection(Edges(), t, section, order(section)).None?
  {
    hide Edges, Plan, Hit, Anchored, ActorOk, RoomAt, Missing, Insertable, SectionStranded, SectionBarred, ReportsFit,
         ParentsUnique, HalfRestored;
    BarredIff(s, t, u, n);
    FullIff(s, t, u, n, order);
    if SectionStranded(s, u, n) {
      StrandedFails(s, t, u, n);
    }
  }

  // ------------------------------------------------------------- whole restore

  /** Some backed-up row comes back before a backed-up row it names. */
  ghost predicate Stranded(s: Store, u: nat) {
    exists e, r, p :: e in Edges() && Strands(s, u, e, r, p)
  }

  lemma BackupSnoc(s: Store, u: nat, n: nat)
    requires n < STEPS
    ensures var section := SectionOf(s, Plan()[n], u);
            Backup(s, Plan(), u, n + 1) == Backup(s, Plan(), u, n) + if |section| > 0 then [section] else []
  {
  }

  lemma RestoreSnoc(edges: seq<Edge>, t: Store, sections: seq<Store>, section: Store, order: Order)
    ensures InsertSections(edges, t, sections + [section], order)
         == var one := InsertSection(edges, t, section, order(section));
            if one.None? then None
            else
              var rest := InsertSections(edges, one.value.store, sections, order);
              if rest.None? then None
              else Some(Restored(rest.value.store, one.value.inserted + rest.value.inserted))
  {
    hide InsertSection;
    assert (sections + [section])[..|sections|] == sections;
  }

  lemma EmptySection(s: Store, t: Store, u: nat, n: nat, order: Order)
    requires n < STEPS && HalfRestored(s, t, u, n + 1) && |SectionOf(s, Plan()[n], u)| == 0 && IsOrder(order)
    ensures HalfRestored(s, t, u, n) && !SectionRefused(s, u, order, n)
  {
    hide Edges, Plan, Hit, OwnedBy, NoticeOfOwnJob, TokenOfPerson, SameKeys, Names, ActorOk, RowBack, StepOf;
    SectionMissing(s, t, u, n);
    var section := SectionOf(s, Plan()[n], u);
    assert section.Keys == Hit(s, Plan()[n], u);
    forall r
      ensures !(OwnedBy(s, u, r) && StepOf(r.table) == Some(n))
    {
      BackAt(s, u, n, r);
    }
    ListedBy(order, section);
    hide IsOrder;
  }

  lemma {:induction false} RestoreGoesThrough(s: Store, t: Store, u: nat, n: nat, order: Order)
    requires ParentsExist(Edges(), s) && n <= STEPS && HalfRestored(s, t, u, n) && IsOrder(order)
    requires forall m :: 0 <= m < n ==> !SectionRefused(s, u, order, m)
    ensures var sections := Backup(s, Plan(), u, n);
            var r := InsertSections(Edges(), t, sections, order);
            r.Some? && HalfRestored(s, r.value.store, u, 0) && r.value.inserted == Total(sections)
    decreases n
  {
    hide Edges, Plan, Hit, HalfRestored, ParentsExist, SectionOf, InsertSection, SectionRefused, InsertSections, Backup,
         IsOrder;
    if n == 0 {
      NothingToRestore(s, t, u, order);
    } else {
      var section, sections := SectionOf(s, Plan()[n - 1], u), Backup(s, Plan(), u, n - 1);
      BackupSnoc(s, u, n - 1);
      if |section| > 0 {
        SectionRestores(s, t, u, n - 1, order);
        RestoreGoesThrough(s, InsertSection(Edges(), t, section, order(section)).value.store, u, n - 1, order);
        RestoreSnoc(Edges(), t, sections, section, order);
        assert (sections + [section])[..|sections|] == sections;
      } else {
        EmptySection(s, t, u, n - 1, order);
        RestoreGoesThrough(s, t, u, n - 1, order);
        assert sections + [] == sections;
      }
    }
  }

  lemma NothingToRestore(s: Store, t: Store, u: nat, order: Order)
    ensures var sections := Backup(s, Plan(), u, 0);
            InsertSections(Edges(), t, sections, order) == Some(Restored(t, 0)) && Total(sections) == 0
  {
  }

  lemma {:induction false} RestoreAborts(s: Store, t: Store, u: nat, n: nat, order: Order, m: nat)
    requires ParentsExist(Edges(), s) && ParentsUnique(Edges(), s) && IsOrder(order)
    requires m < n <= STEPS && HalfRestored(s, t, u, n) && SectionRefused(s, u, order, m)
    ensures InsertSections(Edges(), t, Backup(s, Plan(), u, n), order).None?
    decreases n
  {
    hide Edges, Plan, Hit, HalfRestored, ParentsExist, ParentsUnique, SectionOf, InsertSection, SectionRefused,
         InsertSections, Backup, IsOrder;
    var section, sections := SectionOf(s, Plan()[n - 1], u), Backup(s, Plan(), u, n - 1);
    BackupSnoc(s, u, n - 1);
    if |section| == 0 {
      EmptySection(s, t, u, n - 1, order);
      assert sections + [] == sections;
      RestoreAborts(s, t, u, n - 1, order, m);
    } else {
      RestoreSnoc(Edges(), t, sections, section, order);
      if SectionRefused(s, u, order, n - 1) {
        SectionFails(s, t, u, n - 1, order);
      } else {
        SectionRestores(s, t, u, n - 1, order);
        RestoreAborts(s, InsertSection(Edges(), t, section, order(section)).value.store, u, n - 1, order, m);
      }
    }
  }

  lemma LeftKeys(s: Store, u: nat, r: Ref)
    requires r in s
    ensures SameKeys(s[r], LeftOf(s, u, r))
  {
  }

  lemma PurgedIsHalfRestored(s: Store, u: nat)
    requires RunDeletes(Edges(), s, Plan(), u, STEPS).Some?
    ensures HalfRestored(s, RunDeletes(Edges(), s, Plan(), u, STEPS).value.store, u, STEPS)
  {
    hide Edges, Plan, RunDeletes, OwnedBy, NoticeOfOwnJob, TokenOfPerson, LeftOf, SameKeys;
    var t := RunDeletes(Edges(), s, Plan(), u, STEPS).value.store;
    PurgeLeaves(s, u);
    forall r
      ensures r in t <==> BackBy(s, u, STEPS, r)
      ensures r in t ==> SameKeys(s[r], t[r]) && t[r] == RowBack(s, u, r)
    {
      StepsEnd(r.table);
      BackAt(s, u, 0, r);
      if r in t {
        LeftKeys(s, u, r);
      }
    }
  }

  lemma StepsEnd(t: Table)
    ensures StepOf(t).Some? ==> StepOf(t).value < STEPS
  {
  }

  lemma StrandedSection(s: Store, u: nat)
    ensures Stranded(s, u) <==> exists m :: 0 <= m < STEPS && SectionStranded(s, u, m)
  {
    hide Edges, Names, OwnedBy;
    if Stranded(s, u) {
      var e, r, p :| e in Edges() && Strands(s, u, e, r, p);
      BackAt(s, u, 0, r);
      StepsEnd(r.table);
      assert SectionStranded(s, u, StepOf(r.table).value);
    }
  }

  /** The two ways a backed-up row can come back before its parent. */
  lemma StrandsOnlyTwoWays(s: Store, u: nat, e: Edge, r: Ref, p: Ref)
    requires e in Edges() && Strands(s, u, e, r, p)
    ensures e == NOTICE_OF_JOB || e == PHOTO_OF_UPLOAD
  {
    hide Edges, Holds, OwnedBy, ChildFirst, Explained, FewKeys;
    EdgesSane(e);
    BackAt(s, u, 0, r);
    BackAt(s, u, 0, p);
    if e.rule == Restrict {
      StepsInOrder(e.child, e.parent);
    }
  }

  /** A notification of the person about one of their own jobs: the job comes back after it. */
  lemma OwnNoticeStrands(s: Store, u: nat, r: Ref)
    requires OwnedBy(s, u, r) && NoticeOfOwnJob(s, u, r)
    ensures Stranded(s, u)
  {
    hide Edges, Plan;
    SilentKeys();
    var p :| p in s && p.table == Jobs && Holds(s, Is(TechnicianId), s[p], u) && Id in s[p] && s[p][Id] == s[r][JobId];
    JobIsOwned(s, u, p);
    assert Strands(s, u, NOTICE_OF_JOB, r, p);
  }

  lemma JobIsOwned(s: Store, u: nat, p: Ref)
    requires p in s && p.table == Jobs
    ensures Holds(s, Is(TechnicianId), s[p], u) <==> OwnedBy(s, u, p)
  {
  }

  /** The person's photos that name an upload of theirs, and notifications about their own jobs. */
  ghost predicate NamesAhead(s: Store, u: nat) {
    || (exists r :: OwnedBy(s, u, r) && NoticeOfOwnJob(s, u, r))
    || (exists r, p :: OwnedBy(s, u, r) && OwnedBy(s, u, p) && Names(PHOTO_OF_UPLOAD, s, r, p))
  }

  lemma StrandedIff(s: Store, u: nat)
    ensures Stranded(s, u) <==> NamesAhead(s, u)
  {
    hide Edges, Plan, OwnedBy, Holds;
    SilentKeys();
    if Stranded(s, u) {
      var e, r, p :| e in Edges() && Strands(s, u, e, r, p);
      StrandsOnlyTwoWays(s, u, e, r, p);
      if e == NOTICE_OF_JOB {
        JobIsOwned(s, u, p);
        NamesOwnJob(s, u, e, r, p);
        assert NoticeOfOwnJob(s, u, r);
      }
    }
    forall r | OwnedBy(s, u, r) && NoticeOfOwnJob(s, u, r)
      ensures Stranded(s, u)
    {
      OwnNoticeStrands(s, u, r);
    }
    forall r, p | OwnedBy(s, u, r) && OwnedBy(s, u, p) && Names(PHOTO_OF_UPLOAD, s, r, p)
      ensures Stranded(s, u)
    {
      assert Strands(s, u, PHOTO_OF_UPLOAD, r, p);
    }
  }

  /** The store a completed purge leaves, and the backup taken before it. */
  function Purged(s: Store, u: nat): Store
    requires RunDeletes(Edges(), s, Plan(), u, STEPS).Some?
  {
    RunDeletes(Edges(), s, Plan(), u, STEPS).value.store
  }

  function PersonBackup(s: Store, u: nat): seq<Store> {
    Backup(s, Plan(), u, STEPS)
  }

  // ------------------------------------------------------------ the condition

  /** Every backed-up row has an actor that is unset, staff, or an active member of its company. */
  ghost predicate ActorsStand(s: Store, u: nat) {
    forall r :: !ActorGone(s, u, r)
  }

  /** The person has no enrolment or assignment, or the coverage trigger accepts theirs as they were. */
  ghost predicate CoverageStands(s: Store, u: nat, today: nat -> Date) {
    (exists r :: OwnedBy(s, u, r) && Watched(r.table)) ==> CoverageOk(s, u, today)
  }

  lemma RefusedIff(s: Store, u: nat, order: Order)
    ensures (exists m :: 0 <= m < STEPS && SectionRefused(s, u, order, m))
       <==> NamesAhead(s, u) || !ActorsStand(s, u) || !ReportsFit(s, u, order)
  {
    hide Edges, Plan, NamesAhead, ActorGone, ReportsFit, SectionStranded, StepOf;
    StrandedIff(s, u);
    StrandedSection(s, u);
    if !ReportsFit(s, u, order) {
      assert SectionRefused(s, u, order, AT_REPORTS);
    }
    if m :| 0 <= m < STEPS && SectionStranded(s, u, m) {
      assert SectionRefused(s, u, order, m);
    }
    forall r | ActorGone(s, u, r)
      ensures exists m :: 0 <= m < STEPS && SectionRefused(s, u, order, m)
    {
      GoneHasStep(s, u, r);
      assert SectionRefused(s, u, order, StepOf(r.table).value);
    }
  }

  lemma GoneHasStep(s: Store, u: nat, r: Ref)
    requires ActorGone(s, u, r)
    ensures StepOf(r.table).Some? && StepOf(r.table).value < STEPS
  {
    hide StepOf, Plan;
  }

  /** The rows a restore inserted are exactly the person's. */
  lemma InsertedIsOwned(s: Store, u: nat, back: Store, r: Ref)
    requires RunDeletes(Edges(), s, Plan(), u, STEPS).Some? && HalfRestored(s, back, u, 0)
    ensures r in back && r !in Purged(s, u) <==> OwnedBy(s, u, r)
    ensures OwnedBy(s, u, r) ==> r in s && r in back && back[r] == Insertable(s[r])
  {
    hide Edges, Plan, RunDeletes, OwnedBy, NoticeOfOwnJob, TokenOfPerson, SameKeys, Insertable, StepOf;
    PurgedIsHalfRestored(s, u);
    if OwnedBy(s, u, r) {
      OwnedHasStep(s, u, r);
    }
  }

  lemma WatchedIsOfPerson(s: Store, u: nat, r: Ref)
    requires OwnedBy(s, u, r) && Watched(r.table)
    ensures r in s && Has(s[r], EmployeeId, u) && Has(Insertable(s[r]), EmployeeId, u)
  {
    hide Plan, OwnedBy;
    OwnedIs(s, u, r);
  }

  lemma SameCoverageBack(s: Store, u: nat, back: Store)
    requires HalfRestored(s, back, u, 0)
    ensures SameCoverage(s, back)
  {
    hide HalfRestored, SameRows;
    TableIsBack(s, back, u, 0, AttendanceEnrolments);
    TableIsBack(s, back, u, 0, AttendanceOfficeAssignments);
    TableIsBack(s, back, u, 0, AttendanceOffices);
    TableIsBack(s, back, u, 0, Memberships);
  }

  /** The deferred trigger sees the person's rows as they were. */
  lemma CommitsIff(s: Store, u: nat, back: Store, today: nat -> Date)
    requires RunDeletes(Edges(), s, Plan(), u, STEPS).Some? && HalfRestored(s, back, u, 0)
    ensures Commits(Purged(s, u), back, today) <==> CoverageStands(s, u, today)
  {
    hide Edges, Plan, RunDeletes, Purged, OwnedBy, HalfRestored, CoverageOk, Insertable, SameCoverage, Watched;
    SameCoverageBack(s, u, back);
    CoverageReads(s, back, u, today);
    forall r
      ensures r in back && r !in Purged(s, u) <==> OwnedBy(s, u, r)
      ensures OwnedBy(s, u, r) && Watched(r.table) ==> r in back && Has(back[r], EmployeeId, u)
    {
      InsertedIsOwned(s, u, back, r);
      if OwnedBy(s, u, r) && Watched(r.table) {
        WatchedIsOfPerson(s, u, r);
      }
    }
  }

  /** The purge itself passes the deferred trigger: it leaves no enrolment and no assignment of the person. */
  lemma PurgeCommits(s: Store, u: nat, today: nat -> Date)
    ensures CoverageOk(AfterPurge(s, u), u, today)
  {
    hide Plan, OwnedBy, NoticeOfOwnJob, TokenOfPerson, CurrentOrFuture, Live;
    var t := AfterPurge(s, u);
    forall r | r in t && Watched(r.table)
      ensures !Has(t[r], EmployeeId, u)
    {
      OwnedIs(s, u, r);
    }
    assert RowsOf(t, AttendanceEnrolments, u) == {} && RowsOf(t, AttendanceOfficeAssignments, u) == {};
    NoIds(t, AttendanceEnrolments, u);
    NoIds(t, AttendanceOfficeAssignments, u);
  }

  lemma NoIds(t: Store, table: Table, v: nat)
    requires RowsOf(t, table, v) == {}
    ensures IdsOf(t, table, v) == []
  {
    hide Has;
    assert (set r | r in RowsOf(t, table, v) :: r.row) == {};
  }

  /** When a backup can be restored right after the purge. */
  ghost predicate Restorable(s: Store, u: nat, order: Order, today: nat -> Date) {
    && !NamesAhead(s, u) && ActorsStand(s, u) && ReportsFit(s, u, order) && CoverageStands(s, u, today)
  }

  /**
   * Restoring right after a purge goes through exactly when
   * - no backed-up notification is about a backed-up job and no backed-up photo names a backed-up
   *   upload: jobs are inserted after the notifications, and uploads after the photos;
   * - every backed-up leave request, leave event, override and correction was made by nobody, by
   *   staff, or by a still active member of its company;
   * - every backed-up report, in the file's order, finds fewer than three in flight; and
   * - the person's enrolments, if any, still pass the coverage trigger.
   * Anything else aborts the whole restore.
   */
  lemma RestoreCompletesIff(s: Store, u: nat, order: Order, today: nat -> Date)
    requires ParentsExist(Edges(), s) && ParentsUnique(Edges(), s) && IsOrder(order)
    requires RunDeletes(Edges(), s, Plan(), u, STEPS).Some?
    ensures RestoreRows(Edges(), Purged(s, u), PersonBackup(s, u), order, today).Some?
       <==> Restorable(s, u, order, today)
  {
    hide Edges, Plan, RunDeletes, InsertSections, HalfRestored, ParentsExist, ParentsUnique, SectionRefused, NamesAhead,
         ActorsStand, ReportsFit, CoverageStands, Backup, Commits, IsOrder;
    PurgedIsHalfRestored(s, u);
    RefusedIff(s, u, order);
    if m :| 0 <= m < STEPS && SectionRefused(s, u, order, m) {
      RestoreAborts(s, Purged(s, u), u, STEPS, order, m);
    } else {
      RestoreGoesThrough(s, Purged(s, u), u, STEPS, order);
      CommitsIff(s, u, InsertSections(Edges(), Purged(s, u), PersonBackup(s, u), order).value.store, today);
    }
  }

  /** Everything a round trip gives back: the person's rows, and what the purge left of the others. */
  ghost function GivenBack(s: Store, u: nat): Store {
    map r | r in s && (OwnedBy(s, u, r) || Survives(s, u, r)) :: RowBack(s, u, r)
  }

  ghost predicate OfPerson(s: Store, u: nat, section: Store) {
    forall r :: r in section ==> r in s && section[r] == s[r] && OwnedBy(s, u, r)
  }

  /** The sections hold exactly the person's rows. */
  lemma {:induction false} BackupHolds(s: Store, u: nat, n: nat)
    requires n <= STEPS
    ensures var sections := Backup(s, Plan(), u, n);
            && (forall section :: section in sections ==> OfPerson(s, u, section))
            && forall r :: OwnedBy(s, u, r) && StepOf(r.table).Some? && StepOf(r.table).value < n ==>
                 exists section :: section in sections && r in section
  {
    hide Plan, Hit, OwnedBy, StepOf;
    if n > 0 {
      hide Backup;
      BackupHolds(s, u, n - 1);
      BackupSnoc(s, u, n - 1);
      var section, before := SectionOf(s, Plan()[n - 1], u), Backup(s, Plan(), u, n - 1);
      forall r
        ensures r in section <==> OwnedBy(s, u, r) && StepOf(r.table) == Some(n - 1)
      {
        HitIff(s, u, n - 1, r);
      }
      assert OfPerson(s, u, section);
      forall r | OwnedBy(s, u, r) && StepOf(r.table).Some? && StepOf(r.table).value < n
        ensures exists section :: section in Backup(s, Plan(), u, n) && r in section
      {
        if r in section {
          assert |section| > 0;
          assert section in Backup(s, Plan(), u, n);
        } else {
          var q :| q in before && r in q;
          assert q in Backup(s, Plan(), u, n);
        }
      }
    }
  }

  /** The new row has the old one's columns but the generated sequence, each with its old value. */
  ghost predicate SameButSequence(was: Row, now: Row) {
    (forall c :: c in now <==> c in was && c != Sequence) && forall c :: c in now ==> now[c] == was[c]
  }

  /** Every backed-up row is back, column by column, and whatever else was there is as it was. */
  ghost predicate BackAgain(before: Store, sections: seq<Store>, after: Store) {
    && (forall r :: r in after <==> r in before || exists section :: section in sections && r in section)
    && (forall r :: r in before ==> after[r] == before[r])
    && forall section, r :: section in sections && r in section ==> r !in before && SameButSequence(section[r], after[r])
  }

  lemma InsertedRow(x: Row)
    ensures SameButSequence(x, Insertable(x))
  {
  }

  /** The rows of the backup file are the person's, with their values. */
  lemma BackedUpIsOwned(s: Store, u: nat)
    ensures forall section, r :: section in PersonBackup(s, u) && r in section ==>
              OwnedBy(s, u, r) && r in s && section[r] == s[r]
    ensures forall r :: OwnedBy(s, u, r) ==> exists section :: section in PersonBackup(s, u) && r in section
  {
    hide Plan, Backup, OwnedBy, StepOf;
    BackupHolds(s, u, STEPS);
    forall section | section in PersonBackup(s, u)
      ensures OfPerson(s, u, section)
    {
    }
    forall r | OwnedBy(s, u, r)
      ensures exists section :: section in PersonBackup(s, u) && r in section
    {
      OwnedHasStep(s, u, r);
    }
  }

  lemma OwnedIsBack(s: Store, u: nat, r: Ref)
    requires OwnedBy(s, u, r)
    ensures r in s && r in GivenBack(s, u) && r !in AfterPurge(s, u) && SameButSequence(s[r], GivenBack(s, u)[r])
  {
    hide Plan, OwnedBy, NoticeOfOwnJob, TokenOfPerson, Insertable, LeftOf, StepOf;
    OwnedHasStep(s, u, r);
    InsertedRow(s[r]);
  }

  lemma SurvivorIsBack(s: Store, u: nat, r: Ref)
    ensures r in AfterPurge(s, u) ==> r in GivenBack(s, u) && GivenBack(s, u)[r] == AfterPurge(s, u)[r]
    ensures r in GivenBack(s, u) ==> OwnedBy(s, u, r) || r in AfterPurge(s, u)
  {
    hide Plan, OwnedBy, NoticeOfOwnJob, TokenOfPerson, Insertable, LeftOf, StepOf;
  }

  /** What a round trip gives back, read off the purged store and the backup file. */
  lemma GivenBackIs(s: Store, u: nat)
    ensures BackAgain(AfterPurge(s, u), PersonBackup(s, u), GivenBack(s, u))
    ensures forall section, r :: section in PersonBackup(s, u) && r in section ==> r in s && section[r] == s[r]
  {
    hide AfterPurge, GivenBack, PersonBackup, OwnedBy, SameButSequence;
    BackedUpIsOwned(s, u);
    forall r
      ensures OwnedBy(s, u, r) ==>
                r in s && r in GivenBack(s, u) && r !in AfterPurge(s, u) && SameButSequence(s[r], GivenBack(s, u)[r])
      ensures r in AfterPurge(s, u) ==> r in GivenBack(s, u) && GivenBack(s, u)[r] == AfterPurge(s, u)[r]
      ensures r in GivenBack(s, u) ==> OwnedBy(s, u, r) || r in AfterPurge(s, u)
    {
      SurvivorIsBack(s, u, r);
      if OwnedBy(s, u, r) {
        OwnedIsBack(s, u, r);
      }
    }
  }

  /**
   * The round trip: a restore that goes through inserts every backed-up row and gives the first
   * store back exactly, but for the generated columns of the restored rows, the cleared links of the
   * others to the person, and what the purge took along unsaved - the notifications others had about
   * the person's jobs, and the person's device tokens.
   */
  lemma RoundTrip(s: Store, u: nat, order: Order, today: nat -> Date)
    requires ParentsExist(Edges(), s) && IsOrder(order)
    requires RunDeletes(Edges(), s, Plan(), u, STEPS).Some? && Restorable(s, u, order, today)
    ensures RestoreRows(Edges(), Purged(s, u), PersonBackup(s, u), order, today)
         == Some(Restored(GivenBack(s, u), Total(PersonBackup(s, u))))
    ensures BackAgain(Purged(s, u), PersonBackup(s, u), GivenBack(s, u))
    ensures forall section, r :: section in PersonBackup(s, u) && r in section ==> r in s && section[r] == s[r]
  {
    hide Edges, Plan, RunDeletes, InsertSections, ParentsExist, SectionRefused, NamesAhead, ActorsStand, ReportsFit,
         CoverageStands, Backup, OwnedBy, NoticeOfOwnJob, TokenOfPerson, SameKeys, RowBack, Commits, IsOrder, BackAgain,
         GivenBack, AfterPurge;
    PurgedIsHalfRestored(s, u);
    RefusedIff(s, u, order);
    RestoreGoesThrough(s, Purged(s, u), u, STEPS, order);
    var back := InsertSections(Edges(), Purged(s, u), PersonBackup(s, u), order).value.store;
    CommitsIff(s, u, back, today);
    BackIsGivenBack(s, u, back);
    PurgeLeaves(s, u);
    GivenBackIs(s, u);
  }

  lemma BackIsGivenBack(s: Store, u: nat, back: Store)
    requires HalfRestored(s, back, u, 0)
    ensures back == GivenBack(s, u)
  {
    hide Plan, OwnedBy, NoticeOfOwnJob, TokenOfPerson, SameKeys, RowBack;
    forall r
      ensures r in back <==> r in GivenBack(s, u)
    {
      BackAt(s, u, 0, r);
    }
  }
}
