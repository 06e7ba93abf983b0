// Restoring a backup a second time, and how far the order of the reports in the file matters.

module SecondRestore {
  import opened Basics
  import opened Relational
  import opened Purge
  import opened PersonPurge
  import opened PurgeTheorems
  import opened Guards
  import opened GuardReads
  import opened Restore

  /** All its reports counted, the company of every backed-up report has fewer than three in flight. */
  ghost predicate ReportsHaveRoom(s: Store, u: nat) {
    forall r :: r in s && OwnedBy(s, u, r) ==> RoomFor(s, r.table, s[r])
  }

  /** The triggers accept every row of a section whose rows are all there. */
  ghost predicate TriggersPass(t: Store, section: Store) {
    forall r :: r in section ==>
      ActorOk(t, r.table, Insertable(section[r])) && RoomFor(t, r.table, Insertable(section[r]))
  }

  lemma NothingToInsert(edges: seq<Edge>, t: Store, section: Store, rows: seq<Ref>)
    requires section.Keys <= t.Keys && Lists(rows, section.Keys)
    ensures InsertSection(edges, t, section, rows) == if TriggersPass(t, section) then Some(Restored(t, 0)) else None
  {
    hide Anchored, Insertable, ActorOk, RoomFor;
    assert Missing(t, section) == {};
    NothingPut(t, section);
    forall i | 0 <= i < |rows|
      ensures RoomAt(t, section, rows, i) == RoomFor(t, rows[i].table, Insertable(section[rows[i]]))
    {
      assert InBefore(t, rows, i) == {} by {
        assert forall j :: 0 <= j < i ==> rows[j] in t;
      }
    }
  }

  lemma NothingPut(t: Store, section: Store)
    ensures t + Put(section, {}) == t
  {
    assert Put(section, {}).Keys == {};
  }

  lemma {:induction false} NothingMissing(edges: seq<Edge>, t: Store, sections: seq<Store>, order: Order)
    requires IsOrder(order) && forall section :: section in sections ==> section.Keys <= t.Keys
    ensures InsertSections(edges, t, sections, order)
         == if forall section :: section in sections ==> TriggersPass(t, section) then Some(Restored(t, 0)) else None
    decreases |sections|
  {
    hide InsertSection, TriggersPass;
    if sections != [] {
      var n := |sections| - 1;
      NothingToInsert(edges, t, sections[n], order(sections[n]));
      NothingMissing(edges, t, sections[..n], order);
      assert sections == sections[..n] + [sections[n]];
    }
  }

  /** With everything back, the triggers judge the person's rows as on the first store. */
  lemma JudgedAlike(s: Store, u: nat, back: Store, r: Ref)
    requires HalfRestored(s, back, u, 0) && r in s
    ensures ActorOk(back, r.table, Insertable(s[r])) == ActorOk(s, r.table, s[r])
    ensures RoomFor(back, r.table, Insertable(s[r])) == RoomFor(s, r.table, s[r])
  {
    hide HalfRestored, ActorOk, SameRows, InFlightRows;
    TableIsBack(s, back, u, 0, Users);
    TableIsBack(s, back, u, 0, Memberships);
    TableIsBack(s, back, u, 0, ReportRequests);
    ActorReads(s, back, r.table, s[r]);
    if TenantId in s[r] {
      InFlightReads(s, back, s[r][TenantId]);
    }
  }

  lemma AllThere(s: Store, u: nat, back: Store)
    requires HalfRestored(s, back, u, 0)
    ensures forall section :: section in PersonBackup(s, u) ==> section.Keys <= back.Keys
  {
    hide Plan, Backup, OwnedBy, StepOf, SameKeys, RowBack;
    BackupHolds(s, u, STEPS);
    forall r | OwnedBy(s, u, r)
      ensures r in back
    {
      OwnedHasStep(s, u, r);
    }
    forall section | section in PersonBackup(s, u)
      ensures section.Keys <= back.Keys
    {
      assert OfPerson(s, u, section);
    }
  }

  lemma TriggersPassIff(s: Store, u: nat, back: Store)
    requires HalfRestored(s, back, u, 0) && ActorsStand(s, u)
    ensures (forall section :: section in PersonBackup(s, u) ==> TriggersPass(back, section)) <==> ReportsHaveRoom(s, u)
  {
    hide Plan, Backup, OwnedBy, ActorOk, RoomFor, Insertable, StepOf, HalfRestored;
    BackupHolds(s, u, STEPS);
    var sections := PersonBackup(s, u);
    forall r | r in s && OwnedBy(s, u, r)
      ensures ActorOk(back, r.table, Insertable(s[r]))
      ensures RoomFor(back, r.table, Insertable(s[r])) == RoomFor(s, r.table, s[r])
    {
      JudgedAlike(s, u, back, r);
      assert !ActorGone(s, u, r);
    }
    if forall section :: section in sections ==> TriggersPass(back, section) {
      forall r | r in s && OwnedBy(s, u, r)
        ensures RoomFor(s, r.table, s[r])
      {
        OwnedHasStep(s, u, r);
        var section :| section in sections && r in section;
        assert TriggersPass(back, section);
      }
    } else {
      var section :| section in sections && !TriggersPass(back, section);
      assert OfPerson(s, u, section);
    }
  }

  /**
   * A second restore inserts nothing and changes nothing - unless a company of a backed-up report has
   * three in flight by then: the trigger counts before it is known that the row exists, and the
   * second restore aborts.
   */
  lemma SecondRestoreIff(s: Store, u: nat, order: Order, today: nat -> Date, back: Restored)
    requires ParentsExist(Edges(), s) && ParentsUnique(Edges(), s) && IsOrder(order)
    requires RunDeletes(Edges(), s, Plan(), u, STEPS).Some?
    requires RestoreRows(Edges(), Purged(s, u), PersonBackup(s, u), order, today) == Some(back)
    ensures RestoreRows(Edges(), back.store, PersonBackup(s, u), order, today)
         == if ReportsHaveRoom(s, u) then Some(Restored(back.store, 0)) else None
  {
    hide Edges, Plan, RunDeletes, InsertSections, ParentsExist, ParentsUnique, NamesAhead, Backup, HalfRestored,
         ReportsHaveRoom, ActorsStand, ReportsFit, CoverageStands, SectionRefused, TriggersPass, IsOrder;
    RestoreCompletesIff(s, u, order, today);
    RoundTrip(s, u, order, today);
    RefusedIff(s, u, order);
    PurgedIsHalfRestored(s, u);
    RestoreGoesThrough(s, Purged(s, u), u, STEPS, order);
    AllThere(s, u, back.store);
    TriggersPassIff(s, u, back.store);
    NothingMissing(Edges(), back.store, PersonBackup(s, u), order);
  }

  /**
   * The order of the file matters only in between: with room for all the company's reports every
   * order fits, and no order does once others alone have three in flight.
   */
  lemma OrderMattersBetween(s: Store, u: nat, order: Order, r: Ref)
    requires IsOrder(order) && r in s && OwnedBy(s, u, r) && r.table == ReportRequests && TenantId in s[r]
    ensures ReportsHaveRoom(s, u) ==> ReportsFit(s, u, order)
    ensures ReportsFit(s, u, order) ==> |InFlightBefore(s, u, [], s[r][TenantId])| < MAX_IN_FLIGHT
  {
    hide Plan, Hit, OwnedBy, InFlight, IsOrder;
    var section := SectionOf(s, Plan()[AT_REPORTS], u);
    var rows := order(section);
    assert Lists(rows, section.Keys) by {
      ListedBy(order, section);
    }
    BackAt(s, u, AT_REPORTS, r);
    assert r in section && r in rows;
    var k :| 0 <= k < |rows| && rows[k] == r;
    assert ReportsFit(s, u, order) ==> ReportFits(s, u, rows, k);
    FewerInFlight(s, u, [], rows[..k], s[r][TenantId]);
    if ReportsHaveRoom(s, u) {
      forall i | 0 <= i < |rows|
        ensures ReportFits(s, u, rows, i)
      {
        assert rows[i] in section;
        HitTable(s, u, AT_REPORTS, rows[i]);
        OnlyReports(rows[i].table, AT_REPORTS);
        if TenantId in s[rows[i]] {
          SubsetSize(InFlightBefore(s, u, rows[..i], s[rows[i]][TenantId]), InFlightRows(s, s[rows[i]][TenantId]));
        }
      }
    }
  }

  lemma FewerInFlight(s: Store, u: nat, some: seq<Ref>, more: seq<Ref>, tenant: nat)
    requires forall q :: q in some ==> q in more
    ensures |InFlightBefore(s, u, some, tenant)| <= |InFlightBefore(s, u, more, tenant)|
  {
    hide OwnedBy, InFlight;
    SubsetSize(InFlightBefore(s, u, some, tenant), InFlightBefore(s, u, more, tenant));
  }
}
