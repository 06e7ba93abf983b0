// Databases on which the round trip fails at a trigger: a former member's leave, an office archived
// since, and, the second time, three queued reports.

module GuardExample {
  import opened Basics
  import Periods
  import opened Relational
  import opened Purge
  import opened PersonPurge
  import opened PurgeTheorems
  import opened Guards
  import opened GuardReads
  import opened Restore
  import opened SecondRestore
  import Lifecycle

  // ------------------------------------------------------- the keys they meet

  /** Every key of the tables used below. */
  predicate KeyIsOne(e: Edge) {
    match e.child
    case LeaveRequests => e == One(LeaveRequests, CreatedBy, Users, Restrict) || e == OfEmployee(LeaveRequests)
    case ReportRequests => e == One(ReportRequests, RequestedBy, Users, Restrict)
    case AttendanceEnrolments => e == OfEmployee(AttendanceEnrolments)
    case AttendanceOfficeAssignments => e == OfEmployee(AttendanceOfficeAssignments) || e == LEG_AT_OFFICE
    case Memberships =>
      || e == One(Memberships, TenantId, Tenants, Restrict)
      || e == One(Memberships, UserId, Users, Restrict) || e == One(Memberships, InvitedBy, Users, Restrict)
    case Tenants => e == One(Tenants, CreatedBy, Users, Restrict)
    case AttendanceOffices => false
    case Users => false
    case _ => true
  }

  const LEG_AT_OFFICE := Two(AttendanceOfficeAssignments, OfficeId, TenantId, AttendanceOffices, Id, TenantId)

  lemma UserKeysAre(i: nat)
    requires i < |UserColumns()|
    ensures KeyIsOne(One(UserColumns()[i].0, UserColumns()[i].1, Users, Restrict))
  {
  }

  lemma EmployeeKeysAre(i: nat)
    requires i < |EmployeeTables()|
    ensures KeyIsOne(OfEmployee(EmployeeTables()[i]))
  {
  }

  lemma TenantKeysAre(i: nat)
    requires i < |TenantTables()|
    ensures KeyIsOne(One(TenantTables()[i], TenantId, Tenants, Restrict))
  {
  }

  lemma OtherKeysAre(i: nat)
    requires i < |OtherKeys()|
    ensures KeyIsOne(OtherKeys()[i])
  {
  }

  lemma SilentKeysAre(i: nat)
    requires i < |SilentEdges()|
    ensures KeyIsOne(SilentEdges()[i])
  {
  }

  lemma KeysAre(e: Edge)
    requires e in Edges()
    ensures KeyIsOne(e)
  {
    hide UserColumns, EmployeeTables, TenantTables, OtherKeys, SilentEdges;
    if e in ToUsers(UserColumns()) {
      var i: nat :| i < |UserColumns()| && e == ToUsers(UserColumns())[i];
      UserKeysAre(i);
    } else if e in ToMemberships(EmployeeTables()) {
      var i: nat :| i < |EmployeeTables()| && e == ToMemberships(EmployeeTables())[i];
      EmployeeKeysAre(i);
    } else if e in ToTenants(TenantTables()) {
      var i: nat :| i < |TenantTables()| && e == ToTenants(TenantTables())[i];
      TenantKeysAre(i);
    } else if e in OtherKeys() {
      var i: nat :| i < |OtherKeys()| && e == OtherKeys()[i];
      OtherKeysAre(i);
    } else if e in SilentEdges() {
      var i: nat :| i < |SilentEdges()| && e == SilentEdges()[i];
      SilentKeysAre(i);
    }
  }

  // ------------------------------------------------------------ a former member

  /** A person removed from their company, whose own leave request stays. */
  function FormerMember(): Store {
    map[Ref(Users, 0) := map[Id := 7],
        Ref(Tenants, 0) := map[Id := 5],
        Ref(Memberships, 0) := map[UserId := 7, TenantId := 5, Status := REMOVED],
        Ref(LeaveRequests, 0) := map[Id := 3, EmployeeId := 7, TenantId := 5, CreatedBy := 7]]
  }

  lemma FormerParent(e: Edge, r: Ref)
    requires e in Edges() && r in FormerMember() && r.table == e.child && Filled(e, FormerMember()[r])
    ensures Names(e, FormerMember(), r, Ref(e.parent, 0))
  {
    hide Edges;
    KeysAre(e);
  }

  lemma FormerRowPerTable(p: Ref, q: Ref)
    requires p in FormerMember() && q in FormerMember() && p.table == q.table
    ensures p == q
  {
  }

  lemma FormerConsistent()
    ensures ParentsExist(Edges(), FormerMember()) && ParentsUnique(Edges(), FormerMember())
  {
    hide Edges, FormerMember, Matches, Filled;
    var s := FormerMember();
    forall e, r | e in Edges() && r in s && r.table == e.child && Filled(e, s[r])
      ensures exists p :: Names(e, s, r, p)
    {
      FormerParent(e, r);
    }
    forall e, r, p, q | e in Edges() && Names(e, s, r, p) && Names(e, s, r, q)
      ensures p == q
    {
      FormerRowPerTable(p, q);
    }
  }

  lemma FormerIsOwned(r: Ref)
    requires r in FormerMember() && r.table != Tenants
    ensures OwnedBy(FormerMember(), 7, r)
  {
    hide Plan, OwnedBy;
    OwnedIs(FormerMember(), 7, r);
  }

  lemma FormerNotPinned()
    ensures !Pinned(FormerMember(), 7)
  {
    hide Edges, Plan, OwnedBy;
    var s := FormerMember();
    forall e, r, p | e in Edges() && Pins(s, 7, e, r, p)
      ensures false
    {
      if r.table != Tenants {
        FormerIsOwned(r);
      }
      EdgesSane(e);
    }
  }

  lemma FormerIsNoStaff()
    ensures !Staff(FormerMember(), 7)
  {
  }

  lemma FormerIsNoMember()
    ensures !ActiveMember(FormerMember(), 7, 5)
  {
  }

  lemma FormerActorGone()
    ensures ActorGone(FormerMember(), 7, Ref(LeaveRequests, 0))
  {
    hide Plan, OwnedBy, Staff, ActiveMember;
    FormerIsNoStaff();
    FormerIsNoMember();
    FormerIsOwned(Ref(LeaveRequests, 0));
  }

  /** Without notifications and photos no row comes back before one it names. */
  lemma NothingAhead(s: Store, u: nat)
    requires forall r :: r in s ==> r.table != Notifications && r.table != Attachments
    ensures !NamesAhead(s, u)
  {
    hide Edges, Plan, OwnedBy, Holds, Matches;
  }

  /**
   * The purge of the former member completes and no row comes back before one it names, but the
   * restore aborts in any order: who made the leave is no active member.
   */
  lemma FormerMemberIsNotRestored(order: Order, today: nat -> Date)
    requires IsOrder(order)
    ensures var s := FormerMember();
            && RunDeletes(Edges(), s, Plan(), 7, STEPS).Some? && !NamesAhead(s, 7)
            && RestoreRows(Edges(), Purged(s, 7), PersonBackup(s, 7), order, today).None?
  {
    hide Edges, Plan, RunDeletes, RestoreRows, ParentsExist, ParentsUnique, Backup, OwnedBy, Pinned, ActorGone,
         ReportsFit, CoverageStands, IsOrder, NamesAhead;
    var s := FormerMember();
    FormerNotPinned();
    NothingAhead(s, 7);
    PurgeCompletesIff(s, 7);
    FormerConsistent();
    FormerActorGone();
    RestoreCompletesIff(s, 7, order, today);
  }

  // ----------------------------------------------------------- an archived office

  /**
   * An employee who moved from an office that was archived since to another one: enrolled from day 1
   * on, at office 1 until day 5 and at office 2 from then on.
   */
  function MovedOn(): Store {
    map[Ref(Users, 0) := map[Id := 7],
        Ref(Tenants, 0) := map[Id := 5],
        Ref(Memberships, 0) := map[UserId := 7, TenantId := 5, Status := ACTIVE],
        Ref(AttendanceOffices, 1) := map[Id := 1, TenantId := 5, ArchivedAt := 9],
        Ref(AttendanceOffices, 2) := map[Id := 2, TenantId := 5],
        Ref(AttendanceEnrolments, 0) := map[EmployeeId := 7, TenantId := 5, ValidFrom := 1],
        Ref(AttendanceOfficeAssignments, 1) :=
          map[EmployeeId := 7, TenantId := 5, OfficeId := 1, ValidFrom := 1, ValidTo := 5],
        Ref(AttendanceOfficeAssignments, 2) :=
          map[EmployeeId := 7, TenantId := 5, OfficeId := 2, ValidFrom := 5]]
  }

  /** The row a row of the example refers to: a leg refers to the office of the same number. */
  function MovedParent(e: Edge, r: Ref): Ref {
    Ref(e.parent, if e.parent == AttendanceOffices then r.row else 0)
  }

  lemma LegHasParent(e: Edge, r: Ref)
    requires e in Edges() && r in MovedOn() && r.table == e.child && Filled(e, MovedOn()[r])
    requires r.table == AttendanceOfficeAssignments
    ensures Names(e, MovedOn(), r, MovedParent(e, r))
  {
    hide Edges;
    KeysAre(e);
  }

  lemma MovedHasParent(e: Edge, r: Ref)
    requires e in Edges() && r in MovedOn() && r.table == e.child && Filled(e, MovedOn()[r])
    ensures Names(e, MovedOn(), r, MovedParent(e, r))
  {
    hide Edges;
    KeysAre(e);
    if r.table == AttendanceOfficeAssignments {
      LegHasParent(e, r);
    }
  }

  /** Rows of a table differ in the column a key refers to. */
  lemma MovedOneParent(e: Edge, r: Ref, p: Ref)
    requires e in Edges() && Names(e, MovedOn(), r, p)
    ensures p == MovedParent(e, r)
  {
    hide Edges;
    KeysAre(e);
  }

  lemma MovedConsistent()
    ensures ParentsExist(Edges(), MovedOn()) && ParentsUnique(Edges(), MovedOn())
  {
    hide Edges, MovedOn, Matches, Filled, MovedParent;
    var s := MovedOn();
    forall e, r | e in Edges() && r in s && r.table == e.child && Filled(e, s[r])
      ensures exists p :: Names(e, s, r, p)
    {
      MovedHasParent(e, r);
    }
    forall e, r, p, q | e in Edges() && Names(e, s, r, p) && Names(e, s, r, q)
      ensures p == q
    {
      MovedOneParent(e, r, p);
      MovedOneParent(e, r, q);
    }
  }

  lemma MovedIsOwned(r: Ref)
    requires r in MovedOn() && r.table != Tenants && r.table != AttendanceOffices
    ensures OwnedBy(MovedOn(), 7, r)
  {
    hide Plan, OwnedBy;
    OwnedIs(MovedOn(), 7, r);
  }

  lemma MovedNames(e: Edge, r: Ref, p: Ref)
    requires e in Edges() && Names(e, MovedOn(), r, p)
    ensures r.table != Tenants && r.table != AttendanceOffices
  {
    hide Edges;
    KeysAre(e);
  }

  lemma MovedNotPinned()
    ensures !Pinned(MovedOn(), 7)
  {
    hide Edges, Plan, OwnedBy, MovedOn, Names;
    var s := MovedOn();
    forall e, r, p | e in Edges() && Names(e, s, r, p)
      ensures OwnedBy(s, 7, r)
    {
      MovedNames(e, r, p);
      MovedIsOwned(r) by {
        NamedIsThere(e, s, r, p);
      }
    }
  }

  lemma NamedIsThere(e: Edge, s: Store, r: Ref, p: Ref)
    requires Names(e, s, r, p)
    ensures r in s && p in s
  {
    hide Matches;
  }

  lemma MovedLeg(id: nat)
    requires Ref(AttendanceOfficeAssignments, id) in MovedOn()
    ensures var a := LegOf(id, MovedOn()[Ref(AttendanceOfficeAssignments, id)]);
            a.load == 1 || a.start == 5
  {
  }

  lemma OfficeOneIsArchived()
    ensures !LiveOffice(MovedOn(), 1)
  {
  }

  lemma MovedRows()
    ensures var t := MovedOn();
            && Ref(Memberships, 0) in t && Has(t[Ref(Memberships, 0)], UserId, 7)
            && Has(t[Ref(Memberships, 0)], TenantId, 5)
            && Ref(AttendanceEnrolments, 0) in t && Has(t[Ref(AttendanceEnrolments, 0)], EmployeeId, 7)
            && Has(t[Ref(AttendanceEnrolments, 0)], TenantId, 5) && ValidTo !in t[Ref(AttendanceEnrolments, 0)]
            && RangeOf(0, t[Ref(AttendanceEnrolments, 0)]) == Periods.Period(0, 1, None, ())
  {
  }

  lemma MovedEnrolment(today: nat -> Date)
    ensures var t, r := MovedOn(), Ref(AttendanceEnrolments, 0);
            && r in t && Has(t[r], EmployeeId, 7) && RangeOf(0, t[r]).start == 1
            && CurrentOrFuture(t, 7, t[r], today)
  {
    hide MovedOn, RangeOf;
    MovedRows();
  }

  /** Their past leg is at no live office, so nothing live starts where the open enrolment does. */
  lemma MovedNotLive(today: nat -> Date)
    ensures Ref(AttendanceEnrolments, 0) in MovedOn() && !LiveOk(MovedOn(), 7, today, Ref(AttendanceEnrolments, 0))
  {
    hide MovedOn, LegsOf, Has, CurrentOrFuture, RangeOf, LegOf, LiveOffice;
    var t := MovedOn();
    MovedEnrolment(today);
    OfficeOneIsArchived();
    forall a | a in LegsOf(t, 7) && LiveOffice(t, a.load)
      ensures a.start != 1
    {
      var id := LegIsRow(t, 7, a);
      MovedLeg(id);
    }
  }

  const PAST_LEG := Periods.Period(1, 1, Some(5), 1)
  const OPEN_LEG := Periods.Period(2, 5, None, 2)
  const ENROLLED := Periods.Period(0, 1, None, ())

  lemma MovedLegIs(id: nat)
    requires Ref(AttendanceOfficeAssignments, id) in MovedOn()
    ensures var a := LegOf(id, MovedOn()[Ref(AttendanceOfficeAssignments, id)]);
            a == if id == 1 then PAST_LEG else OPEN_LEG
    ensures Has(MovedOn()[Ref(AttendanceOfficeAssignments, id)], EmployeeId, 7)
  {
  }

  lemma MovedLegsThere()
    ensures Ref(AttendanceOfficeAssignments, 1) in MovedOn() && Ref(AttendanceOfficeAssignments, 2) in MovedOn()
    ensures forall id: nat :: Ref(AttendanceEnrolments, id) in MovedOn() ==> id == 0
  {
  }

  /** Whatever the offices' state, the two legs cover the enrolment: the trigger accepted these rows before. */
  lemma MovedIsCovered()
    ensures Lifecycle.CoverageGuard(RangesOf(MovedOn(), 7), LegsOf(MovedOn(), 7))
  {
    hide MovedOn, LegsOf, RangesOf, LegOf, RangeOf, Has;
    var t := MovedOn();
    MovedRows();
    MovedLegsThere();
    MovedLegIs(1);
    MovedLegIs(2);
    RowIsLeg(t, 7, 1);
    RowIsLeg(t, 7, 2);
    RowIsRange(t, 7, 0);
    forall a | a in LegsOf(t, 7)
      ensures a == PAST_LEG || a == OPEN_LEG
    {
      var id := LegIsRow(t, 7, a);
      MovedLegIs(id);
    }
    forall e | e in RangesOf(t, 7)
      ensures e == ENROLLED
    {
      var id := RangeIsRow(t, 7, e);
    }
    TwoLegsChain(RangesOf(t, 7), LegsOf(t, 7));
  }

  lemma TwoLegsChain(ranges: seq<Periods.Period<()>>, legs: seq<Periods.Period<OfficeId>>)
    requires ENROLLED in ranges && forall e :: e in ranges ==> e == ENROLLED
    requires PAST_LEG in legs && OPEN_LEG in legs && forall a :: a in legs ==> a == PAST_LEG || a == OPEN_LEG
    ensures Lifecycle.CoverageGuard(ranges, legs)
  {
  }

  lemma MovedTable(r: Ref)
    requires r in MovedOn()
    ensures r.table != Notifications && r.table != Attachments
  {
  }

  lemma MovedNamesNothing()
    ensures !NamesAhead(MovedOn(), 7)
  {
    hide NamesAhead, MovedOn;
    forall r | r in MovedOn()
      ensures r.table != Notifications && r.table != Attachments
    {
      MovedTable(r);
    }
    NothingAhead(MovedOn(), 7);
  }

  /**
   * The trigger's first two halves hold of these rows, the purge completes and no row comes back
   * before one it names, but the commit is refused on any date: one of the offices is archived.
   */
  lemma MovedIsNotRestored(order: Order, today: nat -> Date)
    requires IsOrder(order)
    ensures var s := MovedOn();
            && Lifecycle.CoverageGuard(RangesOf(s, 7), LegsOf(s, 7))
            && RunDeletes(Edges(), s, Plan(), 7, STEPS).Some? && !NamesAhead(s, 7)
            && RestoreRows(Edges(), Purged(s, 7), PersonBackup(s, 7), order, today).None?
  {
    hide Edges, Plan, RunDeletes, RestoreRows, ParentsExist, ParentsUnique, Backup, OwnedBy, Pinned, ActorsStand,
         ReportsFit, IsOrder, NamesAhead, LiveOk, MovedOn, LegsOf, RangesOf;
    var s := MovedOn();
    MovedIsCovered();
    MovedNotPinned();
    MovedNamesNothing();
    PurgeCompletesIff(s, 7);
    MovedConsistent();
    MovedNotLive(today);
    MovedIsOwned(Ref(AttendanceEnrolments, 0));
    assert Watched(Ref(AttendanceEnrolments, 0).table);
    assert !CoverageOk(s, 7, today);
    RestoreCompletesIff(s, 7, order, today);
  }

  // ------------------------------------------------------------ three reports

  /** A person with three queued reports. */
  function ThreeReports(): Store {
    map[Ref(Users, 0) := map[Id := 7],
        Ref(ReportRequests, 0) := map[Id := 1, RequestedBy := 7, TenantId := 5, Status := QUEUED],
        Ref(ReportRequests, 1) := map[Id := 2, RequestedBy := 7, TenantId := 5, Status := QUEUED],
        Ref(ReportRequests, 2) := map[Id := 3, RequestedBy := 7, TenantId := 5, Status := QUEUED]]
  }

  lemma ReportParent(e: Edge, r: Ref, p: Ref)
    requires e in Edges() && r in ThreeReports() && r.table == e.child
    ensures Filled(e, ThreeReports()[r]) ==> Names(e, ThreeReports(), r, Ref(Users, 0))
    ensures Names(e, ThreeReports(), r, p) ==> p == Ref(Users, 0)
  {
    hide Edges;
    KeysAre(e);
  }

  lemma ReportsConsistent()
    ensures ParentsExist(Edges(), ThreeReports()) && ParentsUnique(Edges(), ThreeReports())
  {
    hide Edges, ThreeReports, Matches, Filled;
    var s := ThreeReports();
    forall e, r | e in Edges() && r in s && r.table == e.child && Filled(e, s[r])
      ensures exists p :: Names(e, s, r, p)
    {
      ReportParent(e, r, r);
    }
    forall e, r, p, q | e in Edges() && Names(e, s, r, p) && Names(e, s, r, q)
      ensures p == q
    {
      ReportParent(e, r, p);
      ReportParent(e, r, q);
    }
  }

  lemma ReportRow(r: Ref)
    requires r in ThreeReports()
    ensures OwnedBy(ThreeReports(), 7, r)
    ensures r.table == Users || (r.table == ReportRequests && r.row < 3 && InFlight(ThreeReports()[r], 5))
    ensures r.table == ReportRequests ==> Has(ThreeReports()[r], TenantId, 5)
  {
    hide Plan, OwnedBy;
    OwnedIs(ThreeReports(), 7, r);
  }

  lemma AllThree()
    ensures {Ref(ReportRequests, 0), Ref(ReportRequests, 1), Ref(ReportRequests, 2)} <= ThreeReports().Keys
  {
  }

  lemma ReportsNotPinned()
    ensures !Pinned(ThreeReports(), 7) && !NamesAhead(ThreeReports(), 7) && ActorsStand(ThreeReports(), 7)
    ensures forall today: nat -> Date :: CoverageStands(ThreeReports(), 7, today)
  {
    hide Edges, Plan, OwnedBy, ThreeReports, NamesAhead, CoverageOk, Matches, Has;
    var s := ThreeReports();
    forall r | r in s
      ensures OwnedBy(s, 7, r) && (r.table == Users || r.table == ReportRequests)
    {
      ReportRow(r);
    }
    NothingAhead(s, 7);
    forall r | OwnedBy(s, 7, r)
      ensures r in s
    {
      OwnedHasStep(s, 7, r);
    }
  }

  /** A list without repetitions is as long as its set. */
  lemma {:induction false} ListSize(rows: seq<Ref>, refs: set<Ref>)
    requires Lists(rows, refs)
    ensures |rows| == |refs|
  {
    if rows == [] {
      assert refs == {};
    } else {
      var n := |rows| - 1;
      forall r | r in refs - {rows[n]}
        ensures r in rows[..n]
      {
        assert r in rows;
      }
      ListSize(rows[..n], refs - {rows[n]});
    }
  }

  lemma {:induction false} EarlierAtMost(rows: seq<Ref>)
    ensures |set r | r in rows| <= |rows|
  {
    if rows != [] {
      var n := |rows| - 1;
      EarlierAtMost(rows[..n]);
      assert (set r | r in rows) == (set r | r in rows[..n]) + {rows[n]} by {
        assert rows == rows[..n] + [rows[n]];
      }
    }
  }

  /** Whatever their order, at most two stand before the last. */
  lemma ThreeFit(order: Order)
    requires IsOrder(order)
    ensures ReportsFit(ThreeReports(), 7, order)
  {
    hide Plan, Hit, OwnedBy, ThreeReports, IsOrder, InFlight;
    var s := ThreeReports();
    var section := SectionOf(s, Plan()[AT_REPORTS], 7);
    var rows := order(section);
    ListedBy(order, section);
    ListSize(rows, section.Keys);
    AtMostThree();
    SubsetSize(section.Keys, {Ref(ReportRequests, 0), Ref(ReportRequests, 1), Ref(ReportRequests, 2)});
    forall i | 0 <= i < |rows|
      ensures ReportFits(s, 7, rows, i)
    {
      if rows[i] in s && TenantId in s[rows[i]] {
        var before := InFlightBefore(s, 7, rows[..i], s[rows[i]][TenantId]);
        forall q | q in before
          ensures q in rows[..i]
        {
          ReportRow(q);
        }
        SubsetSize(before, set r | r in rows[..i]);
        EarlierAtMost(rows[..i]);
      }
    }
  }

  lemma AtMostThree()
    ensures SectionOf(ThreeReports(), Plan()[AT_REPORTS], 7).Keys
         <= {Ref(ReportRequests, 0), Ref(ReportRequests, 1), Ref(ReportRequests, 2)}
  {
    hide Plan, Hit, OwnedBy, ThreeReports, InFlight;
    forall r | r in SectionOf(ThreeReports(), Plan()[AT_REPORTS], 7)
      ensures r in {Ref(ReportRequests, 0), Ref(ReportRequests, 1), Ref(ReportRequests, 2)}
    {
      HitTable(ThreeReports(), 7, AT_REPORTS, r);
      ReportRow(r);
    }
  }

  lemma NoRoomLeft()
    ensures !ReportsHaveRoom(ThreeReports(), 7)
  {
    hide OwnedBy, ThreeReports, InFlight;
    var s, r := ThreeReports(), Ref(ReportRequests, 0);
    AllThree();
    var three := {Ref(ReportRequests, 0), Ref(ReportRequests, 1), Ref(ReportRequests, 2)};
    forall q | q in three
      ensures OwnedBy(s, 7, q) && InFlight(s[q], 5) && Has(s[q], TenantId, 5)
    {
      ReportRow(q);
    }
    SubsetSize(three, InFlightRows(s, 5));
    assert |three| == 3;
    assert !RoomFor(s, r.table, s[r]);
  }

  /** The restore goes through in any order, and running it a second time aborts. */
  lemma ThreeReportsOnlyOnce(order: Order, today: nat -> Date) returns (back: Restored)
    requires IsOrder(order)
    ensures var s := ThreeReports();
            && RunDeletes(Edges(), s, Plan(), 7, STEPS).Some?
            && RestoreRows(Edges(), Purged(s, 7), PersonBackup(s, 7), order, today) == Some(back)
            && RestoreRows(Edges(), back.store, PersonBackup(s, 7), order, today).None?
  {
    hide Edges, Plan, RunDeletes, RestoreRows, ParentsExist, ParentsUnique, Backup, OwnedBy, Pinned, NamesAhead,
         IsOrder, ActorsStand, ReportsFit, CoverageStands, ReportsHaveRoom, ThreeReports;
    var s := ThreeReports();
    ReportsNotPinned();
    PurgeCompletesIff(s, 7);
    ReportsConsistent();
    ThreeFit(order);
    NoRoomLeft();
    RestoreCompletesIff(s, 7, order, today);
    back := RestoreRows(Edges(), Purged(s, 7), PersonBackup(s, 7), order, today).value;
    SecondRestoreIff(s, 7, order, today, back);
  }
}
