// What the insert triggers read: two stores that agree on those tables are judged alike.

module GuardReads {
  import opened Basics
  import opened Periods
  import opened Lifecycle
  import opened Relational
  import opened Purge
  import opened Guards

  /** The row reads as before as far as any foreign key or trigger can tell. */
  ghost predicate SameKeys(x: Row, y: Row) {
    && (forall c :: c in y ==> c in x && y[c] == x[c])
    && (forall c :: c in x && Hard(c) && !Generated(c) ==> c in y)
  }

  /** The two stores hold the same rows of a table, alike as far as a trigger can tell. */
  ghost predicate SameRows(s: Store, t: Store, table: Table) {
    forall p: Ref :: p.table == table ==> (p in s <==> p in t) && (p in t ==> SameKeys(s[p], t[p]))
  }

  lemma SameHas(x: Row, y: Row, c: Col, v: nat)
    requires SameKeys(x, y) && Hard(c) && !Generated(c)
    ensures Has(x, c, v) == Has(y, c, v) && (c in x <==> c in y)
  {
  }

  // --------------------------------------------------------------- who acted

  lemma StaffReads(s: Store, t: Store, a: nat)
    requires SameRows(s, t, Users)
    ensures Staff(s, a) == Staff(t, a)
  {
    hide SameKeys, Has;
    forall p | p in s && p.table == Users
      ensures Has(s[p], Id, a) == Has(t[p], Id, a) && Has(s[p], PlatformAdmin, TRUE) == Has(t[p], PlatformAdmin, TRUE)
    {
      SameHas(s[p], t[p], Id, a);
      SameHas(s[p], t[p], PlatformAdmin, TRUE);
    }
  }

  lemma MemberReads(s: Store, t: Store, a: nat, tenant: nat)
    requires SameRows(s, t, Memberships)
    ensures ActiveMember(s, a, tenant) == ActiveMember(t, a, tenant)
  {
    hide SameKeys, Has;
    forall p | p in s && p.table == Memberships
      ensures Has(s[p], UserId, a) == Has(t[p], UserId, a) && Has(s[p], TenantId, tenant) == Has(t[p], TenantId, tenant)
      ensures Has(s[p], Status, ACTIVE) == Has(t[p], Status, ACTIVE)
    {
      SameHas(s[p], t[p], UserId, a);
      SameHas(s[p], t[p], TenantId, tenant);
      SameHas(s[p], t[p], Status, ACTIVE);
    }
  }

  /** The actor check reads users and memberships, and of the new row nothing that is generated. */
  lemma ActorReads(s: Store, t: Store, table: Table, x: Row)
    requires ActorCol(table).Some? ==> SameRows(s, t, Users) && SameRows(s, t, Memberships)
    ensures ActorOk(t, table, Insertable(x)) == ActorOk(s, table, x)
  {
    hide Staff, ActiveMember;
    var col := ActorCol(table);
    if col.Some? && col.value in x {
      StaffReads(s, t, x[col.value]);
      if TenantId in x {
        MemberReads(s, t, x[col.value], x[TenantId]);
      }
    }
  }

  // ------------------------------------------------------- reports in flight

  lemma SameInFlight(x: Row, y: Row, tenant: nat)
    requires SameKeys(x, y)
    ensures InFlight(x, tenant) == InFlight(y, tenant)
  {
    hide SameKeys, Has;
    SameHas(x, y, TenantId, tenant);
    SameHas(x, y, Status, QUEUED);
    SameHas(x, y, Status, GENERATING);
  }

  lemma InFlightReads(s: Store, t: Store, tenant: nat)
    requires SameRows(s, t, ReportRequests)
    ensures InFlightRows(s, tenant) == InFlightRows(t, tenant)
  {
    hide SameKeys, InFlight;
    forall r | r in s && r.table == ReportRequests
      ensures InFlight(s[r], tenant) == InFlight(t[r], tenant)
    {
      SameInFlight(s[r], t[r], tenant);
    }
  }

  // ----------------------------------------------------------------- coverage

  lemma RowsRead(s: Store, t: Store, table: Table, v: nat)
    requires SameRows(s, t, table)
    ensures RowsOf(s, table, v) == RowsOf(t, table, v)
  {
    hide SameKeys, Has;
    forall r | r in s && r.table == table
      ensures Has(s[r], EmployeeId, v) == Has(t[r], EmployeeId, v)
    {
      SameHas(s[r], t[r], EmployeeId, v);
    }
  }

  /** A leg is made of an assignment. */
  lemma LegIsRow(t: Store, v: nat, a: Period<OfficeId>) returns (id: nat)
    requires a in LegsOf(t, v)
    ensures Ref(AttendanceOfficeAssignments, id) in t && a == LegOf(id, t[Ref(AttendanceOfficeAssignments, id)])
    ensures Has(t[Ref(AttendanceOfficeAssignments, id)], EmployeeId, v)
  {
    hide LegOf;
    var ids := IdsOf(t, AttendanceOfficeAssignments, v);
    var i :| 0 <= i < |ids| && LegsOf(t, v)[i] == a;
    assert ids[i] in ids;
    id := ids[i];
  }

  lemma RowIsLeg(t: Store, v: nat, id: nat)
    requires Ref(AttendanceOfficeAssignments, id) in t && Has(t[Ref(AttendanceOfficeAssignments, id)], EmployeeId, v)
    ensures LegOf(id, t[Ref(AttendanceOfficeAssignments, id)]) in LegsOf(t, v)
  {
    hide LegOf;
    var ids := IdsOf(t, AttendanceOfficeAssignments, v);
    assert id in ids;
    var i :| 0 <= i < |ids| && ids[i] == id;
    assert LegsOf(t, v)[i] in LegsOf(t, v);
  }

  /** A range is made of an enrolment. */
  lemma RangeIsRow(t: Store, v: nat, e: Period<()>) returns (id: nat)
    requires e in RangesOf(t, v)
    ensures Ref(AttendanceEnrolments, id) in t && e == RangeOf(id, t[Ref(AttendanceEnrolments, id)])
    ensures Has(t[Ref(AttendanceEnrolments, id)], EmployeeId, v)
  {
    hide RangeOf;
    var ids := IdsOf(t, AttendanceEnrolments, v);
    var i :| 0 <= i < |ids| && RangesOf(t, v)[i] == e;
    assert ids[i] in ids;
    id := ids[i];
  }

  lemma RowIsRange(t: Store, v: nat, id: nat)
    requires Ref(AttendanceEnrolments, id) in t && Has(t[Ref(AttendanceEnrolments, id)], EmployeeId, v)
    ensures RangeOf(id, t[Ref(AttendanceEnrolments, id)]) in RangesOf(t, v)
  {
    hide RangeOf;
    var ids := IdsOf(t, AttendanceEnrolments, v);
    assert id in ids;
    var i :| 0 <= i < |ids| && ids[i] == id;
    assert RangesOf(t, v)[i] in RangesOf(t, v);
  }

  lemma SameRange(id: nat, x: Row, y: Row)
    requires SameKeys(x, y)
    ensures RangeOf(id, x) == RangeOf(id, y) && LegOf(id, x) == LegOf(id, y)
  {
  }

  lemma RangesRead(s: Store, t: Store, v: nat)
    requires SameRows(s, t, AttendanceEnrolments)
    ensures RangesOf(s, v) == RangesOf(t, v)
  {
    hide SameKeys, Has, RangeOf;
    RowsRead(s, t, AttendanceEnrolments, v);
    var ids := IdsOf(s, AttendanceEnrolments, v);
    forall i | 0 <= i < |ids|
      ensures RangesOf(s, v)[i] == RangesOf(t, v)[i]
    {
      assert ids[i] in ids;
      var r := Ref(AttendanceEnrolments, ids[i]);
      SameRange(ids[i], s[r], t[r]);
    }
  }

  lemma LegsRead(s: Store, t: Store, v: nat)
    requires SameRows(s, t, AttendanceOfficeAssignments)
    ensures LegsOf(s, v) == LegsOf(t, v)
  {
    hide SameKeys, Has, LegOf;
    RowsRead(s, t, AttendanceOfficeAssignments, v);
    var ids := IdsOf(s, AttendanceOfficeAssignments, v);
    forall i | 0 <= i < |ids|
      ensures LegsOf(s, v)[i] == LegsOf(t, v)[i]
    {
      assert ids[i] in ids;
      var r := Ref(AttendanceOfficeAssignments, ids[i]);
      SameRange(ids[i], s[r], t[r]);
    }
  }

  lemma OfficeReads(s: Store, t: Store, office: nat)
    requires SameRows(s, t, AttendanceOffices)
    ensures LiveOffice(s, office) == LiveOffice(t, office)
  {
    hide SameKeys, Has;
    forall o | o in s && o.table == AttendanceOffices
      ensures Has(s[o], Id, office) == Has(t[o], Id, office) && (ArchivedAt in s[o] <==> ArchivedAt in t[o])
    {
      SameHas(s[o], t[o], Id, office);
      SameHas(s[o], t[o], ArchivedAt, 0);
    }
  }

  lemma {:induction false} LiveReads(s: Store, t: Store, legs: seq<Period<OfficeId>>)
    requires SameRows(s, t, AttendanceOffices)
    ensures Live(s, legs) == Live(t, legs)
  {
    hide LiveOffice, SameRows;
    if legs != [] {
      OfficeReads(s, t, legs[0].load);
      LiveReads(s, t, legs[1..]);
    }
  }

  lemma CurrentReads(s: Store, t: Store, v: nat, x: Row, y: Row, today: nat -> Date)
    requires SameRows(s, t, Memberships) && SameKeys(x, y)
    ensures CurrentOrFuture(s, v, x, today) == CurrentOrFuture(t, v, y, today)
  {
    hide SameKeys, Has;
    SameHas(x, y, ValidTo, 0);
    SameHas(x, y, TenantId, 0);
    if TenantId in x {
      SameCell(x, y, TenantId);
      forall m | m in s && m.table == Memberships
        ensures Has(s[m], UserId, v) == Has(t[m], UserId, v)
        ensures Has(s[m], TenantId, x[TenantId]) == Has(t[m], TenantId, x[TenantId])
      {
        SameHas(s[m], t[m], UserId, v);
        SameHas(s[m], t[m], TenantId, x[TenantId]);
      }
    }
    if ValidTo in x {
      SameCell(x, y, ValidTo);
    }
  }

  lemma SameCell(x: Row, y: Row, c: Col)
    requires SameKeys(x, y) && c in x && Hard(c) && !Generated(c)
    ensures c in y && x[c] == y[c]
  {
  }

  /** The tables the coverage trigger reads. */
  ghost predicate SameCoverage(s: Store, t: Store) {
    && SameRows(s, t, AttendanceEnrolments) && SameRows(s, t, AttendanceOfficeAssignments)
    && SameRows(s, t, AttendanceOffices) && SameRows(s, t, Memberships)
  }

  lemma LiveOkReads(s: Store, t: Store, v: nat, today: nat -> Date, r: Ref)
    requires SameCoverage(s, t)
    ensures LiveOk(s, v, today, r) == LiveOk(t, v, today, r)
  {
    hide SameKeys, Has, CurrentOrFuture, Chained, Live, LegsOf, RangeOf;
    LegsRead(s, t, v);
    LiveReads(s, t, LegsOf(s, v));
    if r in s && r.table == AttendanceEnrolments {
      SameHas(s[r], t[r], EmployeeId, v);
      CurrentReads(s, t, v, s[r], t[r], today);
      SameRange(r.row, s[r], t[r]);
    }
  }

  lemma CoverageReads(s: Store, t: Store, v: nat, today: nat -> Date)
    requires SameCoverage(s, t)
    ensures CoverageOk(s, v, today) == CoverageOk(t, v, today)
  {
    hide SameKeys, LiveOk, LegsOf, RangesOf, CoverageGuard;
    RangesRead(s, t, v);
    LegsRead(s, t, v);
    forall r: Ref
      ensures LiveOk(s, v, today, r) == LiveOk(t, v, today, r)
    {
      LiveOkReads(s, t, v, today, r);
    }
    forall r | r in t && r !in s
      ensures LiveOk(t, v, today, r)
    {
      NotEnrolment(s, v, today, r);
    }
    forall r | r in s && r !in t
      ensures LiveOk(s, v, today, r)
    {
      NotEnrolment(t, v, today, r);
    }
  }

  lemma NotEnrolment(t: Store, v: nat, today: nat -> Date, r: Ref)
    requires r !in t
    ensures LiveOk(t, v, today, r)
  {
  }
}
