// What the deferred coverage trigger asks of an employee, said date by date on the rows.

module CoverageAnswers {
  import opened Basics
  import opened Periods
  import opened Lifecycle
  import opened Enrolment
  import opened Relational
  import opened Guards
  import opened GuardReads

  // ----------------------------------------------------------------- coverage

  /** An employee's row of a table. */
  predicate RowOf(t: Store, table: Table, v: nat, r: Ref) {
    r in t && r.table == table && Has(t[r], EmployeeId, v)
  }

  /** The row's range holds the date. */
  predicate Holds(x: Row, d: Date) {
    (if ValidFrom in x then x[ValidFrom] else 0) <= d && (ValidTo in x ==> d < x[ValidTo])
  }

  /** The first row's range lies in the second's. */
  predicate Inside(x: Row, y: Row) {
    && (if ValidFrom in y then y[ValidFrom] else 0) <= (if ValidFrom in x then x[ValidFrom] else 0)
    && (ValidTo in y ==> ValidTo in x && x[ValidTo] <= y[ValidTo])
  }

  /** An assignment of the employee holds the date; if asked for, at an office that is not archived. */
  ghost predicate Assigned(t: Store, v: nat, d: Date, live: bool) {
    exists a :: RowOf(t, AttendanceOfficeAssignments, v, a) && Holds(t[a], d) && (live ==> AtLive(t, t[a]))
  }

  ghost predicate AtLive(t: Store, x: Row) {
    exists o :: o in t && o.table == AttendanceOffices && Has(t[o], Id, if OfficeId in x then x[OfficeId] else 0)
                && ArchivedAt !in t[o]
  }

  /** The enrolment has not ended on its company's date of today. */
  ghost predicate Current(t: Store, v: nat, x: Row, today: nat -> Date) {
    TenantId in x && (ValidTo in x ==> today(x[TenantId]) < x[ValidTo])
    && exists m :: m in t && m.table == Memberships && Has(t[m], UserId, v) && Has(t[m], TenantId, x[TenantId])
  }

  /** Every assignment lies in an enrolment; every enrolled date is assigned, and from now on at a live office. */
  ghost predicate IsCovered(t: Store, v: nat, today: nat -> Date) {
    && (forall a :: RowOf(t, AttendanceOfficeAssignments, v, a) ==>
          exists e :: RowOf(t, AttendanceEnrolments, v, e) && Inside(t[a], t[e]))
    && (forall e, d: Date :: RowOf(t, AttendanceEnrolments, v, e) && Holds(t[e], d) ==> Assigned(t, v, d, false))
    && forall e, d: Date :: RowOf(t, AttendanceEnrolments, v, e) && Holds(t[e], d) && Current(t, v, t[e], today) ==>
         Assigned(t, v, d, true)
  }

  lemma RangeHolds(id: nat, x: Row, d: Date)
    ensures Contains(RangeOf(id, x), d) <==> Holds(x, d)
    ensures Contains(LegOf(id, x), d) <==> Holds(x, d)
  {
  }

  lemma LegInside(id: nat, x: Row, other: nat, y: Row)
    ensures Within(LegOf(id, x), RangeOf(other, y)) <==> Inside(x, y)
  {
  }

  // ---------------------------------------------- a chain is cover, date by date

  lemma {:induction false} LiveIsTidy(t: Store, legs: seq<Period<OfficeId>>)
    requires Tidy(legs)
    ensures Tidy(Live(t, legs))
  {
    hide LiveOffice;
    if legs != [] {
      LiveIsTidy(t, legs[1..]);
      var rest := Live(t, legs[1..]);
      if LiveOffice(t, legs[0].load) {
        assert Live(t, legs) == [legs[0]] + rest;
        assert ([legs[0]] + rest)[1..] == rest;
      } else {
        assert Live(t, legs) == [] + rest == rest;
      }
    }
  }

  /** The legs within one range. */
  function LegsWithin(legs: seq<Period<OfficeId>>, e: Period<()>): (inside: seq<Period<OfficeId>>)
    ensures forall a :: a in inside <==> a in legs && Within(a, e)
  {
    if legs == [] then [] else (if Within(legs[0], e) then [legs[0]] else []) + LegsWithin(legs[1..], e)
  }

  lemma {:induction false} WithinIsTidy(legs: seq<Period<OfficeId>>, e: Period<()>)
    requires Tidy(legs)
    ensures Tidy(LegsWithin(legs, e))
  {
    hide Within;
    if legs != [] {
      WithinIsTidy(legs[1..], e);
      var rest := LegsWithin(legs[1..], e);
      if Within(legs[0], e) {
        assert LegsWithin(legs, e) == [legs[0]] + rest;
        assert ([legs[0]] + rest)[1..] == rest;
      } else {
        assert LegsWithin(legs, e) == [] + rest == rest;
      }
    }
  }

  ghost predicate CoveredBy(e: Period<()>, legs: seq<Period<OfficeId>>) {
    forall d: Date :: Contains(e, d) ==> SomeLeg(legs, d)
  }

  ghost predicate SomeLeg(legs: seq<Period<OfficeId>>, d: Date) {
    exists a :: a in legs && Contains(a, d)
  }

  lemma CoverChains(es: seq<Period<()>>, legs: seq<Period<OfficeId>>, some: seq<Period<OfficeId>>, e: Period<()>)
    requires Tidy(es) && NoOverhang(es, legs) && e in es
    requires Tidy(some) && (forall a :: a in some ==> a in legs) && CoveredBy(e, some)
    ensures Chained(e, some)
  {
    hide Chained, Tidy;
    var inside := LegsWithin(some, e);
    WithinIsTidy(some, e);
    OneIsTidy(es, e);
    assert NoOverhang([e], inside);
    forall d: Date | At([e], d).Some?
      ensures At(inside, d).Some?
    {
      AtOne(e, d);
      var a :| a in some && Contains(a, d);
      LegOfThatRange(es, legs, e, a, d);
      AtRow(inside, a, d);
    }
    GuardHolds([e], inside);
    assert e in [e];
    SameLegs(e, inside, some);
  }

  lemma AtOne(e: Period<()>, d: Date)
    ensures At([e], d).Some? <==> Contains(e, d)
  {
    assert [e][1..] == [];
  }

  lemma OneIsTidy(es: seq<Period<()>>, e: Period<()>)
    requires Tidy(es) && e in es
    ensures Tidy([e])
  {
    TidyRow(es, e);
  }

  lemma LegOfThatRange(es: seq<Period<()>>, legs: seq<Period<OfficeId>>, e: Period<()>, a: Period<OfficeId>, d: Date)
    requires Tidy(es) && NoOverhang(es, legs) && e in es && a in legs && Contains(a, d) && Contains(e, d)
    ensures Within(a, e)
  {
    hide Tidy;
    var f :| f in es && Within(a, f);
    OneRowCovers(es, e, f, d);
  }

  lemma SameLegs(e: Period<()>, inside: seq<Period<OfficeId>>, some: seq<Period<OfficeId>>)
    requires Chained(e, inside) && forall a :: a in inside <==> a in some && Within(a, e)
    ensures Chained(e, some)
  {
    forall p, q | p in some && q in some && Consecutive(p, q, some, e)
      ensures p.end == Some(q.start)
    {
      assert Consecutive(p, q, inside, e);
    }
  }

  lemma ChainedIff(es: seq<Period<()>>, legs: seq<Period<OfficeId>>, some: seq<Period<OfficeId>>, e: Period<()>)
    requires Tidy(es) && NoOverhang(es, legs) && e in es && Tidy(some) && forall a :: a in some ==> a in legs
    ensures Chained(e, some) <==> CoveredBy(e, some)
  {
    hide Chained, Tidy, NoOverhang;
    if Chained(e, some) {
      forall d: Date | Contains(e, d)
        ensures SomeLeg(some, d)
      {
        ChainCovers(e, some, d);
      }
    }
    if CoveredBy(e, some) {
      CoverChains(es, legs, some, e);
    }
  }

  // -------------------------------------------------------- the trigger, on rows

  lemma OverhangIs(t: Store, v: nat)
    ensures NoOverhang(RangesOf(t, v), LegsOf(t, v)) <==>
              forall a :: RowOf(t, AttendanceOfficeAssignments, v, a) ==>
                exists e :: RowOf(t, AttendanceEnrolments, v, e) && Inside(t[a], t[e])
  {
    hide LegsOf, RangesOf, LegOf, RangeOf, Has, Within, Inside;
    if NoOverhang(RangesOf(t, v), LegsOf(t, v)) {
      forall a | RowOf(t, AttendanceOfficeAssignments, v, a)
        ensures exists e :: RowOf(t, AttendanceEnrolments, v, e) && Inside(t[a], t[e])
      {
        RowIsLeg(t, v, a.row);
        var e :| e in RangesOf(t, v) && Within(LegOf(a.row, t[a]), e);
        var id := RangeIsRow(t, v, e);
        LegInside(a.row, t[a], id, t[Ref(AttendanceEnrolments, id)]);
        assert RowOf(t, AttendanceEnrolments, v, Ref(AttendanceEnrolments, id));
      }
    }
    if forall a :: RowOf(t, AttendanceOfficeAssignments, v, a) ==>
         exists e :: RowOf(t, AttendanceEnrolments, v, e) && Inside(t[a], t[e])
    {
      forall p | p in LegsOf(t, v)
        ensures exists e :: e in RangesOf(t, v) && Within(p, e)
      {
        var id := LegIsRow(t, v, p);
        var a := Ref(AttendanceOfficeAssignments, id);
        assert RowOf(t, AttendanceOfficeAssignments, v, a);
        var e :| RowOf(t, AttendanceEnrolments, v, e) && Inside(t[a], t[e]);
        LegInside(id, t[a], e.row, t[e]);
        RowIsRange(t, v, e.row);
      }
    }
  }

  lemma LiveIs(t: Store, x: Row, id: nat)
    ensures LiveOffice(t, LegOf(id, x).load) <==> AtLive(t, x)
  {
  }

  /** A leg holds the date: an assignment row does. */
  lemma AssignedIs(t: Store, v: nat, d: Date, live: bool)
    ensures SomeLeg(if live then Live(t, LegsOf(t, v)) else LegsOf(t, v), d) <==> Assigned(t, v, d, live)
  {
    hide LegsOf, LegOf, Has, Holds, AtLive, LiveOffice;
    var legs := if live then Live(t, LegsOf(t, v)) else LegsOf(t, v);
    if SomeLeg(legs, d) {
      var a :| a in legs && Contains(a, d);
      var id := LegIsRow(t, v, a);
      var r := Ref(AttendanceOfficeAssignments, id);
      RangeHolds(id, t[r], d);
      LiveIs(t, t[r], id);
      assert RowOf(t, AttendanceOfficeAssignments, v, r);
    }
    if Assigned(t, v, d, live) {
      var r :| RowOf(t, AttendanceOfficeAssignments, v, r) && Holds(t[r], d) && (live ==> AtLive(t, t[r]));
      assert r == Ref(AttendanceOfficeAssignments, r.row);
      RowIsLeg(t, v, r.row);
      RangeHolds(r.row, t[r], d);
      LiveIs(t, t[r], r.row);
      assert LegOf(r.row, t[r]) in legs && Contains(LegOf(r.row, t[r]), d);
    }
  }

  lemma CoveredIs(t: Store, v: nat, r: Ref, live: bool)
    requires RowOf(t, AttendanceEnrolments, v, r)
    ensures CoveredBy(RangeOf(r.row, t[r]), if live then Live(t, LegsOf(t, v)) else LegsOf(t, v)) <==>
              forall d: Date :: Holds(t[r], d) ==> Assigned(t, v, d, live)
  {
    hide LegsOf, RangeOf, Has, Holds, Assigned;
    var legs := if live then Live(t, LegsOf(t, v)) else LegsOf(t, v);
    forall d: Date
      ensures Contains(RangeOf(r.row, t[r]), d) == Holds(t[r], d)
      ensures SomeLeg(legs, d) == Assigned(t, v, d, live)
    {
      RangeHolds(r.row, t[r], d);
      AssignedIs(t, v, d, live);
    }
  }

  lemma CurrentIs(t: Store, v: nat, x: Row, today: nat -> Date)
    ensures CurrentOrFuture(t, v, x, today) <==> Current(t, v, x, today)
  {
  }

  /** An enrolment row is chained exactly if its dates are assigned. */
  lemma RowChained(t: Store, v: nat, r: Ref, live: bool)
    requires Tidy(RangesOf(t, v)) && Tidy(LegsOf(t, v)) && NoOverhang(RangesOf(t, v), LegsOf(t, v))
    requires RowOf(t, AttendanceEnrolments, v, r)
    ensures Chained(RangeOf(r.row, t[r]), if live then Live(t, LegsOf(t, v)) else LegsOf(t, v)) <==>
              forall d: Date :: Holds(t[r], d) ==> Assigned(t, v, d, live)
  {
    hide LegsOf, RangesOf, RangeOf, Has, Holds, Assigned, Chained, NoOverhang, CoveredBy, Tidy;
    RowIsRange(t, v, r.row);
    LiveIsTidy(t, LegsOf(t, v));
    ChainedIff(RangesOf(t, v), LegsOf(t, v), if live then Live(t, LegsOf(t, v)) else LegsOf(t, v),
               RangeOf(r.row, t[r]));
    CoveredIs(t, v, r, live);
  }

  /**
   * On rows that the exclusion constraints allow, the coverage trigger accepts an employee exactly if
   * every assignment lies in an enrolment, every enrolled date is assigned, and the dates of an
   * enrolment that has not ended are assigned to offices that are not archived.
   */
  lemma CoverageIs(t: Store, v: nat, today: nat -> Date)
    requires Tidy(RangesOf(t, v)) && Tidy(LegsOf(t, v))
    ensures CoverageOk(t, v, today) <==> IsCovered(t, v, today)
  {
    hide LegsOf, RangesOf, RangeOf, Has, Holds, Assigned, Chained, NoOverhang, Tidy, CurrentOrFuture, Current, Inside;
    OverhangIs(t, v);
    if NoOverhang(RangesOf(t, v), LegsOf(t, v)) {
      forall r | RowOf(t, AttendanceEnrolments, v, r)
        ensures RangeOf(r.row, t[r]) in RangesOf(t, v)
        ensures Chained(RangeOf(r.row, t[r]), LegsOf(t, v)) <==>
                  forall d: Date :: Holds(t[r], d) ==> Assigned(t, v, d, false)
        ensures Chained(RangeOf(r.row, t[r]), Live(t, LegsOf(t, v))) <==>
                  forall d: Date :: Holds(t[r], d) ==> Assigned(t, v, d, true)
        ensures CurrentOrFuture(t, v, t[r], today) == Current(t, v, t[r], today)
      {
        RowIsRange(t, v, r.row);
        RowChained(t, v, r, false);
        RowChained(t, v, r, true);
        CurrentIs(t, v, t[r], today);
      }
      forall e | e in RangesOf(t, v)
        ensures exists r :: RowOf(t, AttendanceEnrolments, v, r) && e == RangeOf(r.row, t[r])
      {
        var id := RangeIsRow(t, v, e);
        assert RowOf(t, AttendanceEnrolments, v, Ref(AttendanceEnrolments, id));
      }
    }
  }
}
