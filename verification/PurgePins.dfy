// Whose rows can stop a person's purge: after the tool's own refusals, only a colleague's
// correction on a day the person overrode, or rows that contradict each other.

module PurgePins {
  import opened Basics
  import opened Relational
  import opened Purge
  import opened PersonPurge
  import opened PurgeTheorems

  /** The step's condition matches every row whose column holds the person. */
  predicate Covers(c: Cond, col: Col) {
    match c
    case Is(own) => own == col
    case OneOf(_, _, _) => false
    case Either(left, right) => Covers(left, col) || Covers(right, col)
  }

  lemma {:induction false} CoversHolds(s: Store, c: Cond, col: Col, x: Row, u: nat)
    requires Covers(c, col) && col in x && x[col] == u
    ensures Holds(s, c, x, u)
    decreases c
  {
    match c
    case Is(_) =>
    case Either(left, right) =>
      if Covers(left, col) {
        CoversHolds(s, left, col, x, u);
      } else {
        CoversHolds(s, right, col, x, u);
      }
  }

  lemma TakenIsCovered(t: Table, col: Col)
    requires Taken(t, col)
    ensures StepOf(t).Some? && Covers(CondOf(t), col)
  {
  }

  lemma ExpectedIsExplained(e: Edge)
    requires e in Edges() && e.rule == Restrict
    ensures Explained(e)
  {
    hide Edges;
    EdgesSane(e);
  }

  lemma UserRow(s: Store, u: nat, p: Ref)
    requires OwnedBy(s, u, p)
    ensures p.table == Users ==> Id in s[p] && s[p][Id] == u
    ensures p.table == Memberships ==> UserId in s[p] && s[p][UserId] == u
  {
    hide Plan, OwnedBy;
    OwnedIs(s, u, p);
  }

  lemma TakenIsOwned(s: Store, u: nat, r: Ref, col: Col)
    requires r in s && Taken(r.table, col) && col in s[r] && s[r][col] == u
    ensures OwnedBy(s, u, r)
  {
    hide Plan, Taken, Holds, CondOf, Covers;
    TakenIsCovered(r.table, col);
    OwnedIs(s, u, r);
    CoversHolds(s, CondOf(r.table), col, s[r], u);
  }

  /** The only keys through which a purge can be stopped. */
  lemma PinsOnlyThrough(s: Store, u: nat, e: Edge, r: Ref, p: Ref)
    requires e in Edges() && Pins(s, u, e, r, p)
    ensures Review(e) || SameEmployee(e) || e == CORRECTION_OF_OVERRIDE || e == IMPORT_OF_USER
  {
    hide Edges, Plan, Taken, OwnedBy;
    ExpectedIsExplained(e);
    OwnedHasStep(s, u, p);
    UserRow(s, u, p);
    if r.table == e.child && Taken(e.child, e.first.col) && s[r][e.first.col] == u {
      TakenIsOwned(s, u, r, e.first.col);
    }
  }

  /** The tool's refusals before it starts: the person reviewed requests, or founded a company. */
  ghost predicate Refused(s: Store, u: nat) {
    exists e, r, p :: Review(e) && Names(e, s, r, p) && OwnedBy(s, u, p) && !OwnedBy(s, u, r)
  }

  /** A leave row belongs to its request's employee, a record to its attempts' employee. */
  ghost predicate Coherent(s: Store) {
    forall e, r, p :: SameEmployee(e) && Names(e, s, r, p) && EmployeeId in s[p] ==>
      EmployeeId in s[r] && s[r][EmployeeId] == s[p][EmployeeId]
  }

  /** Every correction on a day the person overrode is about the person or by them. */
  ghost predicate CorrectionsAreOwn(s: Store, u: nat) {
    forall r, p :: Names(CORRECTION_OF_OVERRIDE, s, r, p) && OwnedBy(s, u, p) ==> OwnedBy(s, u, r)
  }

  /** The person ran no customer import. */
  ghost predicate RanNoImport(s: Store, u: nat) {
    forall r, p :: OwnedBy(s, u, p) ==> !Names(IMPORT_OF_USER, s, r, p)
  }

  lemma CoherentOwned(s: Store, u: nat, e: Edge, r: Ref, p: Ref)
    requires Coherent(s) && SameEmployee(e) && Names(e, s, r, p) && OwnedBy(s, u, p)
    ensures OwnedBy(s, u, r)
  {
    hide Coherent;
    if p.table == AttendanceAttempts {
      AttemptOwned(s, u, e, r, p);
    } else {
      RequestOwned(s, u, e, r, p);
    }
  }

  lemma AttemptOwned(s: Store, u: nat, e: Edge, r: Ref, p: Ref)
    requires Coherent(s) && SameEmployee(e) && Names(e, s, r, p) && OwnedBy(s, u, p) && p.table == AttendanceAttempts
    ensures OwnedBy(s, u, r)
  {
    hide Plan, OwnedBy;
    OwnedIs(s, u, p);
    TakenIsOwned(s, u, r, EmployeeId);
  }

  lemma RequestOwned(s: Store, u: nat, e: Edge, r: Ref, p: Ref)
    requires Coherent(s) && SameEmployee(e) && Names(e, s, r, p) && OwnedBy(s, u, p) && p.table == LeaveRequests
    ensures OwnedBy(s, u, r)
  {
    hide Plan, OwnedBy;
    OwnedIs(s, u, p);
    EitherHolds(s, Is(CreatedBy), Is(EmployeeId), s[p], u);
    IsHolds(s, CreatedBy, s[p], u);
    if EmployeeId in s[p] && s[p][EmployeeId] == u {
      TakenIsOwned(s, u, r, EmployeeId);
    } else {
      OnOwnRequest(s, u, r, p);
    }
  }

  lemma OnOwnRequest(s: Store, u: nat, r: Ref, p: Ref)
    requires r in s && p in s && (r.table == LeaveEvents || r.table == LeaveRequestDays) && p.table == LeaveRequests
    requires LeaveRequestId in s[r] && Id in s[p] && s[p][Id] == s[r][LeaveRequestId]
    requires CreatedBy in s[p] && s[p][CreatedBy] == u
    ensures OwnedBy(s, u, r)
  {
    hide Plan, OwnedBy;
    assert Holds(s, ON_OWN_REQUEST, s[r], u);
    OwnedIs(s, u, r);
  }

  /**
   * Past the tool's own refusals, and on rows that agree about their employee, the purge completes
   * exactly when every correction on a day the person overrode is about the person or by them, and
   * the person ran no customer import.
   */
  lemma PreparedPurgeCompletesIff(s: Store, u: nat)
    requires !Refused(s, u) && Coherent(s)
    ensures RunDeletes(Edges(), s, Plan(), u, STEPS).Some? <==> CorrectionsAreOwn(s, u) && RanNoImport(s, u)
  {
    hide Edges, Plan, RunDeletes, OwnedBy, Coherent, Names;
    PurgeCompletesIff(s, u);
    if Pinned(s, u) {
      var e, r, p :| e in Edges() && Pins(s, u, e, r, p);
      PinsOnlyThrough(s, u, e, r, p);
      if SameEmployee(e) {
        CoherentOwned(s, u, e, r, p);
      }
    }
    PinningEdges();
    forall r, p | Names(CORRECTION_OF_OVERRIDE, s, r, p) && OwnedBy(s, u, p) && !OwnedBy(s, u, r)
      ensures Pinned(s, u)
    {
      assert Pins(s, u, CORRECTION_OF_OVERRIDE, r, p);
    }
    forall r, p | Names(IMPORT_OF_USER, s, r, p) && OwnedBy(s, u, p)
      ensures Pinned(s, u)
    {
      NeverOwned(s, u, r, p);
      assert Pins(s, u, IMPORT_OF_USER, r, p);
    }
  }

  lemma NeverOwned(s: Store, u: nat, r: Ref, p: Ref)
    requires Names(IMPORT_OF_USER, s, r, p)
    ensures !OwnedBy(s, u, r)
  {
  }

  lemma PinningEdges()
    ensures CORRECTION_OF_OVERRIDE in Edges() && IMPORT_OF_USER in Edges()
  {
    hide ToUsers, ToMemberships, ToTenants, SilentEdges;
    assert OtherKeys()[0] == CORRECTION_OF_OVERRIDE;
  }
}
