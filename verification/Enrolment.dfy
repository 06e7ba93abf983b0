// Enrolment over whole runs: the tables stay tidy without any database constraint, every
// enrolled date has exactly one office, the past is never rewritten, and the coverage trigger
// fires in exactly one case.

module Enrolment {
  import opened Basics
  import opened Periods
  import opened Tables
  import opened LeaveWriter
  import opened CheckInOut
  import opened Leave
  import opened Lifecycle
  import opened Corrections
  import opened Machine
  import opened Frames

  ghost predicate Covered(enrolments: seq<Period<()>>, assignments: seq<Period<OfficeId>>) {
    forall d: Date :: At(enrolments, d).Some? ==> At(assignments, d).Some?
  }

  ghost predicate PeriodsOk(db: Db) {
    && Tidy(db.enrolments) && Tidy(db.assignments)
    && IdsBelow(db.enrolments, db.nextId) && IdsBelow(db.assignments, db.nextId)
    && NoOverhang(db.enrolments, db.assignments)
    && Covered(db.enrolments, db.assignments)
  }

  // ------------------------------------------------- the trigger is satisfied

  lemma LegOver(es: seq<Period<()>>, legs: seq<Period<OfficeId>>, e: Period<()>, d: Date)
    returns (a: Period<OfficeId>)
    requires Tidy(es) && Tidy(legs) && NoOverhang(es, legs) && Covered(es, legs)
    requires e in es && Contains(e, d)
    ensures Leg(a, legs, e) && Contains(a, d)
  {
    AtRow(es, e, d);
    a := AtWitness(legs, d);
    var f :| f in es && Within(a, f);
    OneRowCovers(es, e, f, d);
  }

  lemma LegsMeet(es: seq<Period<()>>, legs: seq<Period<OfficeId>>, e: Period<()>, p: Period<OfficeId>,
                 q: Period<OfficeId>)
    requires Tidy(es) && Tidy(legs) && NoOverhang(es, legs) && Covered(es, legs)
    requires e in es && Consecutive(p, q, legs, e)
    ensures p.end == Some(q.start)
  {
    TidyPair(legs, p, q);
    TidyRow(legs, p);
    TidyRow(legs, q);
    if p.end.value < q.start {
      var r := LegOver(es, legs, e, p.end.value);
      TidyPair(legs, p, r);
    }
  }

  function LatestBound(rows: seq<Period<OfficeId>>): (m: Date)
    ensures forall p :: p in rows && p.end.Some? ==> p.end.value <= m
  {
    if rows == [] then 0
    else Max(LatestBound(rows[1..]), if rows[0].end.Some? then rows[0].end.value else 0)
  }

  lemma LegToEnd(es: seq<Period<()>>, legs: seq<Period<OfficeId>>, e: Period<()>) returns (a: Period<OfficeId>)
    requires Tidy(es) && Tidy(legs) && NoOverhang(es, legs) && Covered(es, legs)
    requires e in es
    ensures Leg(a, legs, e) && a.end == e.end
  {
    TidyRow(es, e);
    a := LegOver(es, legs, e, if e.end.Some? then e.end.value - 1 else Max(e.start, LatestBound(legs)));
  }

  /** Tidy tables without overhang whose enrolled dates are all assigned pass the trigger. */
  lemma GuardHolds(es: seq<Period<()>>, legs: seq<Period<OfficeId>>)
    requires Tidy(es) && Tidy(legs) && NoOverhang(es, legs) && Covered(es, legs)
    ensures CoverageGuard(es, legs)
  {
    forall e | e in es
      ensures Chained(e, legs)
    {
      TidyRow(es, e);
      var first := LegOver(es, legs, e, e.start);
      var last := LegToEnd(es, legs, e);
      forall p, q | Consecutive(p, q, legs, e)
        ensures p.end == Some(q.start)
      {
        LegsMeet(es, legs, e, p, q);
      }
    }
  }

  /** Conversely, the trigger's chain puts an office on every enrolled date. */
  lemma ChainCovers(e: Period<()>, legs: seq<Period<OfficeId>>, d: Date)
    requires Chained(e, legs) && Tidy(legs) && Contains(e, d)
    ensures exists a :: Leg(a, legs, e) && Contains(a, d)
  {
    var first :| Leg(first, legs, e) && first.start == e.start;
    var p := LastLegFrom(e, legs, legs, first, d);
    if !Contains(p, d) {
      TidyRow(legs, p);
      var last :| Leg(last, legs, e) && last.end == e.end;
      TidyRow(legs, last);
      if last.start <= p.start {
        if last != p {
          TidyPair(legs, p, last);
        }
      } else {
        var q := NextLeg(e, legs, legs, p, last);
        assert Consecutive(p, q, legs, e);
      }
    }
  }

  /** The leg with the latest start not after `d`. */
  lemma {:induction false} LastLegFrom(e: Period<()>, legs: seq<Period<OfficeId>>, rows: seq<Period<OfficeId>>,
                                       best: Period<OfficeId>, d: Date) returns (p: Period<OfficeId>)
    requires Leg(best, legs, e) && best.start <= d
    requires forall r :: Leg(r, legs, e) && best.start < r.start <= d ==> r in rows
    ensures Leg(p, legs, e) && best.start <= p.start <= d
    ensures forall r :: Leg(r, legs, e) && r.start <= d ==> r.start <= p.start
    decreases |rows|
  {
    if rows == [] {
      p := best;
    } else if Leg(rows[0], legs, e) && best.start < rows[0].start <= d {
      p := LastLegFrom(e, legs, rows[1..], rows[0], d);
    } else {
      p := LastLegFrom(e, legs, rows[1..], best, d);
    }
  }

  /** The leg with the earliest start after `p`'s. */
  lemma {:induction false} NextLeg(e: Period<()>, legs: seq<Period<OfficeId>>, rows: seq<Period<OfficeId>>,
                                   p: Period<OfficeId>, best: Period<OfficeId>) returns (q: Period<OfficeId>)
    requires Leg(p, legs, e) && Leg(best, legs, e) && p.start < best.start
    requires forall r :: Leg(r, legs, e) && p.start < r.start < best.start ==> r in rows
    ensures Leg(q, legs, e) && p.start < q.start
    ensures forall r :: Leg(r, legs, e) ==> r.start <= p.start || q.start <= r.start
    decreases |rows|
  {
    if rows == [] {
      q := best;
    } else if Leg(rows[0], legs, e) && p.start < rows[0].start < best.start {
      q := NextLeg(e, legs, rows[1..], p, rows[0]);
    } else {
      q := NextLeg(e, legs, rows[1..], p, best);
    }
  }

  lemma GuardCovers(es: seq<Period<()>>, legs: seq<Period<OfficeId>>)
    requires Tidy(es) && Tidy(legs) && CoverageGuard(es, legs)
    ensures Covered(es, legs)
  {
    hide Chained, NoOverhang, CoverageGuard;
    forall d: Date | At(es, d).Some?
      ensures At(legs, d).Some?
    {
      GuardCoversDate(es, legs, d);
    }
  }

  lemma GuardCoversDate(es: seq<Period<()>>, legs: seq<Period<OfficeId>>, d: Date)
    requires Tidy(es) && Tidy(legs) && CoverageGuard(es, legs) && At(es, d).Some?
    ensures At(legs, d).Some?
  {
    hide Chained, NoOverhang;
    var e := AtWitness(es, d);
    assert Chained(e, legs);
    ChainCovers(e, legs, d);
    var a :| Leg(a, legs, e) && Contains(a, d);
    AtRow(legs, a, d);
  }

  /** The trigger accepts exactly the tables in which enrolled and assigned dates match row by row. */
  lemma GuardIffCovered(es: seq<Period<()>>, legs: seq<Period<OfficeId>>)
    requires Tidy(es) && Tidy(legs)
    ensures CoverageGuard(es, legs) <==> NoOverhang(es, legs) && Covered(es, legs)
  {
    hide Chained, NoOverhang, Covered, Tidy;
    if CoverageGuard(es, legs) {
      GuardCovers(es, legs);
    } else if NoOverhang(es, legs) && Covered(es, legs) {
      GuardHolds(es, legs);
    }
  }

  // ---------------------------------------------------------- the three calls

  /** An assignment cut at `from` still lies within one enrolment cut at `from`. */
  lemma CutStaysWithin(db: Db, from: Date, insertE: bool, idE: nat, insertA: bool, office: OfficeId,
                       a: Period<OfficeId>)
    requires PeriodsOk(db)
    requires a in Change(db.assignments, from, insertA, db.nextId, office)
    requires a != Period(db.nextId, from, None, office)
    ensures exists e :: e in Change(db.enrolments, from, insertE, idE, ()) && Within(a, e)
    ensures exists e :: e in db.enrolments && Within(a, e)
  {
    ChangeLeavesNoOther(db.assignments, from, insertA, db.nextId, office, a);
    var b :| b in db.assignments && b.start < from && b.start == a.start
             && (a == b || (Contains(b, from) && a == b.(end := Some(from)))) && a.end.Some? && a.end.value <= from
      by {
        if a in db.assignments {
          TidyRow(db.assignments, a);
        }
      }
    var e :| e in db.enrolments && Within(b, e);
    ChangeKeepsPast(db.enrolments, from, insertE, idE, (), e);
    if e.end.Some? && e.end.value <= from {
      assert b.end.Some? && b.end.value <= e.end.value;
      assert !Contains(b, from);
      assert a == b;
      assert Within(a, e);
    } else {
      assert Within(a, e.(end := Some(from)));
    }
  }

  lemma InsertedRow<T>(rows: seq<Period<T>>, from: Date, id: nat, load: T)
    requires Tidy(rows)
    ensures Period(id, from, None, load) in Change(rows, from, true, id, load)
  {
    ChangeIsBefore(rows, from, true, id, load);
    assert Change(rows, from, true, id, load)[|Before(rows, from)|] == Period(id, from, None, load);
  }

  lemma EnableKeeps(db: Db, from: Date, office: OfficeId)
    requires PeriodsOk(db)
    ensures PeriodsOk(AfterEnable(db, from, office))
  {
    var after := AfterEnable(db, from, office);
    ChangeRefines(db.assignments, from, true, db.nextId, office);
    ChangeRefines(db.enrolments, from, true, db.nextId + 1, ());
    InsertedRow(db.enrolments, from, db.nextId + 1, ());
    forall a | a in after.assignments
      ensures exists e :: e in after.enrolments && Within(a, e)
    {
      if a == Period(db.nextId, from, None, office) {
        assert Within(a, Period(db.nextId + 1, from, None, ()));
      } else {
        CutStaysWithin(db, from, true, db.nextId + 1, true, office, a);
      }
    }
  }

  lemma DisableKeeps(db: Db, from: Date)
    requires PeriodsOk(db)
    ensures PeriodsOk(AfterDisable(db, from))
  {
    var after := AfterDisable(db, from);
    ChangeRefines(db.assignments, from, false, db.nextId, 0);
    ChangeRefines(db.enrolments, from, false, db.nextId, ());
    forall a | a in after.assignments
      ensures exists e :: e in after.enrolments && Within(a, e)
    {
      ChangeLeavesNoOther(db.assignments, from, false, db.nextId, 0, a);
      CutStaysWithin(db, from, false, db.nextId, false, 0, a);
    }
    forall p | p in after.assignments
      ensures p.id < db.nextId
    {
      ChangeLeavesNoOther(db.assignments, from, false, db.nextId, 0, p);
    }
    forall p | p in after.enrolments
      ensures p.id < db.nextId
    {
      ChangeLeavesNoOther(db.enrolments, from, false, db.nextId, (), p);
    }
  }

  /** The reassignment itself is sound exactly when the enrolment it falls in has no end. */
  lemma ReassignKeepsIff(db: Db, from: Date, office: OfficeId, e: Period<()>)
    requires PeriodsOk(db) && e in db.enrolments && Contains(e, from)
    ensures e.end.None? <==> NoOverhang(db.enrolments, AfterReassign(db, from, office).assignments)
    ensures e.end.None? ==> PeriodsOk(AfterReassign(db, from, office))
    ensures Tidy(AfterReassign(db, from, office).assignments)
  {
    var after := AfterReassign(db, from, office);
    var added := Period(db.nextId, from, None, office);
    ChangeRefines(db.assignments, from, true, db.nextId, office);
    InsertedRow(db.assignments, from, db.nextId, office);
    if e.end.None? {
      forall a | a in after.assignments
        ensures exists f :: f in db.enrolments && Within(a, f)
      {
        if a == added {
          assert Within(a, e);
        } else {
          CutStaysWithin(db, from, true, db.nextId, true, office, a);
        }
      }
    } else if NoOverhang(db.enrolments, after.assignments) {
      var f :| f in db.enrolments && Within(added, f);
      OneRowCovers(db.enrolments, e, f, from);
    }
  }

  // ------------------------------------------------------ what each call means

  /** Enabling: from the date on, enrolled and assigned to the office; before it, as it was. */
  lemma EnableMeans(db: Db, from: Date, office: OfficeId, d: Date)
    requires PeriodsOk(db)
    ensures var after := AfterEnable(db, from, office);
            && At(after.enrolments, d) == (if d < from then At(db.enrolments, d) else Some(()))
            && At(after.assignments, d) == (if d < from then At(db.assignments, d) else Some(office))
  {
    hide Change;
    ChangeRefines(db.assignments, from, true, db.nextId, office);
    ChangeRefines(db.enrolments, from, true, db.nextId + 1, ());
  }

  /** Reassigning: from the date on, the office; the enrolment is untouched. */
  lemma ReassignMeans(db: Db, from: Date, office: OfficeId, d: Date)
    requires PeriodsOk(db)
    ensures var after := AfterReassign(db, from, office);
            && after.enrolments == db.enrolments
            && At(after.assignments, d) == if d < from then At(db.assignments, d) else Some(office)
  {
    hide Change;
    ChangeRefines(db.assignments, from, true, db.nextId, office);
  }

  /** Disabling: from the date on, neither; before it, as it was. */
  lemma DisableMeans(db: Db, from: Date, d: Date)
    requires PeriodsOk(db)
    ensures var after := AfterDisable(db, from);
            && At(after.enrolments, d) == (if d < from then At(db.enrolments, d) else None)
            && At(after.assignments, d) == (if d < from then At(db.assignments, d) else None)
  {
    hide Change;
    ChangeRefines(db.assignments, from, false, db.nextId, 0);
    ChangeRefines(db.enrolments, from, false, db.nextId, ());
  }

  // ------------------------------------------------------------ when they commit

  /** Enabling always commits: neither the exclusion constraint nor the trigger can refuse it. */
  lemma EnableCommits(env: Env, db: Db, now: Instant, office: OfficeId, startDate: Option<Date>)
    requires PeriodsOk(db)
    ensures EnableStep(env, db, now, office, startDate, true, OfficeActive, true)
         == Result(AfterEnable(db, Clamped(startDate, env.today(now)), office), AccessState)
  {
    hide Change, Tidy, NoOverhang, Covered, CoverageGuard, IdsBelow;
    var from := Clamped(startDate, env.today(now));
    EnableKeeps(db, from, office);
    GuardIffCovered(AfterEnable(db, from, office).enrolments, AfterEnable(db, from, office).assignments);
  }

  /**
   * Reassigning commits if and only if an open-ended enrolment covers the date it takes effect.
   * On a bounded one - the employee's end, or a later re-start, is already planned - the new
   * unbounded assignment would reach past it, and the trigger refuses the whole call.
   */
  lemma ReassignCommitsIff(env: Env, db: Db, now: Instant, office: OfficeId, effective: Option<Date>)
    requires PeriodsOk(db)
    ensures var from := ReassignFrom(env, db, now, effective);
            var r := ReassignStep(env, db, now, office, effective, true, OfficeActive, true);
            && (r.reply == AccessState <==> exists e :: e in db.enrolments && Contains(e, from) && e.end.None?)
            && (r.reply == AccessState ==> r.db == AfterReassign(db, from, office))
            && (r.reply == Refused(AssignmentGap) <==>
                  exists e :: e in db.enrolments && Contains(e, from) && e.end.Some?)
  {
    hide Change, Tidy, NoOverhang, Covered, CoverageGuard, IdsBelow, At, ReassignFrom;
    var from := ReassignFrom(env, db, now, effective);
    if At(db.enrolments, from).Some? {
      var e := AtWitness(db.enrolments, from);
      ReassignKeepsIff(db, from, office, e);
      GuardIffCovered(db.enrolments, AfterReassign(db, from, office).assignments);
      forall f | f in db.enrolments && Contains(f, from)
        ensures f == e
      {
        OneRowCovers(db.enrolments, e, f, from);
      }
    } else {
      forall f | f in db.enrolments
        ensures !Contains(f, from)
      {
        if Contains(f, from) {
          AtRow(db.enrolments, f, from);
        }
      }
    }
  }

  // ------------------------------------------------------------------- runs

  lemma ReassignKeeps(env: Env, db: Db, now: Instant, call: Call)
    requires PeriodsOk(db) && call.Reassign?
    ensures var r := Step(env, db, now, call); PeriodsOk(r.db) && r.reply != Broken(PeriodClash)
  {
    hide PeriodsOk, Change, Tidy, NoOverhang, Covered, CoverageGuard, IdsBelow, At, ReassignFrom;
    var from := ReassignFrom(env, db, now, call.effective);
    var after := AfterReassign(db, from, call.office);
    TablesTidy(db);
    if At(db.enrolments, from).Some? {
      var e := AtWitness(db.enrolments, from);
      ReassignKeepsIff(db, from, call.office, e);
      if e.end.Some? {
        GuardIffCovered(after.enrolments, after.assignments);
      }
    }
  }

  lemma TablesTidy(db: Db)
    requires PeriodsOk(db)
    ensures Tidy(db.enrolments) && Tidy(db.assignments)
  {
  }

  lemma EnableKeepsStep(env: Env, db: Db, now: Instant, call: Call)
    requires PeriodsOk(db) && call.Enable?
    ensures var r := Step(env, db, now, call); PeriodsOk(r.db) && r.reply != Broken(PeriodClash)
  {
    hide PeriodsOk, Change, Tidy, CoverageGuard;
    var from := Clamped(call.startDate, env.today(now));
    EnableKeeps(db, from, call.office);
    TablesTidy(AfterEnable(db, from, call.office));
  }

  lemma DisableKeepsStep(env: Env, db: Db, now: Instant, call: Call)
    requires PeriodsOk(db) && call.DisableFrom?
    ensures var r := Step(env, db, now, call); PeriodsOk(r.db) && r.reply != Broken(PeriodClash)
  {
    hide PeriodsOk, Change, Tidy, CoverageGuard, Sweep;
    var from := Clamped(call.effective, env.today(now));
    DisableKeeps(db, from);
    TablesTidy(AfterDisable(db, from));
    SweepFrame(env, AfterDisable(db, from), from, |db.requests|);
    var r := Step(env, db, now, call).db;
    if r != db {
      PeriodsRead(AfterDisable(db, from), r);
    }
  }

  lemma PeriodsRead(db: Db, other: Db)
    requires PeriodsOk(db)
    requires other.enrolments == db.enrolments && other.assignments == db.assignments && other.nextId == db.nextId
    ensures PeriodsOk(other)
  {
  }

  /** Every call keeps the tables sound; the exclusion constraint never fires. */
  lemma StepKeepsPeriods(env: Env, db: Db, now: Instant, call: Call)
    requires PeriodsOk(db)
    ensures PeriodsOk(Step(env, db, now, call).db)
    ensures Step(env, db, now, call).reply != Broken(PeriodClash)
  {
    hide PeriodsOk, Step;
    match call
    case Enable(_, _, _, _, _) => EnableKeepsStep(env, db, now, call);
    case Reassign(_, _, _, _, _) => ReassignKeeps(env, db, now, call);
    case DisableFrom(_, _, _) => DisableKeepsStep(env, db, now, call);
    case _ =>
      StepFrame(env, db, now, call);
      PeriodsRead(db, Step(env, db, now, call).db);
      NoClashElsewhere(env, db, now, call);
  }

  lemma NoClashElsewhere(env: Env, db: Db, now: Instant, call: Call)
    requires !call.Enable? && !call.Reassign? && !call.DisableFrom?
    ensures Step(env, db, now, call).reply != Broken(PeriodClash)
  {
    hide TransitionDays, FactsRefusal, PutRefusal, AutoCancel, FindKey, FindRecord, FindByAttempt, LogAttempt;
  }

  lemma {:induction false} RunPeriodsOk(env: Env, run: seq<Tick>)
    ensures PeriodsOk(Run(env, run))
  {
    hide Step;
    if run != [] {
      var n := |run| - 1;
      RunPeriodsOk(env, run[..n]);
      RunStep(env, run);
      StepKeepsPeriods(env, Run(env, run[..n]), run[n].now, run[n].call);
    }
  }

  lemma OneRowPerDate(db: Db, d: Date)
    requires PeriodsOk(db)
    ensures At(db.enrolments, d).Some? <==> exists a :: a in db.assignments && Contains(a, d)
    ensures forall a, b :: a in db.assignments && b in db.assignments && Contains(a, d) && Contains(b, d) ==> a == b
    ensures forall e, f :: e in db.enrolments && f in db.enrolments && Contains(e, d) && Contains(f, d) ==> e == f
  {
    if At(db.enrolments, d).Some? {
      var a := AtWitness(db.assignments, d);
    } else if a :| a in db.assignments && Contains(a, d) {
      var e :| e in db.enrolments && Within(a, e);
      AtRow(db.enrolments, e, d);
    }
    forall a, b | a in db.assignments && b in db.assignments && Contains(a, d) && Contains(b, d)
      ensures a == b
    {
      OneRowCovers(db.assignments, a, b, d);
    }
    forall e, f | e in db.enrolments && f in db.enrolments && Contains(e, d) && Contains(f, d)
      ensures e == f
    {
      OneRowCovers(db.enrolments, e, f, d);
    }
  }

  /**
   * In every run a date is enrolled exactly if an assignment row covers it, and no second
   * enrolment or assignment row ever does.
   */
  lemma OneOfficePerEnrolledDate(env: Env, run: seq<Tick>, h: History, n: nat, d: Date)
    requires IsHistory(env, run, h) && n <= |run|
    ensures var db := h.states[n];
            && (At(db.enrolments, d).Some? <==> exists a :: a in db.assignments && Contains(a, d))
            && (forall a, b :: a in db.assignments && b in db.assignments && Contains(a, d) && Contains(b, d) ==> a == b)
            && (forall e, f :: e in db.enrolments && f in db.enrolments && Contains(e, d) && Contains(f, d) ==> e == f)
  {
    hide Run, Step, PeriodsOk;
    HistoryIsRun(env, run, h, n);
    RunPeriodsOk(env, run[..n]);
    OneRowPerDate(h.states[n], d);
  }

  // ----------------------------------------------------------- the past is fixed

  /** What a call leaves the tables saying about one date. */
  ghost predicate SameDay(before: Db, after: Db, d: Date) {
    At(after.enrolments, d) == At(before.enrolments, d) && At(after.assignments, d) == At(before.assignments, d)
  }

  /** No call changes what the tables say about a date before the tenant's today. */
  lemma StepKeepsPast(env: Env, db: Db, now: Instant, call: Call, d: Date)
    requires PeriodsOk(db) && d < env.today(now)
    ensures SameDay(db, Step(env, db, now, call).db, d)
  {
    hide Change, Tidy, NoOverhang, CoverageGuard, At;
    match call
    case Enable(office, start, ok, fact, live) =>
      EnableMeans(db, Clamped(start, env.today(now)), office, d);
    case Reassign(office, effective, ok, fact, live) =>
      ReassignMeans(db, ReassignFrom(env, db, now, effective), office, d);
    case DisableFrom(effective, ok, live) =>
      var from := Clamped(effective, env.today(now));
      SweepFrame(env, AfterDisable(db, from), from, |db.requests|);
      DisableMeans(db, from, d);
    case _ =>
      hide Step;
      StepFrame(env, db, now, call);
  }

  /** While every call is made on a date after `d`, the enrolment and the office of `d` do not change. */
  lemma {:induction false} PastNeverChanges(env: Env, run: seq<Tick>, h: History, m: nat, n: nat, d: Date)
    requires IsHistory(env, run, h) && m <= n <= |run|
    requires forall i :: m <= i < n ==> d < env.today(run[i].now)
    ensures At(h.states[n].enrolments, d) == At(h.states[m].enrolments, d)
    ensures At(h.states[n].assignments, d) == At(h.states[m].assignments, d)
    decreases n
  {
    hide Step, Run, At, PeriodsOk;
    if m < n {
      PastNeverChanges(env, run, h, m, n - 1, d);
      HistoryIsRun(env, run, h, n - 1);
      RunPeriodsOk(env, run[..n - 1]);
      StepKeepsPast(env, h.states[n - 1], run[n - 1].now, run[n - 1].call, d);
    }
  }

  /** A reassignment after today's check-in leaves today's office alone. */
  lemma ReassignSparesCheckedInDay(env: Env, db: Db, now: Instant, call: Call)
    requires PeriodsOk(db) && call.Reassign?
    requires exists r :: r in db.records && r.workDate == env.today(now)
    ensures At(Step(env, db, now, call).db.assignments, env.today(now)) == At(db.assignments, env.today(now))
  {
    hide Change, Tidy, NoOverhang, Covered, CoverageGuard, IdsBelow, At;
    ChangeRefines(db.assignments, ReassignFrom(env, db, now, call.effective), true, db.nextId, call.office);
  }
}
