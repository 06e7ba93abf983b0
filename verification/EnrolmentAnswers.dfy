// Which answer every enrolment change gets, and what it leaves, said on the rows of the tables.

module EnrolmentAnswers {
  import opened Basics
  import opened Periods
  import opened Tables
  import opened LeaveWriter
  import opened Lifecycle
  import opened Enrolment
  import opened Frames
  import opened LeaveLog
  import opened PunchAnswers
  import Messages

  // -------------------------------------------------------- what the rows say

  ghost predicate Enrolled(db: Db, d: Date) {
    exists e :: e in db.enrolments && e.start <= d && (e.end.None? || d < e.end.value)
  }

  ghost predicate AtOffice(db: Db, d: Date, office: OfficeId) {
    exists a :: a in db.assignments && a.start <= d && (a.end.None? || d < a.end.value) && a.load == office
  }

  /** The wanted date if it is to come, else today. */
  function From(wanted: Option<Date>, today: Date): Date {
    match wanted
    case None => today
    case Some(d) => if d > today then d else today
  }

  lemma OneLoad<T>(rows: seq<Period<T>>, d: Date, load: T)
    requires Tidy(rows)
    ensures At(rows, d) == Some(load) <==>
              exists p :: p in rows && p.start <= d && (p.end.None? || d < p.end.value) && p.load == load
  {
    AtIff(rows, d);
    if p :| p in rows && p.start <= d && (p.end.None? || d < p.end.value) && p.load == load {
      AtRow(rows, p, d);
    }
  }

  lemma Reads(db: Db, d: Date)
    requires Tidy(db.assignments)
    ensures At(db.enrolments, d).Some? <==> Enrolled(db, d)
    ensures forall office: OfficeId :: At(db.assignments, d) == Some(office) <==> AtOffice(db, d, office)
  {
    AtIff(db.enrolments, d);
    forall office: OfficeId
      ensures At(db.assignments, d) == Some(office) <==> AtOffice(db, d, office)
    {
      OneLoad(db.assignments, d, office);
    }
  }

  /** Nothing but the two enrolment tables changes. */
  ghost predicate OnlyEnrolment(db: Db, after: Db) {
    after == db.(enrolments := after.enrolments, assignments := after.assignments, nextId := after.nextId)
  }

  // ------------------------------------------------------------------- enable

  /** The day reads as before until `from`, and as enrolled at the office from then on. */
  ghost predicate EnabledFrom(db: Db, after: Db, from: Date, office: OfficeId) {
    forall d: Date ::
      && (Enrolled(after, d) <==> d >= from || Enrolled(db, d)) && OfficesFrom(db, after, from, office, d)
  }

  /** The date's office is the new one from `from` on, and as before until then. */
  ghost predicate OfficesFrom(db: Db, after: Db, from: Date, office: OfficeId, d: Date) {
    forall o: OfficeId :: AtOffice(after, d, o) <==> if d >= from then o == office else AtOffice(db, d, o)
  }

  lemma EnableReads(db: Db, from: Date, office: OfficeId)
    requires PeriodsOk(db)
    ensures EnabledFrom(db, AfterEnable(db, from, office), from, office)
  {
    hide AfterEnable, Enrolled, AtOffice, At, NoOverhang, Covered, IdsBelow;
    var after := AfterEnable(db, from, office);
    EnableKeeps(db, from, office);
    forall d: Date
      ensures Enrolled(after, d) <==> d >= from || Enrolled(db, d)
      ensures OfficesFrom(db, after, from, office, d)
    {
      Reads(db, d);
      Reads(after, d);
      EnableMeans(db, from, office, d);
    }
  }

  /**
   * Enabling: which refusal in order, none of which writes; and otherwise the date enrolled and at
   * the office from the wanted date - or today, if that has passed - on.
   */
  lemma EnableAnswer(env: Env, db: Db, now: Instant, office: OfficeId, wanted: Option<Date>, employeeOk: bool,
                     fact: OfficeFact, live: bool)
    requires PeriodsOk(db)
    ensures var r := EnableStep(env, db, now, office, wanted, employeeOk, fact, live);
            if !employeeOk then r == Result(db, Refused(EmployeeNotFound))
            else if fact == OfficeMissing then r == Result(db, Refused(OfficeNotFound))
            else if fact == OfficeArchived then r == Result(db, Refused(OfficeIsArchived))
            else if !live then r == Result(db, Refused(AssignmentGap))
            else && r.reply == AccessState && OnlyEnrolment(db, r.db)
                 && EnabledFrom(db, r.db, From(wanted, env.today(now)), office)
  {
    hide Change, CoverageGuard, EnabledFrom, NoOverhang, Covered, IdsBelow, Tidy, At, Chained, Enrolled, AtOffice,
         OfficesFrom;
    var from := Clamped(wanted, env.today(now));
    EnableKeeps(db, from, office);
    EnableReads(db, from, office);
    GuardIffCovered(AfterEnable(db, from, office).enrolments, AfterEnable(db, from, office).assignments);
  }

  // ----------------------------------------------------------------- reassign

  /** A change for today waits until tomorrow once a record of today is there. */
  ghost function MoveFrom(db: Db, wanted: Option<Date>, today: Date): Date {
    if From(wanted, today) == today && RecordedOn(db, today) then today + 1 else From(wanted, today)
  }

  ghost predicate MovedFrom(db: Db, after: Db, from: Date, office: OfficeId) {
    after.enrolments == db.enrolments && forall d: Date :: OfficesFrom(db, after, from, office, d)
  }

  lemma ReassignReads(db: Db, from: Date, office: OfficeId)
    requires PeriodsOk(db) && Tidy(AfterReassign(db, from, office).assignments)
    ensures MovedFrom(db, AfterReassign(db, from, office), from, office)
  {
    hide AfterReassign, Enrolled, AtOffice, At, NoOverhang, Covered, IdsBelow;
    var after := AfterReassign(db, from, office);
    ReassignMeans(db, from, office, from);
    forall d: Date
      ensures OfficesFrom(db, after, from, office, d)
    {
      Reads(db, d);
      Reads(after, d);
      ReassignMeans(db, from, office, d);
    }
  }

  lemma MoveFromIs(env: Env, db: Db, now: Instant, wanted: Option<Date>)
    ensures ReassignFrom(env, db, now, wanted) == MoveFrom(db, wanted, env.today(now))
  {
  }

  /** An enrolment row with, or without, an end contains the date. */
  ghost predicate RowContains(db: Db, d: Date, bounded: bool) {
    exists e :: e in db.enrolments && e.start <= d && (e.end.None? || d < e.end.value) && e.end.Some? == bounded
  }

  /**
   * Reassigning: which refusal in order, none of which writes; and otherwise at the new office from
   * its date on, with the enrolment as it was.
   */
  lemma ReassignAnswer(env: Env, db: Db, now: Instant, office: OfficeId, wanted: Option<Date>, employeeOk: bool,
                       fact: OfficeFact, live: bool)
    requires PeriodsOk(db)
    ensures var r, from := ReassignStep(env, db, now, office, wanted, employeeOk, fact, live),
                           MoveFrom(db, wanted, env.today(now));
            if !employeeOk then r == Result(db, Refused(EmployeeNotFound))
            else if fact == OfficeMissing then r == Result(db, Refused(OfficeNotFound))
            else if fact == OfficeArchived then r == Result(db, Refused(OfficeIsArchived))
            else if !Enrolled(db, from) then r == Result(db, Refused(NotEnrolled))
            else if !live || RowContains(db, from, true) then r == Result(db, Refused(AssignmentGap))
            else && r.reply == AccessState && OnlyEnrolment(db, r.db) && MovedFrom(db, r.db, from, office)
  {
    hide Change, CoverageGuard, MovedFrom, NoOverhang, Covered, IdsBelow, Tidy, At, ReassignFrom, MoveFrom, RowContains,
         Chained, Enrolled, AtOffice, OfficesFrom;
    MoveFromIs(env, db, now, wanted);
    var from := ReassignFrom(env, db, now, wanted);
    Reads(db, from);
    ReassignCommitsIff(env, db, now, office, wanted);
    ContainsIs(db, from);
    if At(db.enrolments, from).Some? {
      var e := AtWitness(db.enrolments, from);
      ReassignKeepsIff(db, from, office, e);
      ReassignReads(db, from, office);
      forall f | f in db.enrolments && Contains(f, from)
        ensures f == e
      {
        OneRowCovers(db.enrolments, e, f, from);
      }
    }
  }

  lemma ContainsIs(db: Db, d: Date)
    ensures RowContains(db, d, true) <==> exists e :: e in db.enrolments && Contains(e, d) && e.end.Some?
    ensures RowContains(db, d, false) <==> exists e :: e in db.enrolments && Contains(e, d) && e.end.None?
  {
    assert forall e :: e in db.enrolments ==>
        (Contains(e, d) <==> e.start <= d && (e.end.None? || d < e.end.value));
  }

  // ------------------------------------------------------------------ disable

  /** The sweep takes pending days, and approved days from the date on. */
  predicate Sweeps(db: Db, k: DayKey, from: Date)
    requires k in db.days
  {
    db.days[k] == Pending || (db.days[k] == Approved && k.date >= from)
  }

  ghost predicate SweepsOf(db: Db, req: nat, from: Date, dates: set<Date>) {
    forall d :: d in dates <==> DayKey(req, d) in db.days && Sweeps(db, DayKey(req, d), from)
  }

  /** Request by request: one event of the system for the days swept, in the order of the requests. */
  ghost predicate SweepEvents(db: Db, events: seq<Event>, from: Date, n: nat) {
    && |events| >= |db.events| && events[..|db.events|] == db.events
    && (forall j :: |db.events| <= j < |events| ==>
          && events[j].req < n && events[j].cause == Disable && events[j].actor == None
          && events[j].dates != {} && SweepsOf(db, events[j].req, from, events[j].dates))
    && (forall j, m :: |db.events| <= j < m < |events| ==> events[j].req < events[m].req)
    && forall k :: k in db.days && k.req < n && Sweeps(db, k, from) ==>
         exists j :: |db.events| <= j < |events| && events[j].req == k.req
  }

  /** The employee's message about every request with a day swept. */
  ghost predicate SweepMessages(employee: UserId, db: Db, notices: set<NoticeKey>, from: Date, n: nat)
    requires n <= |db.requests|
  {
    forall m :: m in notices <==>
      || m in db.notices
      || exists k :: k in db.days && k.req < n && Sweeps(db, k, from)
                     && m == LeaveNotice(Disable, employee, db.requests[k.req].key, None)
  }

  lemma SweptDatesAre(db: Db, mid: Db, req: nat, from: Date)
    requires mid.days == db.days
    ensures SweepsOf(db, req, from, SweepDates(mid, req, from))
  {
    SweepDatesAre(mid, req, from);
  }

  lemma OneSwept(employee: UserId, db: Db, mid: Db, from: Date, req: nat, dates: set<Date>)
    requires req < |db.requests| && mid.requests == db.requests && SweepsOf(db, req, from, dates)
    requires SweepEvents(db, mid.events, from, req) && SweepMessages(employee, db, mid.notices, from, req)
    ensures var after := if dates == {} then mid
                         else WriteDays(mid, req, dates, Cancelled, Disable, None, [employee], None);
            SweepEvents(db, after.events, from, req + 1) && SweepMessages(employee, db, after.notices, from, req + 1)
  {
    assert forall k: DayKey :: k == DayKey(k.req, k.date);
    hide Sweeps;
    if dates == {} {
      assert forall k :: k in db.days && k.req == req && Sweeps(db, k, from) ==> k.date in dates;
    } else {
      var d := Member(dates);
      SweepEventAdded(db, mid.events, from, req, dates);
      var k := DayKey(req, d);
      assert k in db.days && Sweeps(db, k, from);
      MessageAdded(employee, db, mid.notices, from, req, k);
    }
  }

  lemma SweepEventAdded(db: Db, events: seq<Event>, from: Date, req: nat, dates: set<Date>)
    requires SweepEvents(db, events, from, req) && SweepsOf(db, req, from, dates) && dates != {}
    ensures SweepEvents(db, events + [Event(req, Disable, None, dates)], from, req + 1)
  {
    hide Sweeps, SweepsOf;
    var after := events + [Event(req, Disable, None, dates)];
    forall k | k in db.days && k.req < req + 1 && Sweeps(db, k, from)
      ensures exists j :: |db.events| <= j < |after| && after[j].req == k.req
    {
      if k.req < req {
        var j :| |db.events| <= j < |events| && events[j].req == k.req;
        assert after[j] == events[j];
      } else {
        assert after[|events|].req == k.req;
      }
    }
  }

  lemma MessageAdded(employee: UserId, db: Db, notices: set<NoticeKey>, from: Date, req: nat, k: DayKey)
    requires req < |db.requests| && k in db.days && k.req == req && Sweeps(db, k, from)
    requires SweepMessages(employee, db, notices, from, req)
    ensures SweepMessages(employee, db, notices + LeaveWriter.Notices(Disable, [employee], db.requests[req].key, None),
                          from, req + 1)
  {
    hide Sweeps;
  }

  lemma {:induction false} SweepIs(env: Env, db: Db, from: Date, n: nat)
    requires LeaveOk(db) && n <= |db.requests|
    ensures var r := Sweep(env, db, from, n);
            && r.Some? && r.value.requests == db.requests
            && SweepEvents(db, r.value.events, from, n) && SweepMessages(env.employee, db, r.value.notices, from, n)
  {
    hide LeaveOk, Swept, SweepEvents, SweepMessages, SweepsOf, WriteDays, SweepDates, Matching;
    SweepSucceeds(env, db, from, n);
    if n == 0 {
      NothingSwept(env.employee, db, from);
    } else {
      SweepIs(env, db, from, n - 1);
      SweptDatesAre(db, db, n - 1, from);
      OneSwept(env.employee, db, Sweep(env, db, from, n - 1).value, from, n - 1, SweepDates(db, n - 1, from));
    }
  }

  lemma NothingSwept(employee: UserId, db: Db, from: Date)
    ensures SweepEvents(db, db.events, from, 0) && SweepMessages(employee, db, db.notices, from, 0)
  {
  }

  /** The day reads as before until `from`, and as neither enrolled nor assigned from then on. */
  ghost predicate DisabledFrom(db: Db, after: Db, from: Date) {
    forall d: Date :: DisabledOn(db, after, from, d)
  }

  ghost predicate DisabledOn(db: Db, after: Db, from: Date, d: Date) {
    && (Enrolled(after, d) <==> d < from && Enrolled(db, d))
    && forall o: OfficeId :: AtOffice(after, d, o) <==> d < from && AtOffice(db, d, o)
  }

  lemma DisableReads(db: Db, from: Date, after: Db)
    requires PeriodsOk(db) && after.enrolments == AfterDisable(db, from).enrolments
    requires after.assignments == AfterDisable(db, from).assignments
    ensures DisabledFrom(db, after, from)
  {
    hide AfterDisable, Enrolled, AtOffice, At, NoOverhang, Covered, IdsBelow;
    DisableKeeps(db, from);
    forall d: Date
      ensures DisabledOn(db, after, from, d)
    {
      Reads(db, d);
      Reads(after, d);
      DisableMeans(db, from, d);
    }
  }

  /** What the sweep leaves of the leave tables. */
  ghost predicate SweptFrom(employee: UserId, db: Db, after: Db, from: Date) {
    && after.days.Keys == db.days.Keys
    && (forall k :: k in db.days ==> after.days[k] == if k.req < |db.requests| && Sweeps(db, k, from) then Cancelled
                                                       else db.days[k])
    && SweepEvents(db, after.events, from, |db.requests|)
    && SweepMessages(employee, db, after.notices, from, |db.requests|)
  }

  lemma ClosedSweep(env: Env, db: Db, from: Date)
    requires LeaveOk(db)
    ensures var r := Sweep(env, AfterDisable(db, from), from, |db.requests|);
            && r.Some? && SweptFrom(env.employee, db, r.value, from)
            && r.value == db.(days := r.value.days, events := r.value.events, notices := r.value.notices,
                              enrolments := AfterDisable(db, from).enrolments,
                              assignments := AfterDisable(db, from).assignments)
  {
    hide Change;
    var closed := AfterDisable(db, from);
    LeaveOkReads(db, closed);
    SweepSucceeds(env, closed, from, |db.requests|);
    SweepIs(env, closed, from, |db.requests|);
    SweepFrame(env, closed, from, |db.requests|);
    SameSweepReads(env.employee, db, closed, Sweep(env, closed, from, |db.requests|).value, from);
  }

  lemma SameSweepReads(employee: UserId, db: Db, closed: Db, after: Db, from: Date)
    requires closed.days == db.days && closed.events == db.events && closed.notices == db.notices
    requires closed.requests == db.requests
    requires SweepEvents(closed, after.events, from, |db.requests|)
    requires SweepMessages(employee, closed, after.notices, from, |db.requests|)
    requires Swept(closed.days, after.days, from, |db.requests|)
    ensures SweptFrom(employee, db, after, from)
  {
    forall req: nat, dates: set<Date>
      ensures SweepsOf(closed, req, from, dates) == SweepsOf(db, req, from, dates)
    {
    }
    forall k | k in db.days
      ensures Sweeps(closed, k, from) == Sweeps(db, k, from)
    {
    }
    hide SweepsOf, Sweeps;
    assert forall k :: k in db.days ==>
        (Sweeps(db, k, from) <==> db.days[k] == Pending || (db.days[k] == Approved && k.date >= from)) by {
      SweepsMeans(db, from);
    }
  }

  lemma SweepsMeans(db: Db, from: Date)
    ensures forall k :: k in db.days ==>
              (Sweeps(db, k, from) <==> db.days[k] == Pending || (db.days[k] == Approved && k.date >= from))
  {
  }

  /**
   * Disabling: refused for an unknown employee or by the archived-office check, and then nothing is
   * written; otherwise neither enrolled nor assigned from its date on, with the leave swept.
   */
  lemma DisableAnswer(env: Env, db: Db, now: Instant, wanted: Option<Date>, employeeOk: bool, live: bool)
    requires PeriodsOk(db) && LeaveOk(db)
    ensures var r, from := DisableStep(env, db, now, wanted, employeeOk, live), From(wanted, env.today(now));
            if !employeeOk then r == Result(db, Refused(EmployeeNotFound))
            else if !live then r == Result(db, Refused(AssignmentGap))
            else && r.reply == AccessState && DisabledFrom(db, r.db, from) && SweptFrom(env.employee, db, r.db, from)
                 && r.db == db.(enrolments := r.db.enrolments, assignments := r.db.assignments, days := r.db.days,
                                events := r.db.events, notices := r.db.notices)
  {
    var from := Clamped(wanted, env.today(now));
    ClosedSweep(env, db, from);
    DisableKeeps(db, from);
    DisableReads(db, from, AfterDisable(db, from));
    var swept := Sweep(env, AfterDisable(db, from), from, |db.requests|).value;
    DisableReads(db, from, swept);
    GuardIffCovered(swept.enrolments, swept.assignments);
    hide Change, CoverageGuard, DisabledFrom, SweptFrom, NoOverhang, Covered, IdsBelow, Tidy, Sweep, LeaveOk;
  }
}
