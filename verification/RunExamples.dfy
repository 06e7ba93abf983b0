// Runs from the empty tables in which a promise fails: a second cancel whose message is swallowed, a
// disable whose message is swallowed, and a reassignment the coverage trigger refuses.

module RunExamples {
  import opened Basics
  import opened Periods
  import opened Tables
  import opened LeaveWriter
  import opened CheckInOut
  import opened Leave
  import opened Lifecycle
  import opened Machine
  import opened Frames
  import opened Enrolment
  import opened LeaveLog
  import opened Notices
  import opened Messages
  import opened Reopening

  /** A tenant whose instants are minutes; office 1 starts at 9:00, every other at 11:00. */
  function World(): Env {
    Env(7, (t: Instant) => t / 1440, (t: Instant) => t % 1440, (t: Instant) => t / 43200, (d: Date) => true,
        (o: OfficeId, d: Date) => if o == 1 then Some(540) else Some(660), (t: Instant) => t)
  }

  const ENABLE := Tick(480, Enable(1, None, true, OfficeActive, true))

  /** Two days of leave from today on, entered by an admin. */
  function TwoDays(first: Date): Tick {
    Tick(481, ApplyLeave(ApplyCall(1, 9, true, true, first, first + 1, FullDay, Settings(true, true), Free, [9])))
  }

  /** The first two calls: enabled from day 0 on, with leave approved on two days. */
  lemma Opening(first: Date)
    requires 0 <= first
    ensures var env := World();
            var one := Step(env, EMPTY, 480, ENABLE.call).db;
            var two := Step(env, one, 481, TwoDays(first).call).db;
            && two.enrolments == [Period(1, 0, None, ())] && two.assignments == [Period(0, 0, None, 1)]
            && two.requests == [Request(1, 9, first, first + 1, FullDay)] && two.records == []
            && (forall k: DayKey :: k in two.days <==> k.req == 0 && first <= k.date <= first + 1)
            && (forall k: DayKey :: k in two.days ==> two.days[k] == Approved)
            && (forall e :: e in two.events ==> e.cause == ApplyOnBehalf)
  {
    var env := World();
    var one := Step(env, EMPTY, 480, ENABLE.call).db;
    EnabledFirst();
    AppliedSecond(first, one);
  }

  lemma EnabledFirst()
    ensures Step(World(), EMPTY, 480, ENABLE.call).db
         == EMPTY.(enrolments := [Period(1, 0, None, ())], assignments := [Period(0, 0, None, 1)], nextId := 2)
  {
    hide Step, Change, CoverageGuard, NoOverhang;
    assert PeriodsOk(EMPTY) by {
      EmptyOk();
    }
    EnableIsStep(World(), EMPTY, 480, 1);
    EnableCommits(World(), EMPTY, 480, 1, None);
    ChangeIsBefore<OfficeId>([], 0, true, 0, 1);
    ChangeIsBefore<()>([], 0, true, 1, ());
  }

  lemma EmptyOk()
    ensures PeriodsOk(EMPTY)
  {
  }

  lemma EnableIsStep(env: Env, db: Db, now: Instant, office: OfficeId)
    ensures Step(env, db, now, Enable(office, None, true, OfficeActive, true))
         == EnableStep(env, db, now, office, None, true, OfficeActive, true)
  {
  }

  lemma AppliedSecond(first: Date, one: Db)
    requires 0 <= first
    requires one == EMPTY.(enrolments := [Period(1, 0, None, ())], assignments := [Period(0, 0, None, 1)], nextId := 2)
    ensures var two := Step(World(), one, 481, TwoDays(first).call).db;
            && two.enrolments == one.enrolments && two.assignments == one.assignments && two.records == []
            && two.requests == [Request(1, 9, first, first + 1, FullDay)]
            && (forall k: DayKey :: k in two.days <==> k.req == 0 && first <= k.date <= first + 1)
            && (forall k: DayKey :: k in two.days ==> two.days[k] == Approved)
            && (forall e :: e in two.events ==> e.cause == ApplyOnBehalf)
  {
    var env, a := World(), TwoDays(first).call.apply;
    assert At(one.enrolments, 0) == Some(());
    assert EarliestStart(one.enrolments, CoveringDay(0)) == Some(0) by {
      assert one.enrolments[1..] == [];
    }
    assert env.working(first);
    assert FactsRefusal(env, one, 0, a).None?;
    OpenedDays(env, one, a);
  }

  // ------------------------------------------------- a second cancel, unheard

  /** The employee cancels after today's start, is moved to the later office, and cancels again. */
  function SecondCancel(): seq<Tick> {
    [ENABLE, TwoDays(0), Tick(600, CancelLeave(0, [9])), Tick(601, Reassign(2, None, true, OfficeActive, true)),
     Tick(601, CancelLeave(0, [9]))]
  }

  const TOLD_OF_CANCEL := LeaveNotice(EmployeeCancel, 9, 1, None)

  lemma FairWorld(run: seq<Tick>)
    requires Monotone(run)
    ensures FairClock(World(), run)
  {
    forall i, j | 0 <= i < j < |run|
      ensures NotBefore(World(), run[i].now, run[j].now)
    {
    }
  }

  /** The first cancel takes tomorrow and leaves today; the admin is told. */
  lemma FirstCancel(two: Db)
    requires LeaveOk(two) && two.assignments == [Period(0, 0, None, 1)]
    requires two.requests == [Request(1, 9, 0, 1, FullDay)]
    requires forall k: DayKey :: k in two.days <==> k.req == 0 && 0 <= k.date <= 1
    requires forall k: DayKey :: k in two.days ==> two.days[k] == Approved
    ensures var three := Step(World(), two, 600, CancelLeave(0, [9])).db;
            && three.requests == two.requests && three.assignments == two.assignments
            && three.enrolments == two.enrolments && three.records == two.records
            && TOLD_OF_CANCEL in three.notices
            && DayKey(0, 0) in three.days && three.days[DayKey(0, 0)] == Approved
            && exists e :: e in three.events && e.req == 0 && e.cause == EmployeeCancel
  {
    hide LeaveOk, DatesIn, TransitionDays;
    var env := World();
    DatesInAre(two, 0, {Pending, Approved});
    assert At(two.assignments, 0) == Some(1);
    assert DayKey(0, 1) in two.days && 1 in CancelDates(env, two, 600, 0);
    CancelForm(env, two, 600, 0, [9]);
    var three := CancelStep(env, two, 600, 0, [9]).db;
    CancelLogs(env, two, 600, 0, [9]);
    assert three.events[|two.events|] in three.events;
    assert DayKey(0, 0) in two.days;
    assert 9 in [9];
  }

  /** The move to the later office commits and reopens today. */
  lemma MoveReopens(three: Db)
    requires LeaveOk(three) && PeriodsOk(three)
    requires three.enrolments == [Period(1, 0, None, ())] && three.assignments == [Period(0, 0, None, 1)]
    requires three.records == [] && three.requests == [Request(1, 9, 0, 1, FullDay)] && TOLD_OF_CANCEL in three.notices
    requires DayKey(0, 0) in three.days && three.days[DayKey(0, 0)] == Approved
    requires exists e :: e in three.events && e.req == 0 && e.cause == EmployeeCancel
    ensures var call := Reassign(2, None, true, OfficeActive, true);
            Reopens(World(), three, 601, call, true)
  {
    hide LeaveOk, PeriodsOk, ReassignStep;
    var env, call := World(), Reassign(2, None, true, OfficeActive, true);
    assert three.enrolments[0] in three.enrolments;
    ReassignCommitsIff(env, three, 601, 2, None);
    var e :| e in three.events && e.req == 0 && e.cause == EmployeeCancel;
    assert At(three.assignments, 0) == Some(1);
    assert SomeoneTold(three, e);
    assert LeftToday(env, three, 601, true, e, DayKey(0, 0));
  }

  /**
   * A run on a fair clock that ends in a swallowed message: the second cancel logs a second event of
   * the request, and the admin's key is taken already.
   */
  lemma SecondCancelIsUnheard() returns (h: History)
    ensures IsHistory(World(), SecondCancel(), h) && FairClock(World(), SecondCancel())
    ensures ReopensAt(World(), SecondCancel(), h, 3, true)
    ensures var before, after := h.states[4], h.states[5];
            && |after.events| == |before.events| + 1
            && after.events[|before.events|].req == 0 && after.events[|before.events|].cause == EmployeeCancel
            && (exists e :: e in before.events && e.req == 0 && e.cause == EmployeeCancel)
            && TOLD_OF_CANCEL in before.notices && after.notices == before.notices
  {
    hide Step, LeaveOk, PeriodsOk, Told, Reopens;
    var env, run := World(), SecondCancel();
    FairWorld(run);
    h := HistoryExists(env, run);
    Opening(0);
    StateOk(env, run, h, 2);
    StateOk(env, run, h, 3);
    assert Result(h.states[1], h.replies[0]) == Step(env, h.states[0], run[0].now, run[0].call);
    assert Result(h.states[2], h.replies[1]) == Step(env, h.states[1], run[1].now, run[1].call);
    assert Result(h.states[3], h.replies[2]) == Step(env, h.states[2], run[2].now, run[2].call);
    FirstCancel(h.states[2]);
    assert Result(h.states[4], h.replies[3]) == Step(env, h.states[3], run[3].now, run[3].call);
    MoveReopens(h.states[3]);
    assert Result(h.states[5], h.replies[4]) == Step(env, h.states[4], run[4].now, run[4].call);
    StateOk(env, run, h, 4);
    CancelsAgain(h.states[3], h.states[4]);
  }

  lemma CancelsAgain(three: Db, four: Db)
    requires LeaveOk(three) && PeriodsOk(three) && LeaveOk(four)
    requires three.requests == [Request(1, 9, 0, 1, FullDay)] && TOLD_OF_CANCEL in three.notices
    requires var call := Reassign(2, None, true, OfficeActive, true);
             Reopens(World(), three, 601, call, true)
             && four == Step(World(), three, 601, call).db
    requires DayKey(0, 0) in three.days && three.days[DayKey(0, 0)] == Approved
    requires exists e :: e in three.events && e.req == 0 && e.cause == EmployeeCancel
    ensures var five := Step(World(), four, 601, CancelLeave(0, [9])).db;
            && |five.events| == |four.events| + 1
            && five.events[|four.events|].req == 0 && five.events[|four.events|].cause == EmployeeCancel
            && (exists e :: e in four.events && e.req == 0 && e.cause == EmployeeCancel)
            && TOLD_OF_CANCEL in four.notices && five.notices == four.notices
  {
    hide Step, LeaveOk, PeriodsOk, TransitionDays, DatesIn;
    var env, call := World(), Reassign(2, None, true, OfficeActive, true);
    CommitsIffGranted(env, three, 601, call);
    OfficeToday(env, three, 601, call);
    var e :| e in three.events && e.req == 0 && e.cause == EmployeeCancel;
    AgainLogs(env, four, 601, e, DayKey(0, 0), 9);
    CancelIsStep(env, four, 601, 0, [9]);
    CancelFiles(env, four, 601, 0, 9);
  }

  lemma CancelIsStep(env: Env, db: Db, now: Instant, req: nat, admins: seq<UserId>)
    ensures Step(env, db, now, CancelLeave(req, admins)) == CancelStep(env, db, now, req, admins)
  {
  }

  /** A cancel that logs an event files the admin's message only if its key is free. */
  lemma CancelFiles(env: Env, db: Db, now: Instant, req: nat, admin: UserId)
    requires LeaveOk(db) && req < |db.requests|
    requires CancelStep(env, db, now, req, [admin]).db.events != db.events
    ensures CancelStep(env, db, now, req, [admin]).db.notices
         == db.notices + {LeaveNotice(EmployeeCancel, admin, db.requests[req].key, None)}
  {
    hide LeaveOk, CancelDates, TransitionDays;
    CancelForm(env, db, now, req, [admin]);
  }

  // ---------------------------------------------------- a second disable, unheard

  /** Leave on days 1 and 2 is cut short twice: disabled from day 2, then from day 1. */
  function TwoDisables(): seq<Tick> {
    [ENABLE, TwoDays(1), Tick(482, DisableFrom(Some(2), true, true)), Tick(483, DisableFrom(Some(1), true, true))]
  }

  const TOLD_OF_DISABLE := LeaveNotice(Disable, 7, 1, None)

  lemma DisableIsStep(env: Env, db: Db, now: Instant, from: Date)
    ensures Step(env, db, now, DisableFrom(Some(from), true, true)) == DisableStep(env, db, now, Some(from), true, true)
  {
  }

  /** A disable from day `from` on sweeps day `from` of the request and leaves the approved day before it. */
  lemma SweepsFrom(db: Db, now: Instant, from: Date)
    requires LeaveOk(db) && PeriodsOk(db) && Told(7, db) && World().today(now) == 0 && 0 < from
    requires |db.requests| == 1 && DayKey(0, from) in db.days && db.days[DayKey(0, from)] == Approved
    ensures var r := Step(World(), db, now, DisableFrom(Some(from), true, true));
            && r.reply == AccessState && r.db.requests == db.requests
            && from in SweepDates(db, 0, from)
            && (DayKey(0, from - 1) in db.days && db.days[DayKey(0, from - 1)] == Approved ==>
                  DayKey(0, from - 1) in r.db.days && r.db.days[DayKey(0, from - 1)] == Approved)
  {
    hide LeaveOk, PeriodsOk, Told, DisableStep, SweepLogged, SweepDates;
    var env := World();
    DisableIsStep(env, db, now, from);
    DisableCommits(env, db, now, Some(from));
    DisableForm(env, db, now, Some(from), true, true);
    DisableSwept(env, db, now, Some(from), true, true);
    SweepDatesAre(db, 0, from);
  }

  /** The second disable cancels day 1, but the employee's message about it has its key taken. */
  lemma SecondDisableIsUnheard() returns (h: History)
    ensures IsHistory(World(), TwoDisables(), h)
    ensures var before, after := h.states[3], h.states[4];
            && TOLD_OF_DISABLE in before.notices
            && exists j :: |before.events| <= j < |after.events| && after.events[j].req == 0
                           && after.events[j].cause == Disable && 1 in after.events[j].dates
  {
    hide Step, LeaveOk, PeriodsOk, Told, SweepDates;
    var env, run := World(), TwoDisables();
    h := HistoryExists(env, run);
    Opening(1);
    assert Result(h.states[1], h.replies[0]) == Step(env, h.states[0], run[0].now, run[0].call);
    assert Result(h.states[2], h.replies[1]) == Step(env, h.states[1], run[1].now, run[1].call);
    assert Result(h.states[3], h.replies[2]) == Step(env, h.states[2], run[2].now, run[2].call);
    assert Result(h.states[4], h.replies[3]) == Step(env, h.states[3], run[3].now, run[3].call);
    StateOk(env, run, h, 2);
    StateOk(env, run, h, 3);
    assert DayKey(0, 1) in h.states[2].days && DayKey(0, 2) in h.states[2].days;
    SweepsFrom(h.states[2], 482, 2);
    DisableSwallowedIff(env, run, h, 2, 0);
    SweepsFrom(h.states[3], 483, 1);
    DisableSwallowedIff(env, run, h, 3, 0);
  }

  // ------------------------------------------------------ a refused reassignment

  /** Tracking is set to end on day 10; the office is then to change on day 5. */
  function BoundedMove(): seq<Tick> {
    [ENABLE, Tick(481, DisableFrom(Some(10), true, true)), Tick(482, Reassign(2, Some(5), true, OfficeActive, true))]
  }

  /** The employee is enrolled on day 5, and the reassignment is refused all the same. */
  lemma BoundedMoveIsRefused() returns (h: History)
    ensures IsHistory(World(), BoundedMove(), h)
    ensures At(h.states[2].enrolments, 5) == Some(()) && h.replies[2] == Refused(AssignmentGap)
  {
    hide Step, LeaveOk, PeriodsOk, Told, DisableStep, ReassignStep;
    var env, run := World(), BoundedMove();
    h := HistoryExists(env, run);
    EnabledFirst();
    assert Result(h.states[1], h.replies[0]) == Step(env, h.states[0], run[0].now, run[0].call);
    assert Result(h.states[2], h.replies[1]) == Step(env, h.states[1], run[1].now, run[1].call);
    assert Result(h.states[3], h.replies[2]) == Step(env, h.states[2], run[2].now, run[2].call);
    StateOk(env, run, h, 1);
    StateOk(env, run, h, 2);
    var one, two := h.states[1], h.states[2];
    DisableIsStep(env, one, 481, 10);
    DisableCommits(env, one, 481, Some(10));
    DisableCloses(env, one, 481, 10);
    ChangeKeepsPast(one.enrolments, 10, false, one.nextId, (), one.enrolments[0]) by {
      assert Tidy(one.enrolments);
    }
    var e := Period(1, 0, Some(10), ());
    assert e in two.enrolments && Contains(e, 5);
    TablesTidy(two);
    AtRow(two.enrolments, e, 5);
    ReassignIsStep(env, two, 482);
    ReassignCommitsIff(env, two, 482, 2, Some(5));
  }

  lemma DisableCloses(env: Env, db: Db, now: Instant, from: Date)
    requires DisableStep(env, db, now, Some(from), true, true).reply == AccessState && env.today(now) < from
    ensures DisableStep(env, db, now, Some(from), true, true).db.enrolments
         == Change(db.enrolments, from, false, db.nextId, ())
  {
    hide Change, Tidy, CoverageGuard, Sweep;
    SweepFrame(env, AfterDisable(db, from), from, |db.requests|);
  }

  lemma ReassignIsStep(env: Env, db: Db, now: Instant)
    ensures Step(env, db, now, Reassign(2, Some(5), true, OfficeActive, true))
         == ReassignStep(env, db, now, 2, Some(5), true, OfficeActive, true)
  {
  }
}
