// Every call keeps the log's promises, so they hold in every run, on any clock and for any offices:
// requests are applied for, approved and rejected at most once and those messages are never
// swallowed; and exactly when a disable's message is.

module Messages {
  import opened Basics
  import opened Periods
  import opened Tables
  import opened LeaveWriter
  import opened CheckInOut
  import opened Leave
  import opened Lifecycle
  import opened Corrections
  import opened Machine
  import opened Frames
  import opened Enrolment
  import opened LeaveLog
  import opened Exclusion
  import opened Notices

  /** An action that moves days is the first of its kind if it approves or rejects, and takes all pending days. */
  lemma ActTells(env: Env, db: Db, now: Instant, req: nat, action: OwnerAction)
    requires LeaveOk(db) && Told(env.employee, db) && ActionDates(env, db, now, req, action) != {}
    ensures MayTell(db, req, ActionDates(env, db, now, req, action), CauseOf(action), None)
    ensures action == ToApprove ==> forall e :: e in db.events && e.req == req ==> e.cause != OwnerRevoke
  {
    hide LogTells, OneActivePerDate, KeysUnique, DaysInSpan, EventsOfRequests, Actionable, NoticesTold, EmployeeTold,
         SteadyOnce, Ended, DatesIn;
    DatesInAre(db, req, Sources(action));
    var dates := ActionDates(env, db, now, req, action);
    var d := Member(dates);
    var k := DayKey(req, d);
    assert k in db.days && db.days[k] in Sources(action);
    assert forall k: DayKey :: k == DayKey(k.req, k.date);
  }

  lemma ActKeeps(env: Env, db: Db, now: Instant, req: nat, actor: UserId, action: OwnerAction)
    requires LeaveOk(db) && Told(env.employee, db)
    ensures Told(env.employee, ActStep(env, db, now, req, actor, action).db)
  {
    hide LeaveOk, Told, WriteDays, MayMove, MayTell, ActionDates, TransitionDays;
    var dates := ActionDates(env, db, now, req, action);
    if req < |db.requests| && dates != {} {
      ActForm(env, db, now, req, actor, action);
      ActTells(env, db, now, req, action);
      WriteKeepsTold(env.employee, db, req, dates, Sources(action), MovesTo(action), CauseOf(action), Some(actor),
                     [env.employee], None);
    }
  }

  lemma CancelKeeps(env: Env, db: Db, now: Instant, req: nat, admins: seq<UserId>)
    requires LeaveOk(db) && Told(env.employee, db)
    ensures Told(env.employee, CancelStep(env, db, now, req, admins).db)
  {
    hide LeaveOk, Told, WriteDays, MayMove, CancelDates, TransitionDays;
    var dates := CancelDates(env, db, now, req);
    if req < |db.requests| && dates != {} {
      CancelForm(env, db, now, req, admins);
      WriteKeepsTold(env.employee, db, req, dates, {Pending, Approved}, Cancelled, EmployeeCancel, Some(env.employee),
                     admins, None);
    }
  }

  lemma ApplyKeeps(env: Env, db: Db, now: Instant, a: ApplyCall)
    requires LeaveOk(db) && Told(env.employee, db)
    ensures Told(env.employee, ApplyStep(env, db, now, a).db)
  {
    hide LeaveOk, Told, ApplyStep, OpenRequest;
    ApplyForm(env, db, now, a);
    if ApplyStep(env, db, now, a).db != db {
      OpenKeepsTold(env, db, a);
    }
  }

  /** The leave tables are the same; alerts about fake locations are no leave messages. */
  ghost predicate SameLeave(db: Db, other: Db) {
    && other.requests == db.requests && other.days == db.days && other.events == db.events
    && forall n: NoticeKey :: n.LeaveNotice? ==> (n in other.notices <==> n in db.notices)
  }

  lemma SameLeaveKeeps(env: Env, db: Db, other: Db)
    requires SameLeave(db, other) && Told(env.employee, db)
    ensures Told(env.employee, other)
  {
    hide Decided, SteadyOnce, Ended;
  }

  lemma AcceptKeeps(env: Env, db: Db, now: Instant, p: PunchCall)
    requires LeaveOk(db) && Told(env.employee, db) && At(db.assignments, env.today(now)).Some?
    ensures Told(env.employee, AcceptCheckIn(env, db, now, p).db)
  {
    hide LeaveOk, Told, WriteDays, MayMove, AcceptCheckIn, LeaveGate, ActiveLeave;
    var today, rows := env.today(now), CheckInRows(env, db, now, p);
    AcceptedCheckIn(env, db, now, p);
    SameLeaveKeeps(env, db, rows);
    LeaveOkReads(db, rows);
    if LeaveGate(env, db, today, CheckIn) {
      AutoCancelForm(env, rows, today, p.admins);
      WriteKeepsTold(env.employee, rows, ActiveLeave(rows, today).value, {today}, {Pending, Approved}, Cancelled,
                     CheckinAutoCancel, Some(env.employee), p.admins, Some(today));
    }
  }

  lemma PunchKeeps(env: Env, db: Db, now: Instant, p: PunchCall)
    requires LeaveOk(db) && Told(env.employee, db)
    ensures Told(env.employee, PunchStep(env, db, now, p).db)
  {
    hide LeaveOk, Told, AcceptCheckIn, FindKey, FindRecord, FindByAttempt, LeaveGate, BlockFor, Ladder;
    if Decide(env, db, now, p) == Accept && p.kind == CheckIn && !p.taken {
      AcceptKeeps(env, db, now, p);
    } else {
      SameLeaveKeeps(env, db, PunchStep(env, db, now, p).db);
    }
  }

  /** A disable that goes through: the closed tables, swept. */
  lemma DisableSwept(env: Env, db: Db, now: Instant, effective: Option<Date>, employeeOk: bool, live: bool)
    requires LeaveOk(db) && Told(env.employee, db)
    requires DisableStep(env, db, now, effective, employeeOk, live).reply == AccessState
    ensures var from := Clamped(effective, env.today(now));
            var after := DisableStep(env, db, now, effective, employeeOk, live).db;
            && Told(env.employee, after) && SweepLogged(db, after, from, |db.requests|)
            && after.requests == db.requests && after.assignments == AfterDisable(db, from).assignments
  {
    hide LeaveOk, Told, Change, CoverageGuard, Sweep, SweepDates, Tidy;
    var from := Clamped(effective, env.today(now));
    var closed := AfterDisable(db, from);
    LeaveOkReads(db, closed);
    SameLeaveKeeps(env, db, closed);
    SweepTells(env, closed, from, |db.requests|);
    SweepFrame(env, closed, from, |db.requests|);
    SameSweep(db, closed, from);
  }

  lemma SameSweep(db: Db, closed: Db, from: Date)
    requires closed.days == db.days
    ensures forall req :: SweepDates(closed, req, from) == SweepDates(db, req, from)
  {
  }

  /** Disabling always commits, apart from the live-office check. */
  lemma DisableCommits(env: Env, db: Db, now: Instant, effective: Option<Date>)
    requires LeaveOk(db) && PeriodsOk(db)
    ensures DisableStep(env, db, now, effective, true, true).reply == AccessState
  {
    hide LeaveOk, Change, Tidy, NoOverhang, Covered, CoverageGuard, IdsBelow, Sweep, Swept;
    var from := Clamped(effective, env.today(now));
    var closed := AfterDisable(db, from);
    LeaveOkReads(db, closed);
    Enrolment.DisableKeeps(db, from);
    GuardIffCovered(closed.enrolments, closed.assignments);
    SweepSucceeds(env, closed, from, |db.requests|);
    SweepFrame(env, closed, from, |db.requests|);
  }

  lemma DisableTells(env: Env, db: Db, now: Instant, effective: Option<Date>, employeeOk: bool, live: bool)
    requires LeaveOk(db) && Told(env.employee, db)
    ensures Told(env.employee, DisableStep(env, db, now, effective, employeeOk, live).db)
  {
    hide LeaveOk, Told, DisableStep, SweepLogged;
    DisableForm(env, db, now, effective, employeeOk, live);
    if DisableStep(env, db, now, effective, employeeOk, live).reply == AccessState {
      DisableSwept(env, db, now, effective, employeeOk, live);
    }
  }

  lemma StepTells(env: Env, db: Db, now: Instant, call: Call)
    requires LeaveOk(db) && Told(env.employee, db)
    ensures Told(env.employee, Step(env, db, now, call).db)
  {
    hide LeaveOk, Told, PunchStep, ApplyStep, ActStep, CancelStep, DisableStep;
    match call
    case Punch(p) => PunchKeeps(env, db, now, p);
    case ApplyLeave(a) => ApplyKeeps(env, db, now, a);
    case ActOnLeave(req, actor, action) => ActKeeps(env, db, now, req, actor, action);
    case CancelLeave(req, admins) => CancelKeeps(env, db, now, req, admins);
    case DisableFrom(effective, ok, live) => DisableTells(env, db, now, effective, ok, live);
    case _ =>
      hide Step;
      StepFrame(env, db, now, call);
      SameLeaveKeeps(env, db, Step(env, db, now, call).db);
  }

  lemma {:induction false} RunTold(env: Env, run: seq<Tick>)
    ensures Told(env.employee, Run(env, run))
  {
    hide Step, LeaveOk;
    if run != [] {
      hide Told;
      var n := |run| - 1;
      RunTold(env, run[..n]);
      RunLeaveOk(env, run[..n]);
      RunStep(env, run);
      StepTells(env, Run(env, run[..n]), run[n].now, run[n].call);
    }
  }

  // ------------------------------------------------------- messages and keys

  /** The event behind a message of a request, if there is such a message. */
  lemma ReportedEvent(db: Db, req: nat, n: NoticeKey) returns (e: Option<Event>)
    requires NoticesTold(db.requests, db.events, db.notices) && KeysUnique(db.requests) && req < |db.requests|
    requires n.LeaveNotice? && n.key == db.requests[req].key
    ensures n in db.notices ==> e.Some?
    ensures e.Some? ==> e.value in db.events && e.value.req == req && e.value.cause == n.cause && TagFits(e.value, n.tag)
  {
    e := None;
    if n in db.notices {
      var f :| f in db.events && Tells(db.requests, f, n);
      e := Some(f);
    }
  }

  /** The messages of a write: those of its cause about its request. */
  ghost function DueFor(db: Db, req: nat, cause: Cause, recipients: seq<UserId>, tag: Option<Date>): set<NoticeKey>
    requires req < |db.requests|
  {
    LeaveWriter.Notices(cause, recipients, db.requests[req].key, tag)
  }

  /** A write that is the first of its cause on the request, or ends a date, finds its keys free and takes them. */
  lemma WriteIsHeard(employee: UserId, db: Db, req: nat, dates: set<Date>, from: set<DayState>, to: DayState,
                     cause: Cause, actor: Option<UserId>, recipients: seq<UserId>, tag: Option<Date>)
    requires LeaveOk(db) && Told(employee, db) && cause != Disable && dates != {}
    requires MayMove(db, req, dates, from, to, cause) && MayTell(db, req, dates, cause, tag)
    requires Timed(cause) ==> forall e :: e in db.events && e.req == req ==> e.cause != cause
    ensures var due := DueFor(db, req, cause, recipients, tag);
            && due !! db.notices
            && WriteDays(db, req, dates, to, cause, actor, recipients, tag).notices == db.notices + due
  {
    hide LogTells, OneActivePerDate, NoMix, DaysInSpan, Decided, SteadyOnce, EmployeeTold;
    hide NoticesTold;
    forall u: UserId
      ensures LeaveNotice(cause, u, db.requests[req].key, tag) !in db.notices
    {
      var n := LeaveNotice(cause, u, db.requests[req].key, tag);
      var e := ReportedEvent(db, req, n);
      if cause == CheckinAutoCancel {
        assert DayKey(req, tag.value) in db.days;
      }
    }
  }

  /** The messages owed for the event a call just logged. */
  ghost function Due(env: Env, now: Instant, call: Call, key: Key): set<NoticeKey> {
    match call
    case Punch(p) => LeaveWriter.Notices(CheckinAutoCancel, p.admins, key, Some(env.today(now)))
    case ApplyLeave(a) =>
      if a.onBehalf then LeaveWriter.Notices(ApplyOnBehalf, [env.employee], key, None)
      else LeaveWriter.Notices(Apply, a.admins, key, None)
    case ActOnLeave(req, actor, action) => LeaveWriter.Notices(CauseOf(action), [env.employee], key, None)
    case CancelLeave(req, admins) => LeaveWriter.Notices(EmployeeCancel, admins, key, None)
    case _ => {}
  }

  /** The call logged one leave event, and all its messages were new. */
  ghost predicate Heard(env: Env, now: Instant, call: Call, before: Db, after: Db) {
    && |after.events| == |before.events| + 1
    && var e := after.events[|before.events|];
       && e.req < |after.requests|
       && var due := Due(env, now, call, after.requests[e.req].key);
          due !! before.notices && after.notices == before.notices + due
  }

  /** Revoking and cancelling depend on the clock; the other calls do not. */
  predicate NeedsClock(call: Call) {
    call.CancelLeave? || (call.ActOnLeave? && call.action == ToRevoke)
  }

  lemma ActHeard(env: Env, db: Db, now: Instant, req: nat, actor: UserId, action: OwnerAction)
    requires LeaveOk(db) && Told(env.employee, db)
    requires action == ToRevoke && ActionDates(env, db, now, req, action) != {} ==>
               forall e :: e in db.events && e.req == req ==> e.cause != OwnerRevoke
    ensures var after := ActStep(env, db, now, req, actor, action).db;
            after.events == db.events || Heard(env, now, ActOnLeave(req, actor, action), db, after)
  {
    hide LeaveOk, Told, MayMove, MayTell, ActionDates, TransitionDays;
    var dates := ActionDates(env, db, now, req, action);
    if req < |db.requests| && dates != {} {
      ActForm(env, db, now, req, actor, action);
      ActTells(env, db, now, req, action);
      WriteIsHeard(env.employee, db, req, dates, Sources(action), MovesTo(action), CauseOf(action), Some(actor),
                   [env.employee], None);
    }
  }

  lemma CancelHeard(env: Env, db: Db, now: Instant, req: nat, admins: seq<UserId>)
    requires LeaveOk(db) && Told(env.employee, db)
    requires CancelDates(env, db, now, req) != {} ==>
               forall e :: e in db.events && e.req == req ==> e.cause != EmployeeCancel
    ensures var after := CancelStep(env, db, now, req, admins).db;
            after.events == db.events || Heard(env, now, CancelLeave(req, admins), db, after)
  {
    hide LeaveOk, Told, MayMove, CancelDates, TransitionDays;
    var dates := CancelDates(env, db, now, req);
    if req < |db.requests| && dates != {} {
      CancelForm(env, db, now, req, admins);
      WriteIsHeard(env.employee, db, req, dates, {Pending, Approved}, Cancelled, EmployeeCancel, Some(env.employee),
                   admins, None);
    }
  }

  lemma ApplyHeard(env: Env, db: Db, now: Instant, a: ApplyCall)
    requires LeaveOk(db) && Told(env.employee, db)
    ensures var after := ApplyStep(env, db, now, a).db;
            after.events == db.events || Heard(env, now, ApplyLeave(a), db, after)
  {
    hide LeaveOk, Told, ApplyStep;
    ApplyForm(env, db, now, a);
    if ApplyStep(env, db, now, a).db != db {
      KeyUnused(env, db, a.key);
    }
  }

  /** No message was ever filed under a key no request holds. */
  lemma KeyUnused(env: Env, db: Db, key: Key)
    requires Told(env.employee, db) && !KeyHeld(db.requests, key)
    ensures forall n :: n in db.notices && n.LeaveNotice? ==> n.key != key
  {
    hide Decided, SteadyOnce, Ended, EmployeeTold;
    forall n | n in db.notices && n.LeaveNotice?
      ensures n.key != key
    {
      var e :| e in db.events && Tells(db.requests, e, n);
      assert db.requests[e.req] in db.requests;
    }
  }

  lemma PunchHeard(env: Env, db: Db, now: Instant, p: PunchCall)
    requires LeaveOk(db) && Told(env.employee, db)
    ensures var after := PunchStep(env, db, now, p).db;
            after.events == db.events || Heard(env, now, Punch(p), db, after)
  {
    hide LeaveOk, Told, AcceptCheckIn, FindKey, FindRecord, FindByAttempt, LeaveGate, BlockFor, Ladder, Alerts;
    if Decide(env, db, now, p) == Accept && p.kind == CheckIn && !p.taken {
      var today, rows := env.today(now), CheckInRows(env, db, now, p);
      AcceptedCheckIn(env, db, now, p);
      SameLeaveKeeps(env, db, rows);
      LeaveOkReads(db, rows);
      if LeaveGate(env, db, today, CheckIn) {
        AutoCancelForm(env, rows, today, p.admins);
        WriteIsHeard(env.employee, rows, ActiveLeave(rows, today).value, {today}, {Pending, Approved}, Cancelled,
                     CheckinAutoCancel, Some(env.employee), p.admins, Some(today));
      }
    }
  }

  lemma StepHeard(env: Env, db: Db, now: Instant, call: Call)
    requires LeaveOk(db) && Told(env.employee, db) && !call.DisableFrom? && !NeedsClock(call)
    ensures var after := Step(env, db, now, call).db;
            after.events == db.events || Heard(env, now, call, db, after)
  {
    hide LeaveOk, Told, Heard, PunchStep, ApplyStep, ActStep, CancelStep, EnableStep, ReassignStep, PutStep,
         RemoveStep;
    match call
    case Punch(p) => PunchHeard(env, db, now, p);
    case ApplyLeave(a) => ApplyHeard(env, db, now, a);
    case ActOnLeave(req, actor, action) => ActHeard(env, db, now, req, actor, action);
    case _ => StepFrame(env, db, now, call);
  }

  /**
   * In every run, on any clock, a request gets at most one apply, one on-behalf, one approve and one
   * reject event.
   */
  lemma OneDecisionEach(env: Env, run: seq<Tick>, h: History, n: nat, i: nat, j: nat)
    requires IsHistory(env, run, h) && n <= |run|
    requires var events := h.states[n].events;
             && i <= j < |events| && events[i].req == events[j].req && events[i].cause == events[j].cause
             && Steady(events[i].cause)
    ensures i == j
  {
    hide Run, Step;
    HistoryIsRun(env, run, h, n);
    RunTold(env, run[..n]);
  }

  /**
   * In every run, on any clock, an apply, approve, reject or check-in call either logs no leave event
   * or logs one and files every message it owes: none of their dedupe keys was taken before.
   */
  lemma DecisionsAreHeard(env: Env, run: seq<Tick>, h: History, i: nat)
    requires IsHistory(env, run, h) && i < |run| && !run[i].call.DisableFrom? && !NeedsClock(run[i].call)
    ensures var before, after := h.states[i], h.states[i + 1];
            after.events == before.events || Heard(env, run[i].now, run[i].call, before, after)
  {
    hide Run, Step, LeaveOk, Told, Heard;
    HistoryIsRun(env, run, h, i);
    RunTold(env, run[..i]);
    RunLeaveOk(env, run[..i]);
    StepHeard(env, h.states[i], run[i].now, run[i].call);
  }

  /**
   * A disable that goes through logs one event for every request it cancels days of, naming exactly
   * those days; its message for that request is swallowed exactly when an earlier disable already
   * cancelled other days of the request.
   */
  lemma DisableSwallowedIff(env: Env, run: seq<Tick>, h: History, i: nat, req: nat)
    requires IsHistory(env, run, h) && i < |run|
    requires run[i].call.DisableFrom? && h.replies[i] == AccessState
    requires req < |h.states[i].requests|
    requires SweepDates(h.states[i], req, Clamped(run[i].call.effective, env.today(run[i].now))) != {}
    ensures var before, after := h.states[i], h.states[i + 1];
            var dates := SweepDates(before, req, Clamped(run[i].call.effective, env.today(run[i].now)));
            var message := LeaveNotice(Disable, env.employee, before.requests[req].key, None);
            && (exists j :: |before.events| <= j < |after.events| && after.events[j] == Event(req, Disable, None, dates))
            && message in after.notices
            && (message in before.notices <==> exists e :: e in before.events && e.req == req && e.cause == Disable)
  {
    hide Run, LeaveOk, SweepDates, DisableStep;
    HistoryIsRun(env, run, h, i);
    RunTold(env, run[..i]);
    RunLeaveOk(env, run[..i]);
    var before, call := h.states[i], run[i].call;
    assert Result(h.states[i + 1], h.replies[i]) == Step(env, before, run[i].now, call);
    hide Step;
    DisableFiles(env, before, run[i].now, call, req);
    DisableKnown(env, before, req);
  }

  lemma DisableKnown(env: Env, db: Db, req: nat)
    requires LeaveOk(db) && Told(env.employee, db) && req < |db.requests|
    ensures LeaveNotice(Disable, env.employee, db.requests[req].key, None) in db.notices
            <==> exists e :: e in db.events && e.req == req && e.cause == Disable
  {
    hide LogTells, OneActivePerDate, NoMix, DaysInSpan, Decided, SteadyOnce, Ended;
    var e := ReportedEvent(db, req, LeaveNotice(Disable, env.employee, db.requests[req].key, None));
  }

  lemma DisableFiles(env: Env, db: Db, now: Instant, call: Call, req: nat)
    requires LeaveOk(db) && Told(env.employee, db) && call.DisableFrom? && req < |db.requests|
    requires Step(env, db, now, call).reply == AccessState
    requires SweepDates(db, req, Clamped(call.effective, env.today(now))) != {}
    ensures var after := Step(env, db, now, call).db;
            var dates := SweepDates(db, req, Clamped(call.effective, env.today(now)));
            && (exists j :: |db.events| <= j < |after.events| && after.events[j] == Event(req, Disable, None, dates))
            && LeaveNotice(Disable, env.employee, db.requests[req].key, None) in after.notices
  {
    hide LeaveOk, SweepDates, DisableStep, Decided, SteadyOnce, Ended, NoticesTold;
    DisableSwept(env, db, now, call.effective, call.employeeOk, call.liveOffices);
    var after := Step(env, db, now, call).db;
    var dates := SweepDates(db, req, Clamped(call.effective, env.today(now)));
    var j :| |db.events| <= j < |after.events| && after.events[j] == Event(req, Disable, None, dates);
    assert after.events[j] in after.events;
  }

  // ------------------------------------------------------------------ retries

  lemma LastAppended(events: seq<Event>, e: Event)
    ensures LastEvent(events + [e], e.req) == Some(e)
  {
  }

  lemma Closes(env: Env, db: Db, now: Instant, later: Instant, d: Date)
    requires NotBefore(env, now, later) && !Actionable(env, db, now, d)
    ensures !Actionable(env, db, later, d)
  {
  }

  /** An owner's immediate repeat of their own action succeeds and writes nothing. */
  lemma RetryIsQuiet(env: Env, db: Db, now: Instant, later: Instant, req: nat, actor: UserId, action: OwnerAction)
    requires LeaveOk(db) && NotBefore(env, now, later)
    requires ActStep(env, db, now, req, actor, action).reply.LeaveView?
    ensures var first := ActStep(env, db, now, req, actor, action).db;
            ActStep(env, first, later, req, actor, action) == Result(first, LeaveReplay(req))
  {
    hide LeaveOk, TransitionDays, Actionable, DatesIn;
    var dates := ActionDates(env, db, now, req, action);
    ActForm(env, db, now, req, actor, action);
    var first := ActStep(env, db, now, req, actor, action).db;
    LastAppended(db.events, Event(req, CauseOf(action), Some(actor), dates));
    DatesInAre(db, req, Sources(action));
    DatesInAre(first, req, Sources(action));
    forall d | d in ActionDates(env, first, later, req, action)
      ensures false
    {
      assert DayKey(req, d) in db.days;
      if !Actionable(env, db, now, d) {
        Closes(env, db, now, later, d);
      }
      SameActionable(env, db, first, later);
    }
    assert ActionDates(env, first, later, req, action) == {};
  }

  lemma SameActionable(env: Env, db: Db, other: Db, now: Instant)
    requires db.assignments == other.assignments
    ensures forall d :: Actionable(env, db, now, d) == Actionable(env, other, now, d)
  {
  }

  /** The employee's immediate repeat of a cancel succeeds and writes nothing. */
  lemma CancelRetryIsQuiet(env: Env, db: Db, now: Instant, later: Instant, req: nat, admins: seq<UserId>,
                           again: seq<UserId>)
    requires LeaveOk(db) && NotBefore(env, now, later)
    requires CancelStep(env, db, now, req, admins).reply.LeaveView?
    ensures var first := CancelStep(env, db, now, req, admins).db;
            CancelStep(env, first, later, req, again) == Result(first, LeaveReplay(req))
  {
    hide LeaveOk, TransitionDays, Actionable, DatesIn;
    var dates := CancelDates(env, db, now, req);
    CancelForm(env, db, now, req, admins);
    var first := CancelStep(env, db, now, req, admins).db;
    LastAppended(db.events, Event(req, EmployeeCancel, Some(env.employee), dates));
    DatesInAre(db, req, {Pending, Approved});
    DatesInAre(first, req, {Pending, Approved});
    forall d | d in CancelDates(env, first, later, req)
      ensures false
    {
      assert DayKey(req, d) in db.days;
      if !Actionable(env, db, now, d) {
        Closes(env, db, now, later, d);
      }
      SameActionable(env, db, first, later);
    }
    assert CancelDates(env, first, later, req) == {};
  }
}
