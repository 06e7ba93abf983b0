// Revoking and cancelling against the clock: what they leave on a request is past, or today after
// the office start. Only one thing makes it actionable again - an enable or reassign that takes
// effect today at an office whose start is still to come - and exactly then a request can be revoked
// or cancelled a second time and the message of that be swallowed.

module Reopening {
  import opened Basics
  import opened Periods
  import opened Tables
  import opened LeaveWriter
  import opened CheckInOut
  import opened Leave
  import opened Lifecycle
  import opened Corrections
  import opened Machine
  import opened Frames
  import opened Enrolment
  import opened LeaveLog
  import opened Exclusion
  import opened Notices
  import opened Messages

  /** A day a revoke or a cancel left on its request. */
  ghost predicate Leftover(days: map<DayKey, DayState>, e: Event, k: DayKey)
    requires k in days
  {
    && k.req == e.req
    && ((e.cause == OwnerRevoke && days[k] == Approved) || (e.cause == EmployeeCancel && Active(days[k])))
  }

  /** Somebody got the event's message. */
  ghost predicate SomeoneTold(db: Db, e: Event) {
    e.req < |db.requests| && exists u: UserId :: LeaveNotice(e.cause, u, db.requests[e.req].key, None) in db.notices
  }

  /** Nothing left over can be acted on; with `told`, only what was left by an event somebody heard of. */
  ghost predicate Shut(env: Env, db: Db, now: Instant, told: bool) {
    forall e, k :: e in db.events && k in db.days && Leftover(db.days, e, k) && (told ==> SomeoneTold(db, e)) ==>
      !Actionable(env, db, now, k.date)
  }

  /** The date an enable or a reassign takes effect. */
  function EffectiveFrom(env: Env, db: Db, now: Instant, call: Call): Date
    requires call.Enable? || call.Reassign?
  {
    if call.Enable? then Clamped(call.startDate, env.today(now)) else ReassignFrom(env, db, now, call.effective)
  }

  /** The office has no start on the date, or one that is still to come. */
  predicate StartsLater(env: Env, now: Instant, office: OfficeId) {
    env.start(office, env.today(now)).None? || env.minute(now) < env.start(office, env.today(now)).value
  }

  /**
   * What an enable or a reassign needs to commit: the employee and a live office are found, and for a
   * reassign an open-ended enrolment covers the date it takes effect.
   */
  predicate Granted(env: Env, db: Db, now: Instant, call: Call)
    requires call.Enable? || call.Reassign?
  {
    && call.employeeOk && call.fact == OfficeActive && call.liveOffices
    && (call.Reassign? ==>
          exists e :: e in db.enrolments && Contains(e, EffectiveFrom(env, db, now, call)) && e.end.None?)
  }

  /** An enable or a reassign commits exactly then. */
  lemma CommitsIffGranted(env: Env, db: Db, now: Instant, call: Call)
    requires PeriodsOk(db) && (call.Enable? || call.Reassign?)
    ensures Step(env, db, now, call).reply == AccessState <==> Granted(env, db, now, call)
  {
    hide PeriodsOk, Change, Tidy, CoverageGuard, At, ReassignFrom, Clamped;
    if call.employeeOk && call.fact == OfficeActive && call.liveOffices {
      if call.Enable? {
        EnableCommits(env, db, now, call.office, call.startDate);
      } else {
        ReassignCommitsIff(env, db, now, call.office, call.effective);
      }
    }
  }

  /**
   * An enable or reassign reopens today: it will commit and take effect today, the start of the
   * office so far has passed, that of the new one has not, and a revoke or cancel left a day of today.
   */
  ghost predicate Reopens(env: Env, db: Db, now: Instant, call: Call, told: bool) {
    && (call.Enable? || call.Reassign?) && Granted(env, db, now, call)
    && EffectiveFrom(env, db, now, call) == env.today(now)
    && CutoffPassed(env, db, now) && StartsLater(env, now, call.office)
    && exists e, k :: LeftToday(env, db, now, told, e, k)
  }

  ghost predicate LeftToday(env: Env, db: Db, now: Instant, told: bool, e: Event, k: DayKey) {
    && e in db.events && k in db.days && k.date == env.today(now)
    && Leftover(db.days, e, k) && (told ==> SomeoneTold(db, e))
  }

  // -------------------------------------------------------------- the writes

  /** What a write must take along so that nothing it could have moved is left over. */
  ghost predicate TakesAll(env: Env, db: Db, now: Instant, req: nat, dates: set<Date>, cause: Cause) {
    && (forall k :: k in db.days && k.req == req && Actionable(env, db, now, k.date) ==>
          && (cause == OwnerRevoke && db.days[k] == Approved ==> k.date in dates)
          && (cause == EmployeeCancel && Active(db.days[k]) ==> k.date in dates))
    && (cause == Approve ==> forall e :: e in db.events && e.req == req ==> e.cause != OwnerRevoke)
  }

  /** A write's messages are about its own request and cause. */
  lemma ToldBefore(db: Db, req: nat, dates: set<Date>, to: DayState, cause: Cause, actor: Option<UserId>,
                   recipients: seq<UserId>, tag: Option<Date>, e: Event)
    requires KeysUnique(db.requests) && req < |db.requests| && e.req < |db.requests|
    requires SomeoneTold(WriteDays(db, req, dates, to, cause, actor, recipients, tag), e)
    requires e.req != req || e.cause != cause
    ensures SomeoneTold(db, e)
  {
  }

  lemma WriteKeepsShut(env: Env, db: Db, now: Instant, told: bool, req: nat, dates: set<Date>, from: set<DayState>,
                       to: DayState, cause: Cause, actor: Option<UserId>, recipients: seq<UserId>, tag: Option<Date>)
    requires KeysUnique(db.requests) && EventsOfRequests(db.requests, db.events)
    requires Shut(env, db, now, told) && MayMove(db, req, dates, from, to, cause) && cause != ApplyOnBehalf
    requires TakesAll(env, db, now, req, dates, cause)
    ensures Shut(env, WriteDays(db, req, dates, to, cause, actor, recipients, tag), now, told)
  {
    hide Actionable, SomeoneTold;
    var r := WriteDays(db, req, dates, to, cause, actor, recipients, tag);
    SameActionable(env, db, r, now);
    assert r.events == db.events + [Event(req, cause, actor, dates)];
    forall e, k | e in r.events && k in r.days && Leftover(r.days, e, k) && (told ==> SomeoneTold(r, e))
      ensures !Actionable(env, r, now, k.date)
    {
      assert k == DayKey(k.req, k.date);
      if e.req != req || e.cause != cause {
        if told {
          ToldBefore(db, req, dates, to, cause, actor, recipients, tag, e);
        }
        assert e in db.events && k in db.days && Leftover(db.days, e, k);
      }
    }
  }

  lemma OpenKeepsShut(env: Env, db: Db, now: Instant, told: bool, a: ApplyCall)
    requires LeaveOk(db) && Shut(env, db, now, told)
    ensures Shut(env, OpenRequest(env, db, a), now, told)
  {
    hide OpenRequest, Actionable, LogTells, OneActivePerDate, NoMix, KeysUnique, SomeoneTold;
    var r := OpenRequest(env, db, a);
    OpenWrites(env, db, a);
    OpenSameOffices(env, db, a);
    SameActionable(env, db, r, now);
    OpenedDays(env, db, a);
    forall e, k | e in r.events && k in r.days && Leftover(r.days, e, k) && (told ==> SomeoneTold(r, e))
      ensures !Actionable(env, r, now, k.date)
    {
      assert e in db.events && k in db.days && Leftover(db.days, e, k);
      if told {
        OpenToldBefore(env, db, a, e);
      }
    }
  }

  lemma OpenSameOffices(env: Env, db: Db, a: ApplyCall)
    ensures OpenRequest(env, db, a).assignments == db.assignments
  {
  }

  lemma OpenToldBefore(env: Env, db: Db, a: ApplyCall, e: Event)
    requires e.req < |db.requests| && Timed(e.cause) && SomeoneTold(OpenRequest(env, db, a), e)
    ensures SomeoneTold(db, e)
  {
    hide OpenRequest;
    OpenWrites(env, db, a);
  }

  // ---------------------------------------------------------------- the calls

  lemma ActTakesAll(env: Env, db: Db, now: Instant, req: nat, action: OwnerAction)
    requires LeaveOk(db) && Told(env.employee, db) && ActionDates(env, db, now, req, action) != {}
    ensures TakesAll(env, db, now, req, ActionDates(env, db, now, req, action), CauseOf(action))
  {
    hide LeaveOk, Told, Actionable, DatesIn;
    ActTells(env, db, now, req, action);
    DatesInAre(db, req, Sources(action));
    assert forall k: DayKey :: k == DayKey(k.req, k.date);
  }

  lemma LogOf(db: Db)
    requires LeaveOk(db)
    ensures KeysUnique(db.requests) && EventsOfRequests(db.requests, db.events)
  {
  }

  lemma ActShuts(env: Env, db: Db, now: Instant, told: bool, req: nat, actor: UserId, action: OwnerAction)
    requires LeaveOk(db) && Told(env.employee, db) && Shut(env, db, now, told)
    ensures Shut(env, ActStep(env, db, now, req, actor, action).db, now, told)
  {
    hide LeaveOk, Told, Shut, WriteDays, MayMove, TakesAll, ActionDates, TransitionDays;
    var dates := ActionDates(env, db, now, req, action);
    if req < |db.requests| && dates != {} {
      ActForm(env, db, now, req, actor, action);
      ActTakesAll(env, db, now, req, action);
      LogOf(db);
      WriteKeepsShut(env, db, now, told, req, dates, Sources(action), MovesTo(action), CauseOf(action), Some(actor),
                     [env.employee], None);
    }
  }

  lemma CancelTakesAll(env: Env, db: Db, now: Instant, req: nat)
    ensures TakesAll(env, db, now, req, CancelDates(env, db, now, req), EmployeeCancel)
  {
    hide Actionable, DatesIn;
    DatesInAre(db, req, {Pending, Approved});
    assert forall k: DayKey :: k == DayKey(k.req, k.date);
  }

  lemma CancelShuts(env: Env, db: Db, now: Instant, told: bool, req: nat, admins: seq<UserId>)
    requires LeaveOk(db) && Shut(env, db, now, told)
    ensures Shut(env, CancelStep(env, db, now, req, admins).db, now, told)
  {
    hide LeaveOk, Shut, WriteDays, MayMove, TakesAll, CancelDates, TransitionDays;
    var dates := CancelDates(env, db, now, req);
    if req < |db.requests| && dates != {} {
      CancelForm(env, db, now, req, admins);
      CancelTakesAll(env, db, now, req);
      LogOf(db);
      WriteKeepsShut(env, db, now, told, req, dates, {Pending, Approved}, Cancelled, EmployeeCancel,
                     Some(env.employee), admins, None);
    }
  }

  lemma ApplyShuts(env: Env, db: Db, now: Instant, told: bool, a: ApplyCall)
    requires LeaveOk(db) && Shut(env, db, now, told)
    ensures Shut(env, ApplyStep(env, db, now, a).db, now, told)
  {
    hide LeaveOk, Shut, ApplyStep, OpenRequest;
    ApplyForm(env, db, now, a);
    if ApplyStep(env, db, now, a).db != db {
      OpenKeepsShut(env, db, now, told, a);
    }
  }

  lemma SameLeaveShut(env: Env, db: Db, other: Db, now: Instant, told: bool)
    requires SameLeave(db, other) && other.assignments == db.assignments && Shut(env, db, now, told)
    ensures Shut(env, other, now, told)
  {
    hide Actionable;
    SameActionable(env, db, other, now);
    forall e
      ensures SomeoneTold(other, e) == SomeoneTold(db, e)
    {
    }
  }

  lemma AcceptShuts(env: Env, db: Db, now: Instant, told: bool, p: PunchCall)
    requires LeaveOk(db) && Shut(env, db, now, told) && At(db.assignments, env.today(now)).Some?
    ensures Shut(env, AcceptCheckIn(env, db, now, p).db, now, told)
  {
    hide LeaveOk, Shut, WriteDays, MayMove, AcceptCheckIn, LeaveGate, ActiveLeave;
    var today, rows := env.today(now), CheckInRows(env, db, now, p);
    AcceptedCheckIn(env, db, now, p);
    SameLeaveShut(env, db, rows, now, told);
    LeaveOkReads(db, rows);
    if LeaveGate(env, db, today, CheckIn) {
      AutoCancelForm(env, rows, today, p.admins);
      LogOf(rows);
      WriteKeepsShut(env, rows, now, told, ActiveLeave(rows, today).value, {today}, {Pending, Approved}, Cancelled,
                     CheckinAutoCancel, Some(env.employee), p.admins, Some(today));
    }
  }

  lemma PunchShuts(env: Env, db: Db, now: Instant, told: bool, p: PunchCall)
    requires LeaveOk(db) && Shut(env, db, now, told)
    ensures Shut(env, PunchStep(env, db, now, p).db, now, told)
  {
    hide LeaveOk, Shut, AcceptCheckIn, FindKey, FindRecord, FindByAttempt, LeaveGate, BlockFor, Ladder;
    if Decide(env, db, now, p) == Accept && p.kind == CheckIn && !p.taken {
      AcceptShuts(env, db, now, told, p);
    } else {
      SameLeaveShut(env, db, PunchStep(env, db, now, p).db, now, told);
    }
  }

  // ------------------------------------------------------------ office changes

  /** What a committed enable or reassign says about today. */
  lemma OfficeToday(env: Env, db: Db, now: Instant, call: Call)
    requires PeriodsOk(db) && (call.Enable? || call.Reassign?) && Step(env, db, now, call).reply == AccessState
    ensures var after := Step(env, db, now, call).db;
            var today := env.today(now);
            && after.requests == db.requests && after.days == db.days && after.events == db.events
            && after.notices == db.notices && EffectiveFrom(env, db, now, call) >= today
            && At(after.assignments, today)
               == if EffectiveFrom(env, db, now, call) == today then Some(call.office) else At(db.assignments, today)
  {
    hide Change, Tidy, NoOverhang, Covered, CoverageGuard, IdsBelow, At;
    var from := EffectiveFrom(env, db, now, call);
    if call.Enable? {
      EnableMeans(db, from, call.office, env.today(now));
    } else {
      ReassignMeans(db, from, call.office, env.today(now));
    }
  }

  lemma EnrolShuts(env: Env, db: Db, now: Instant, told: bool, call: Call)
    requires PeriodsOk(db) && Shut(env, db, now, told) && (call.Enable? || call.Reassign?)
    requires !Reopens(env, db, now, call, told)
    ensures Shut(env, Step(env, db, now, call).db, now, told)
  {
    hide PeriodsOk, SomeoneTold, Leftover;
    var after := Step(env, db, now, call).db;
    NoOfficeChange(env, db, now, call);
    CommitsIffGranted(env, db, now, call);
    hide Granted;
    if Step(env, db, now, call).reply == AccessState {
      OfficeToday(env, db, now, call);
      hide Step, EffectiveFrom, At;
      forall e, k | e in after.events && k in after.days && Leftover(after.days, e, k) && (told ==> SomeoneTold(after, e))
        ensures !Actionable(env, after, now, k.date)
      {
        assert SomeoneTold(after, e) == SomeoneTold(db, e) by {
          SameTold(db, after, e);
        }
        assert !Actionable(env, db, now, k.date);
        assert k.date == env.today(now) ==> LeftToday(env, db, now, told, e, k);
      }
    }
  }

  lemma SameTold(db: Db, other: Db, e: Event)
    requires db.requests == other.requests && db.notices == other.notices
    ensures SomeoneTold(other, e) == SomeoneTold(db, e)
  {
  }

  lemma NoOfficeChange(env: Env, db: Db, now: Instant, call: Call)
    requires call.Enable? || call.Reassign?
    ensures var r := Step(env, db, now, call); r.reply != AccessState ==> r.db == db
  {
    hide Change, Tidy, CoverageGuard, At, ReassignFrom;
  }

  /** A disable closes days together with the office that could have shut them. */
  lemma DisableShuts(env: Env, db: Db, now: Instant, told: bool, call: Call)
    requires LeaveOk(db) && PeriodsOk(db) && Told(env.employee, db) && Shut(env, db, now, told) && call.DisableFrom?
    ensures Shut(env, Step(env, db, now, call).db, now, told)
  {
    hide LeaveOk, PeriodsOk, Told, Shut, DisableStep, SweepLogged, Swept;
    DisableForm(env, db, now, call.effective, call.employeeOk, call.liveOffices);
    if Step(env, db, now, call).reply == AccessState {
      var from := Clamped(call.effective, env.today(now));
      DisableSwept(env, db, now, call.effective, call.employeeOk, call.liveOffices);
      SpanOf(db);
      forall d | d < from
        ensures At(Step(env, db, now, call).db.assignments, d) == At(db.assignments, d)
      {
        DisableMeans(db, from, d);
      }
      SweptShut(env, db, Step(env, db, now, call).db, from, now, told);
    }
  }

  lemma SweptShut(env: Env, db: Db, after: Db, from: Date, now: Instant, told: bool)
    requires Shut(env, db, now, told) && env.today(now) <= from && after.requests == db.requests
    requires Swept(db.days, after.days, from, |db.requests|) && DaysInSpan(db.requests, db.days)
    requires SweepLogged(db, after, from, |db.requests|)
    requires forall d :: d < from ==> At(after.assignments, d) == At(db.assignments, d)
    ensures Shut(env, after, now, told)
  {
    hide SweepDates;
    forall e, k | e in after.events && k in after.days && Leftover(after.days, e, k) && (told ==> SomeoneTold(after, e))
      ensures !Actionable(env, after, now, k.date)
    {
      var j :| 0 <= j < |after.events| && after.events[j] == e;
      assert e == after.events[..|db.events|][j];
      assert after.days[k] == db.days[k] && Leftover(db.days, e, k);
      assert told ==> SomeoneTold(db, e);
      assert !Actionable(env, db, now, k.date);
    }
  }

  lemma StepShuts(env: Env, db: Db, now: Instant, told: bool, call: Call)
    requires LeaveOk(db) && PeriodsOk(db) && Told(env.employee, db) && Shut(env, db, now, told)
    requires !Reopens(env, db, now, call, told)
    ensures Shut(env, Step(env, db, now, call).db, now, told)
  {
    hide LeaveOk, PeriodsOk, Told, Shut, Reopens, PunchStep, ApplyStep, ActStep, CancelStep;
    match call
    case Punch(p) => PunchShuts(env, db, now, told, p);
    case ApplyLeave(a) => ApplyShuts(env, db, now, told, a);
    case ActOnLeave(req, actor, action) => ActShuts(env, db, now, told, req, actor, action);
    case CancelLeave(req, admins) => CancelShuts(env, db, now, told, req, admins);
    case _ =>
      hide Step;
      if call.DisableFrom? {
        DisableShuts(env, db, now, told, call);
      } else if call.Enable? || call.Reassign? {
        EnrolShuts(env, db, now, told, call);
      } else {
        StepFrame(env, db, now, call);
        SameLeaveShut(env, db, Step(env, db, now, call).db, now, told);
      }
  }

  lemma ShutLater(env: Env, db: Db, now: Instant, later: Instant, told: bool)
    requires NotBefore(env, now, later) && Shut(env, db, now, told)
    ensures Shut(env, db, later, told)
  {
    hide SomeoneTold, Leftover;
  }

  // ------------------------------------------------------------------- runs

  /** The i-th call of the history reopens today. */
  ghost predicate ReopensAt(env: Env, run: seq<Tick>, h: History, i: nat, told: bool)
    requires IsHistory(env, run, h)
  {
    i < |run| && Reopens(env, h.states[i], run[i].now, run[i].call, told)
  }

  lemma StateOk(env: Env, run: seq<Tick>, h: History, n: nat)
    requires IsHistory(env, run, h) && n <= |run|
    ensures LeaveOk(h.states[n]) && PeriodsOk(h.states[n]) && Told(env.employee, h.states[n])
  {
    hide Run, Step, LeaveOk, PeriodsOk, Told;
    HistoryIsRun(env, run, h, n);
    RunLeaveOk(env, run[..n]);
    RunPeriodsOk(env, run[..n]);
    RunTold(env, run[..n]);
  }

  lemma {:induction false} RunShut(env: Env, run: seq<Tick>, h: History, n: nat, now: Instant, told: bool)
    requires IsHistory(env, run, h) && FairClock(env, run) && n <= |run|
    requires n > 0 ==> NotBefore(env, run[n - 1].now, now)
    requires forall i: nat :: i < n ==> !ReopensAt(env, run, h, i, told)
    ensures Shut(env, h.states[n], now, told)
  {
    hide Step, Run, LeaveOk, PeriodsOk, Told, Reopens;
    if n > 0 {
      hide Shut;
      RunShut(env, run, h, n - 1, run[n - 1].now, told);
      StateOk(env, run, h, n - 1);
      assert !ReopensAt(env, run, h, n - 1, told);
      assert Result(h.states[n], h.replies[n - 1])
          == Step(env, h.states[n - 1], run[n - 1].now, run[n - 1].call);
      StepShuts(env, h.states[n - 1], run[n - 1].now, told, run[n - 1].call);
      ShutLater(env, h.states[n], run[n - 1].now, now, told);
    }
  }

  // --------------------------------------------------------------- once only

  predicate Once(c: Cause) {
    Steady(c) || Timed(c)
  }

  ghost predicate TimedOnce(events: seq<Event>) {
    forall i, j :: 0 <= i < j < |events| && events[i].req == events[j].req && events[i].cause == events[j].cause ==>
      !Timed(events[i].cause)
  }

  /** A revoke that moves days is the request's first: a former one told the employee and left nothing actionable. */
  lemma RevokeIsFirst(env: Env, db: Db, now: Instant, told: bool, req: nat)
    requires LeaveOk(db) && Told(env.employee, db) && Shut(env, db, now, told)
    requires ActionDates(env, db, now, req, ToRevoke) != {}
    ensures forall e :: e in db.events && e.req == req ==> e.cause != OwnerRevoke
  {
    hide LeaveOk, Told, Actionable, DatesIn, SomeoneTold;
    DatesInAre(db, req, {Approved});
    var d := Member(ActionDates(env, db, now, req, ToRevoke));
    forall e | e in db.events && e.req == req
      ensures e.cause != OwnerRevoke
    {
      RevokeToldEmployee(env, db, e);
      assert e.cause == OwnerRevoke ==> Leftover(db.days, e, DayKey(req, d));
    }
  }

  lemma RevokeToldEmployee(env: Env, db: Db, e: Event)
    requires Told(env.employee, db) && e in db.events
    ensures e.cause == OwnerRevoke ==> SomeoneTold(db, e)
  {
    hide Decided, SteadyOnce, Ended, NoticesTold;
  }

  /** A cancel that moves days follows no cancel that left nothing actionable. */
  lemma CancelIsFirst(env: Env, db: Db, now: Instant, told: bool, req: nat)
    requires Shut(env, db, now, told) && CancelDates(env, db, now, req) != {}
    ensures forall e :: e in db.events && e.req == req && e.cause == EmployeeCancel ==> told && !SomeoneTold(db, e)
  {
    hide Actionable, DatesIn, SomeoneTold;
    DatesInAre(db, req, {Pending, Approved});
    var d := Member(CancelDates(env, db, now, req));
    forall e | e in db.events && e.req == req && e.cause == EmployeeCancel
      ensures told && !SomeoneTold(db, e)
    {
      assert Leftover(db.days, e, DayKey(req, d));
    }
  }

  /** What a call logs: nothing, one event, or (a disable) disable events. */
  ghost predicate Logs(before: seq<Event>, after: seq<Event>, call: Call) {
    && |before| <= |after| && after[..|before|] == before
    && (if call.DisableFrom? then forall j :: |before| <= j < |after| ==> after[j].cause == Disable
        else |after| <= |before| + 1)
  }

  /** The one event of a revoke or cancel. */
  lemma ActLogs(env: Env, db: Db, now: Instant, req: nat, actor: UserId, action: OwnerAction)
    requires LeaveOk(db)
    ensures var after := ActStep(env, db, now, req, actor, action).db.events;
            if req < |db.requests| && ActionDates(env, db, now, req, action) != {}
            then after == db.events + [Event(req, CauseOf(action), Some(actor), ActionDates(env, db, now, req, action))]
            else after == db.events
  {
    hide LeaveOk, ActionDates, TransitionDays, MayMove;
    if req < |db.requests| && ActionDates(env, db, now, req, action) != {} {
      ActForm(env, db, now, req, actor, action);
    }
  }

  lemma CancelLogs(env: Env, db: Db, now: Instant, req: nat, admins: seq<UserId>)
    requires LeaveOk(db)
    ensures var after := CancelStep(env, db, now, req, admins).db.events;
            if req < |db.requests| && CancelDates(env, db, now, req) != {}
            then after == db.events + [Event(req, EmployeeCancel, Some(env.employee), CancelDates(env, db, now, req))]
            else after == db.events
  {
    hide LeaveOk, CancelDates, TransitionDays, MayMove;
    if req < |db.requests| && CancelDates(env, db, now, req) != {} {
      CancelForm(env, db, now, req, admins);
    }
  }

  lemma ApplyLogs(env: Env, db: Db, now: Instant, a: ApplyCall)
    requires LeaveOk(db)
    ensures var after := ApplyStep(env, db, now, a).db.events;
            after == db.events || (after == db.events + [after[|db.events|]] && !Timed(after[|db.events|].cause))
  {
    hide LeaveOk, ApplyStep, OpenRequest;
    ApplyForm(env, db, now, a);
    OpenWrites(env, db, a);
  }

  lemma PunchLogs(env: Env, db: Db, now: Instant, p: PunchCall)
    requires LeaveOk(db)
    ensures var after := PunchStep(env, db, now, p).db.events;
            after == db.events || (after == db.events + [after[|db.events|]] && !Timed(after[|db.events|].cause))
  {
    hide LeaveOk, AcceptCheckIn, FindKey, FindRecord, FindByAttempt, LeaveGate, BlockFor, Ladder, Alerts;
    if Decide(env, db, now, p) == Accept && p.kind == CheckIn && !p.taken {
      AcceptedCheckIn(env, db, now, p);
    }
  }

  /** With nothing left over, a call logs no second revoke or cancel. */
  lemma StepTimedOnce(env: Env, db: Db, now: Instant, call: Call)
    requires LeaveOk(db) && Told(env.employee, db) && Shut(env, db, now, false) && TimedOnce(db.events)
    ensures TimedOnce(Step(env, db, now, call).db.events)
  {
    hide LeaveOk, Told, Shut, PunchStep, ApplyStep, ActStep, CancelStep, DisableStep, ActionDates, CancelDates;
    match call
    case Punch(p) => PunchLogs(env, db, now, p);
    case ApplyLeave(a) => ApplyLogs(env, db, now, a);
    case ActOnLeave(req, actor, action) =>
      ActLogs(env, db, now, req, actor, action);
      if action == ToRevoke && ActionDates(env, db, now, req, action) != {} {
        RevokeIsFirst(env, db, now, false, req);
      }
    case CancelLeave(req, admins) =>
      CancelLogs(env, db, now, req, admins);
      if CancelDates(env, db, now, req) != {} {
        CancelIsFirst(env, db, now, false, req);
      }
    case DisableFrom(effective, ok, live) =>
      DisableForm(env, db, now, effective, ok, live);
      if DisableStep(env, db, now, effective, ok, live).reply == AccessState {
        DisableSwept(env, db, now, effective, ok, live);
        DisableKeepsTimed(db.events, DisableStep(env, db, now, effective, ok, live).db.events);
      }
    case _ =>
      hide Step;
      StepFrame(env, db, now, call);
  }

  lemma DisableKeepsTimed(before: seq<Event>, after: seq<Event>)
    requires TimedOnce(before) && |before| <= |after| && after[..|before|] == before
    requires forall j :: |before| <= j < |after| ==> after[j].cause == Disable
    ensures TimedOnce(after)
  {
    forall i | 0 <= i < |before|
      ensures after[i] == before[i]
    {
      assert after[..|before|][i] == after[i];
    }
  }

  lemma {:induction false} RunTimedOnce(env: Env, run: seq<Tick>, h: History, n: nat)
    requires IsHistory(env, run, h) && FairClock(env, run) && n <= |run|
    requires forall i: nat :: i < n ==> !ReopensAt(env, run, h, i, false)
    ensures TimedOnce(h.states[n].events)
  {
    hide Step, Run, LeaveOk, PeriodsOk, Told, Reopens, Shut;
    if n > 0 {
      hide TimedOnce;
      RunTimedOnce(env, run, h, n - 1);
      RunShut(env, run, h, n - 1, run[n - 1].now, false);
      StateOk(env, run, h, n - 1);
      assert Result(h.states[n], h.replies[n - 1]) == Step(env, h.states[n - 1], run[n - 1].now, run[n - 1].call);
      StepTimedOnce(env, h.states[n - 1], run[n - 1].now, run[n - 1].call);
    } else {
      assert h.states[0].events == [];
    }
  }

  /**
   * In every run a request gets at most one apply, on-behalf, approve and reject event; and while no
   * call has reopened today, at most one owner-revoke and one employee-cancel event.
   */
  lemma OneEventPerCause(env: Env, run: seq<Tick>, h: History, n: nat, i: nat, j: nat)
    requires IsHistory(env, run, h) && n <= |run|
    requires var events := h.states[n].events;
             && i <= j < |events| && events[i].req == events[j].req && events[i].cause == events[j].cause
             && Once(events[i].cause)
             && (Timed(events[i].cause) ==>
                   FairClock(env, run) && forall m: nat :: m < n ==> !ReopensAt(env, run, h, m, false))
    ensures i == j
  {
    hide Run, Step, Reopens;
    if Timed(h.states[n].events[i].cause) {
      RunTimedOnce(env, run, h, n);
    } else {
      OneDecisionEach(env, run, h, n, i, j);
    }
  }

  /** With nothing left over that somebody heard of, a revoke or cancel finds all its message keys free. */
  lemma TimedHeard(env: Env, db: Db, now: Instant, call: Call)
    requires LeaveOk(db) && Told(env.employee, db) && Shut(env, db, now, true) && NeedsClock(call)
    ensures var after := Step(env, db, now, call).db;
            after.events == db.events || Heard(env, now, call, db, after)
  {
    hide LeaveOk, Told, Shut, Heard, ActStep, CancelStep, ActionDates, CancelDates;
    match call
    case ActOnLeave(req, actor, action) =>
      if ActionDates(env, db, now, req, ToRevoke) != {} {
        RevokeIsFirst(env, db, now, true, req);
      }
      ActHeard(env, db, now, req, actor, action);
    case CancelLeave(req, admins) =>
      CancelHeardAnyway(env, db, now, req, admins);
  }

  /** A cancel repeated where nobody was told the first time is heard all the same. */
  lemma CancelHeardAnyway(env: Env, db: Db, now: Instant, req: nat, admins: seq<UserId>)
    requires LeaveOk(db) && Told(env.employee, db) && Shut(env, db, now, true)
    ensures var after := CancelStep(env, db, now, req, admins).db;
            after.events == db.events || Heard(env, now, CancelLeave(req, admins), db, after)
  {
    hide LeaveOk, Told, Shut, CancelDates, TransitionDays, MayMove, SomeoneTold;
    if req < |db.requests| && CancelDates(env, db, now, req) != {} {
      CancelForm(env, db, now, req, admins);
      CancelIsFirst(env, db, now, true, req);
      NoKeyTaken(env, db, req);
    }
  }

  lemma NoKeyTaken(env: Env, db: Db, req: nat)
    requires LeaveOk(db) && Told(env.employee, db) && req < |db.requests|
    requires forall e :: e in db.events && e.req == req && e.cause == EmployeeCancel ==> !SomeoneTold(db, e)
    ensures forall u: UserId :: LeaveNotice(EmployeeCancel, u, db.requests[req].key, None) !in db.notices
  {
    hide LogTells, OneActivePerDate, NoMix, DaysInSpan, Decided, SteadyOnce, Ended, EmployeeTold, NoticesTold;
    forall u: UserId
      ensures LeaveNotice(EmployeeCancel, u, db.requests[req].key, None) !in db.notices
    {
      var e := ReportedEvent(db, req, LeaveNotice(EmployeeCancel, u, db.requests[req].key, None));
      assert e.Some? ==> !SomeoneTold(db, e.value);
    }
  }

  /**
   * In every run a call (other than a disable) either logs no leave event or logs one and files every
   * message it owes; for a revoke or a cancel, while no call has reopened today.
   */
  lemma NoMessageSwallowed(env: Env, run: seq<Tick>, h: History, i: nat)
    requires IsHistory(env, run, h) && i < |run| && !run[i].call.DisableFrom?
    requires NeedsClock(run[i].call) ==>
               FairClock(env, run) && forall m: nat :: m < i ==> !ReopensAt(env, run, h, m, true)
    ensures var before, after := h.states[i], h.states[i + 1];
            after.events == before.events || Heard(env, run[i].now, run[i].call, before, after)
  {
    hide Run, Step, LeaveOk, PeriodsOk, Told, Shut, Heard, Reopens;
    if NeedsClock(run[i].call) {
      RunShut(env, run, h, i, run[i].now, true);
      StateOk(env, run, h, i);
      TimedHeard(env, h.states[i], run[i].now, run[i].call);
    } else {
      DecisionsAreHeard(env, run, h, i);
    }
  }

  // ------------------------------------------------------------- the converse

  /** The call would log a second event of a once-only cause on its request. */
  ghost predicate Repeats(env: Env, db: Db, now: Instant, call: Call) {
    var after := Step(env, db, now, call).db.events;
    && |after| == |db.events| + 1 && after[..|db.events|] == db.events && Once(after[|db.events|].cause)
    && exists e :: e in db.events && e.req == after[|db.events|].req && e.cause == after[|db.events|].cause
  }

  /** The call, no disable, would log an event and find the key of one of its messages taken. */
  ghost predicate Swallows(env: Env, db: Db, now: Instant, call: Call) {
    var after := Step(env, db, now, call).db;
    && !call.DisableFrom? && |after.events| == |db.events| + 1
    && after.events[|db.events|].req < |after.requests|
    && exists n :: n in Due(env, now, call, after.requests[after.events[|db.events|].req].key) && n in db.notices
  }

  /** Right after the m-th call of the history, at its instant, the call would repeat. */
  ghost predicate RepeatsAfter(env: Env, run: seq<Tick>, h: History, m: nat, again: Call)
    requires IsHistory(env, run, h)
  {
    m < |run| && Repeats(env, h.states[m + 1], run[m].now, again)
  }

  ghost predicate SwallowsAfter(env: Env, run: seq<Tick>, h: History, m: nat, again: Call)
    requires IsHistory(env, run, h)
  {
    m < |run| && Swallows(env, h.states[m + 1], run[m].now, again)
  }

  /** The call that acts on a leftover day again. */
  function Again(env: Env, e: Event, admin: UserId): Call {
    if e.cause == OwnerRevoke then ActOnLeave(e.req, env.employee, ToRevoke) else CancelLeave(e.req, [admin])
  }

  lemma AgainLogs(env: Env, db: Db, now: Instant, e: Event, k: DayKey, admin: UserId)
    requires LeaveOk(db) && e in db.events && k in db.days && Leftover(db.days, e, k) && Actionable(env, db, now, k.date)
    ensures var after := Step(env, db, now, Again(env, e, admin)).db.events;
            && |after| == |db.events| + 1 && after[..|db.events|] == db.events
            && after[|db.events|].req == e.req && after[|db.events|].cause == e.cause
    ensures Step(env, db, now, Again(env, e, admin)).db.requests == db.requests && e.req < |db.requests|
  {
    hide LeaveOk, Actionable, DatesIn, ActStep, CancelStep;
    LogOf(db);
    assert k == DayKey(k.req, k.date);
    StepFrame(env, db, now, Again(env, e, admin));
    if e.cause == OwnerRevoke {
      DatesInAre(db, e.req, {Approved});
      assert k.date in ActionDates(env, db, now, e.req, ToRevoke);
      ActLogs(env, db, now, e.req, env.employee, ToRevoke);
    } else {
      DatesInAre(db, e.req, {Pending, Approved});
      assert k.date in CancelDates(env, db, now, e.req);
      CancelLogs(env, db, now, e.req, [admin]);
    }
  }

  /** Reopening makes a leftover day of today actionable. */
  lemma ReopenedDay(env: Env, db: Db, now: Instant, call: Call, told: bool) returns (e: Event, k: DayKey)
    requires PeriodsOk(db) && Reopens(env, db, now, call, told)
    ensures var after := Step(env, db, now, call).db;
            && after.events == db.events && after.days == db.days && after.requests == db.requests
            && after.notices == db.notices
            && e in db.events && k in db.days && Leftover(db.days, e, k) && (told ==> SomeoneTold(db, e))
            && Actionable(env, after, now, k.date)
  {
    hide PeriodsOk, Step, EffectiveFrom, At, Leftover, SomeoneTold, Granted;
    CommitsIffGranted(env, db, now, call);
    OfficeToday(env, db, now, call);
    e, k :| LeftToday(env, db, now, told, e, k);
  }

  lemma ReopenedRepeats(env: Env, db: Db, now: Instant, call: Call)
    requires LeaveOk(db) && PeriodsOk(db) && Reopens(env, db, now, call, false)
    ensures exists again :: Repeats(env, Step(env, db, now, call).db, now, again)
  {
    hide LeaveOk, PeriodsOk, Reopens, Leftover, Actionable;
    var e, k := ReopenedDay(env, db, now, call, false);
    hide Step;
    var after := Step(env, db, now, call).db;
    LeaveOkReads(db, after);
    AgainLogs(env, after, now, e, k, env.employee);
    TimedLeftover(db.days, e, k);
    assert Repeats(env, after, now, Again(env, e, env.employee));
  }

  lemma TimedLeftover(days: map<DayKey, DayState>, e: Event, k: DayKey)
    requires k in days && Leftover(days, e, k)
    ensures Timed(e.cause)
  {
  }

  lemma ReopenedSwallows(env: Env, db: Db, now: Instant, call: Call)
    requires LeaveOk(db) && PeriodsOk(db) && Told(env.employee, db)
    requires Reopens(env, db, now, call, true)
    ensures exists again :: Swallows(env, Step(env, db, now, call).db, now, again)
  {
    hide LeaveOk, PeriodsOk, Told, Reopens, Leftover, Actionable;
    var e, k := ReopenedDay(env, db, now, call, true);
    hide Step;
    var after := Step(env, db, now, call).db;
    LeaveOkReads(db, after);
    TimedLeftover(db.days, e, k);
    var u: UserId :| LeaveNotice(e.cause, u, db.requests[e.req].key, None) in db.notices;
    AgainLogs(env, after, now, e, k, u);
    EmployeeHeardOf(env, db, e);
    AgainOwes(env, now, e, u, db.requests[e.req].key);
    var n := LeaveNotice(e.cause, if e.cause == OwnerRevoke then env.employee else u, db.requests[e.req].key, None);
    assert n in Due(env, now, Again(env, e, u), after.requests[e.req].key) && n in after.notices;
    assert Swallows(env, after, now, Again(env, e, u));
  }

  lemma AgainOwes(env: Env, now: Instant, e: Event, u: UserId, key: Key)
    requires Timed(e.cause)
    ensures LeaveNotice(e.cause, if e.cause == OwnerRevoke then env.employee else u, key, None)
            in Due(env, now, Again(env, e, u), key)
  {
  }

  lemma EmployeeHeardOf(env: Env, db: Db, e: Event)
    requires Told(env.employee, db) && e in db.events
    ensures e.cause == OwnerRevoke ==>
              e.req < |db.requests| && LeaveNotice(OwnerRevoke, env.employee, db.requests[e.req].key, None) in db.notices
  {
    hide Decided, SteadyOnce, Ended, NoticesTold;
  }

  /** With nothing left over, no call repeats. */
  lemma ShutNeverRepeats(env: Env, db: Db, now: Instant, call: Call)
    requires LeaveOk(db) && Told(env.employee, db) && Shut(env, db, now, false) && TimedOnce(db.events)
    ensures !Repeats(env, db, now, call)
  {
    hide LeaveOk, Told, Shut, Step;
    StepTimedOnce(env, db, now, call);
    StepTells(env, db, now, call);
    var after := Step(env, db, now, call).db.events;
    SteadyOf(env, Step(env, db, now, call).db);
    if |after| == |db.events| + 1 && after[..|db.events|] == db.events {
      forall e | e in db.events
        ensures e.req == after[|db.events|].req && e.cause == after[|db.events|].cause ==> !Once(e.cause)
      {
        var i :| 0 <= i < |db.events| && db.events[i] == e;
        assert after[i] == e;
      }
    }
  }

  lemma SteadyOf(env: Env, db: Db)
    requires Told(env.employee, db)
    ensures SteadyOnce(db.events)
  {
  }

  lemma ShutNeverSwallows(env: Env, db: Db, now: Instant, call: Call)
    requires LeaveOk(db) && Told(env.employee, db) && Shut(env, db, now, true)
    ensures !Swallows(env, db, now, call)
  {
    hide LeaveOk, Told, Shut, Step;
    if NeedsClock(call) {
      TimedHeard(env, db, now, call);
    } else if !call.DisableFrom? {
      StepHeard(env, db, now, call);
    }
  }

  /**
   * Exactly when a once-only event can be repeated: in a run some call reopens today if and only if
   * after some call of the run, at its instant, a further call would log a second approve, reject,
   * owner-revoke or employee-cancel event of one request.
   */
  lemma RepeatPossibleIff(env: Env, run: seq<Tick>, h: History)
    requires IsHistory(env, run, h) && FairClock(env, run)
    ensures (exists m: nat :: ReopensAt(env, run, h, m, false)) <==>
              exists m: nat, again :: RepeatsAfter(env, run, h, m, again)
  {
    hide Step, Run, LeaveOk, PeriodsOk, Told, Shut, Reopens, Repeats, FairClock;
    if m: nat :| ReopensAt(env, run, h, m, false) {
      StateOk(env, run, h, m);
      assert Result(h.states[m + 1], h.replies[m]) == Step(env, h.states[m], run[m].now, run[m].call);
      ReopenedRepeats(env, h.states[m], run[m].now, run[m].call);
      var again :| Repeats(env, h.states[m + 1], run[m].now, again);
      assert RepeatsAfter(env, run, h, m, again);
    } else {
      forall m: nat, again: Call | m < |run|
        ensures !RepeatsAfter(env, run, h, m, again)
      {
        RunShut(env, run, h, m + 1, run[m].now, false);
        RunTimedOnce(env, run, h, m + 1);
        StateOk(env, run, h, m + 1);
        ShutNeverRepeats(env, h.states[m + 1], run[m].now, again);
      }
    }
  }

  /**
   * Exactly when a message other than a disable's can be swallowed: in a run some call reopens today,
   * with a day left by a revoke or a cancel that somebody was told of, if and only if after some call
   * of the run, at its instant, a further call would log an event and find a key taken.
   */
  lemma SwallowPossibleIff(env: Env, run: seq<Tick>, h: History)
    requires IsHistory(env, run, h) && FairClock(env, run)
    ensures (exists m: nat :: ReopensAt(env, run, h, m, true)) <==>
              exists m: nat, again :: SwallowsAfter(env, run, h, m, again)
  {
    hide Step, Run, LeaveOk, PeriodsOk, Told, Shut, Reopens, Swallows, FairClock;
    if m: nat :| ReopensAt(env, run, h, m, true) {
      StateOk(env, run, h, m);
      assert Result(h.states[m + 1], h.replies[m]) == Step(env, h.states[m], run[m].now, run[m].call);
      ReopenedSwallows(env, h.states[m], run[m].now, run[m].call);
      var again :| Swallows(env, h.states[m + 1], run[m].now, again);
      assert SwallowsAfter(env, run, h, m, again);
    } else {
      forall m: nat, again: Call | m < |run|
        ensures !SwallowsAfter(env, run, h, m, again)
      {
        RunShut(env, run, h, m + 1, run[m].now, true);
        StateOk(env, run, h, m + 1);
        ShutNeverSwallows(env, h.states[m + 1], run[m].now, again);
      }
    }
  }
}
