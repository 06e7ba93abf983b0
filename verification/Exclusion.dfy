// Composing the two protocols: presence and full-day leave exclude each other in every run.

module Exclusion {
  import opened Basics
  import opened Periods
  import opened Tables
  import opened LeaveWriter
  import opened CheckInOut
  import opened Leave
  import opened Lifecycle
  import opened Machine
  import opened Frames
  import opened RateLimit
  import opened Enrolment
  import opened LeaveLog
  import opened Records

  /** The day is active full-day leave on a working date. */
  ghost predicate HoldsDate(env: Env, requests: seq<Request>, days: map<DayKey, DayState>, k: DayKey) {
    && k in days && Active(days[k])
    && k.req < |requests| && requests[k.req].part == FullDay && env.working(k.date)
  }

  ghost predicate Exclusive(env: Env, requests: seq<Request>, days: map<DayKey, DayState>, records: seq<Record>) {
    forall k, r :: r in records && HoldsDate(env, requests, days, k) ==> r.workDate != k.date
  }

  /** No record is dated later than the clock. */
  ghost predicate NoneAhead(records: seq<Record>, today: Date) {
    forall r :: r in records ==> r.workDate <= today
  }

  /** Every active day was active before. */
  ghost predicate OnlyShrinks(before: map<DayKey, DayState>, after: map<DayKey, DayState>) {
    forall k :: k in after && Active(after[k]) ==> k in before && Active(before[k])
  }

  lemma WriteShrinks(db: Db, req: nat, dates: set<Date>, from: set<DayState>, to: DayState, cause: Cause,
                     actor: Option<UserId>, recipients: seq<UserId>, tag: Option<Date>)
    requires MayMove(db, req, dates, from, to, cause)
    ensures OnlyShrinks(db.days, WriteDays(db, req, dates, to, cause, actor, recipients, tag).days)
  {
    assert forall k: DayKey :: k == DayKey(k.req, k.date);
  }

  /** Apart from applying and checking in, no call makes a day active or adds a record. */
  lemma OthersShrink(env: Env, db: Db, now: Instant, call: Call)
    requires LeaveOk(db) && !call.Punch? && !call.ApplyLeave?
    ensures OnlyShrinks(db.days, Step(env, db, now, call).db.days)
  {
    hide LeaveOk, WriteDays, MayMove, CoverageGuard, Tidy, Change;
    match call
    case ActOnLeave(req, actor, action) =>
      if req < |db.requests| && ActionDates(env, db, now, req, action) != {} {
        ActForm(env, db, now, req, actor, action);
        WriteShrinks(db, req, ActionDates(env, db, now, req, action), Sources(action), MovesTo(action),
                     CauseOf(action), Some(actor), [env.employee], None);
      }
    case CancelLeave(req, admins) =>
      if req < |db.requests| && CancelDates(env, db, now, req) != {} {
        CancelForm(env, db, now, req, admins);
        WriteShrinks(db, req, CancelDates(env, db, now, req), {Pending, Approved}, Cancelled, EmployeeCancel,
                     Some(env.employee), admins, None);
      }
    case DisableFrom(effective, ok, live) =>
      DisableForm(env, db, now, effective, ok, live);
    case _ => StepFrame(env, db, now, call);
  }

  /** Once checked in, no active leave is left that the gate would have held the check-in for. */
  ghost predicate Cleared(env: Env, before: Db, after: Db, today: Date) {
    && OnlyShrinks(before.days, after.days)
    && forall k :: HoldsDate(env, before.requests, after.days, k) ==> k.date != today
  }

  lemma GateHolds(env: Env, db: Db, today: Date, k: DayKey)
    requires LeaveOk(db) && HoldsDate(env, db.requests, db.days, k) && k.date == today
    ensures LeaveGate(env, db, today, CheckIn) && ActiveLeave(db, today) == Some(k.req)
  {
    ActiveLeaveFound(db, today, |db.requests|);
    assert k == DayKey(k.req, k.date);
  }

  lemma CheckInClears(env: Env, db: Db, now: Instant, p: PunchCall)
    requires LeaveOk(db) && At(db.assignments, env.today(now)).Some?
    ensures var after := AcceptCheckIn(env, db, now, p).db;
            after == db || Cleared(env, db, after, env.today(now))
  {
    hide LeaveOk, AcceptCheckIn, LeaveGate, ActiveLeave;
    var today, rows := env.today(now), CheckInRows(env, db, now, p);
    var after := AcceptCheckIn(env, db, now, p).db;
    AcceptedCheckIn(env, db, now, p);
    LeaveOkReads(db, rows);
    AcceptedRows(env, db, now, p);
    SameActiveLeave(db, rows, today, |db.requests|);
    if after != db {
      if LeaveGate(env, db, today, CheckIn) {
        AutoCancelForm(env, rows, today, p.admins);
        WriteShrinks(rows, ActiveLeave(rows, today).value, {today}, {Pending, Approved}, Cancelled,
                     CheckinAutoCancel, Some(env.employee), p.admins, Some(today));
      }
      forall k | HoldsDate(env, db.requests, after.days, k)
        ensures k.date != today
      {
        if k.date == today {
          assert HoldsDate(env, rows.requests, rows.days, k);
          GateHolds(env, rows, today, k);
          assert false;
        }
      }
    }
  }

  lemma PunchShrinks(env: Env, db: Db, now: Instant, p: PunchCall)
    requires LeaveOk(db)
    ensures var after := PunchStep(env, db, now, p).db;
            && OnlyShrinks(db.days, after.days)
            && (Decide(env, db, now, p) == Accept && p.kind == CheckIn && !p.taken && after != db ==>
                  Cleared(env, db, after, env.today(now)))
  {
    hide LeaveOk, AcceptCheckIn, FindKey, FindRecord, FindByAttempt, LeaveGate, Alerts, BlockFor, Ladder, Cleared;
    if Decide(env, db, now, p) == Accept && p.kind == CheckIn && !p.taken {
      CheckInClears(env, db, now, p);
      ClearedShrinks(env, db, PunchStep(env, db, now, p).db, env.today(now));
    }
  }

  lemma ClearedShrinks(env: Env, before: Db, after: Db, today: Date)
    ensures Cleared(env, before, after, today) ==> OnlyShrinks(before.days, after.days)
  {
  }

  lemma PunchKeepsExclusive(env: Env, db: Db, now: Instant, p: PunchCall)
    requires LeaveOk(db) && MarksDistinct(db.records)
    requires Exclusive(env, db.requests, db.days, db.records) && NoneAhead(db.records, env.today(now))
    ensures var after := PunchStep(env, db, now, p).db;
            && Exclusive(env, after.requests, after.days, after.records)
            && NoneAhead(after.records, env.today(now))
  {
    hide LeaveOk, PunchStep, FindKey, FindRecord, BlockFor, Decide, MarksDistinct;
    var e := PunchEffect(env, db, now, p);
    var after := PunchStep(env, db, now, p).db;
    PunchShrinks(env, db, now, p);
    PunchFrame(env, db, now, p);
    match e
    case Untouched =>
    case Logged(_) =>
    case CheckInMade =>
      CheckInDecided(env, db, now, p, e);
    case CheckOutMade(i) =>
      forall r | r in after.records
        ensures exists q :: q in db.records && q.workDate == r.workDate
      {
        var n :| 0 <= n < |after.records| && after.records[n] == r;
        assert db.records[n] in db.records;
      }
  }

  lemma CheckInDecided(env: Env, db: Db, now: Instant, p: PunchCall, e: Effect)
    requires HasEffect(env, db, now, p, PunchStep(env, db, now, p), e) && e == CheckInMade
    ensures Decide(env, db, now, p) == Accept && p.kind == CheckIn && !p.taken && PunchStep(env, db, now, p).db != db
  {
    var a := PunchStep(env, db, now, p).db.attempts[|db.attempts|];
    assert a.outcome == Ok;
  }

  lemma ApplyKeepsExclusive(env: Env, db: Db, now: Instant, a: ApplyCall)
    requires LeaveOk(db)
    requires Exclusive(env, db.requests, db.days, db.records) && NoneAhead(db.records, env.today(now))
    ensures var after := ApplyStep(env, db, now, a).db;
            && Exclusive(env, after.requests, after.days, after.records) && after.records == db.records
  {
    hide LeaveOk, ApplyStep, ShapeRefusal, Floor;
    ApplyForm(env, db, now, a);
    ApplyFrame(env, db, now, a);
    if ApplyStep(env, db, now, a).db != db {
      SpanOf(db);
      OpenedDays(env, db, a);
      assert !CheckedInWithin(db, a.first, a.last, env.today(now));
    }
  }

  /** What the run keeps, at the instant its last call read. */
  ghost predicate KeptApart(env: Env, db: Db, now: Instant) {
    Exclusive(env, db.requests, db.days, db.records) && NoneAhead(db.records, env.today(now))
  }

  lemma StepKeepsApart(env: Env, db: Db, now: Instant, call: Call)
    requires Sound(env, db) && KeptApart(env, db, now)
    ensures KeptApart(env, Step(env, db, now, call).db, now)
  {
    hide LeaveOk, PeriodsOk, RecordsOk;
    match call
    case Punch(p) =>
      MarksOf(env, db);
      PunchKeepsExclusive(env, db, now, p);
    case ApplyLeave(a) => ApplyKeepsExclusive(env, db, now, a);
    case _ =>
      hide Step;
      OthersShrink(env, db, now, call);
      StepFrame(env, db, now, call);
  }

  lemma {:induction false} RunApart(env: Env, run: seq<Tick>, now: Instant)
    requires DatesForward(env, run) && (run != [] ==> env.today(run[|run| - 1].now) <= env.today(now))
    ensures KeptApart(env, Run(env, run), now)
  {
    hide Step, Sound;
    if run != [] {
      var n := |run| - 1;
      RunApart(env, run[..n], run[n].now);
      RunSound(env, run[..n]);
      RunStep(env, run);
      StepKeepsApart(env, Run(env, run[..n]), run[n].now, run[n].call);
    }
  }

  /**
   * In every run that mixes check-in/out, apply, on-behalf, approve, reject, revoke, cancel,
   * disable, corrections and enrolment changes over a fixed calendar, with local dates that do not
   * go back, no working date ever has both an attendance record and an active full-day leave day.
   */
  lemma NeverPresentAndOnLeave(env: Env, run: seq<Tick>, h: History, n: nat, r: Record, k: DayKey)
    requires IsHistory(env, run, h) && DatesForward(env, run) && n <= |run|
    requires r in h.states[n].records && k in h.states[n].days && k.date == r.workDate
    requires Active(h.states[n].days[k]) && env.working(k.date)
    ensures k.req < |h.states[n].requests| && h.states[n].requests[k.req].part != FullDay
  {
    hide Run, Step;
    HistoryIsRun(env, run, h, n);
    RunApart(env, run[..n], if n == 0 then 0 else run[n - 1].now);
    RunLeaveOk(env, run[..n]);
    SpanOf(h.states[n]);
  }
}
