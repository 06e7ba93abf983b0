// Which answer every check-in/out call gets, and what it leaves, said on the rows of the tables: the
// gates in reporting order, each exactly when it refuses.

module PunchAnswers {
  import opened Basics
  import opened Periods
  import opened Tables
  import opened LeaveWriter
  import opened CheckInOut
  import opened LeaveLog

  // -------------------------------------------------------- the gates, on rows

  ghost predicate KeyUsed(db: Db, key: Key) {
    exists a :: a in db.attempts && a.key == key
  }

  /** Some attempt carries a block that has not ended. */
  ghost predicate BlockInForce(db: Db, now: Instant) {
    exists a :: a in db.attempts && a.blockedUntil.Some? && a.blockedUntil.value > now
  }

  /** Both settings are on and an enrolment row contains the date. */
  ghost predicate TrackedOn(db: Db, d: Date, s: Settings) {
    s.setupCompleted && s.enabled
    && exists e :: e in db.enrolments && e.start <= d && (e.end.None? || d < e.end.value)
  }

  /** The first record of the date (in a run: its only one). */
  ghost predicate FirstOn(db: Db, d: Date, i: nat) {
    && i < |db.records| && db.records[i].workDate == d
    && forall j :: 0 <= j < i ==> db.records[j].workDate != d
  }

  ghost predicate RecordedOn(db: Db, d: Date) {
    exists r :: r in db.records && r.workDate == d
  }

  ghost predicate ClosedOn(db: Db, d: Date) {
    exists i: nat :: FirstOn(db, d, i) && db.records[i].checkout.Some?
  }

  /** The latest request with an active day on the date (under the one-active-day rule: the only one). */
  ghost predicate LatestActive(db: Db, d: Date, req: nat) {
    && req < |db.requests| && DayKey(req, d) in db.days && db.days[DayKey(req, d)] in {Pending, Approved}
    && forall q :: req < q < |db.requests| && DayKey(q, d) in db.days ==> db.days[DayKey(q, d)] !in {Pending, Approved}
  }

  /** A working date with active full-day leave. */
  ghost predicate LeaveHolds(env: Env, db: Db, d: Date) {
    env.working(d) && exists req: nat :: LatestActive(db, d, req) && db.requests[req].part == FullDay
  }

  ghost predicate AssignedOn(db: Db, d: Date) {
    exists a :: a in db.assignments && a.start <= d && (a.end.None? || d < a.end.value)
  }

  /** Past the block, the tracking and the record's state. */
  ghost predicate PastState(db: Db, now: Instant, d: Date, p: PunchCall) {
    && !BlockInForce(db, now) && TrackedOn(db, d, p.settings)
    && (p.kind == CheckIn ==> !RecordedOn(db, d))
    && (p.kind == CheckOut ==> RecordedOn(db, d) && !ClosedOn(db, d))
  }

  /** Past the leave gate and with an office whose pin the fix can be held against. */
  ghost predicate PastGates(env: Env, db: Db, now: Instant, d: Date, p: PunchCall) {
    && PastState(db, now, d, p) && !(p.kind == CheckIn && LeaveHolds(env, db, d) && !p.confirm)
    && AssignedOn(db, d)
  }

  // ------------------------------------------------ the model's reads, on rows

  lemma {:induction false} AtIff<T>(rows: seq<Period<T>>, d: Date)
    ensures At(rows, d).Some? <==> exists p :: p in rows && p.start <= d && (p.end.None? || d < p.end.value)
    ensures At(rows, d).Some? ==>
              exists p :: p in rows && p.start <= d && (p.end.None? || d < p.end.value) && p.load == At(rows, d).value
  {
    if rows != [] {
      AtIff(rows[1..], d);
      assert forall p :: p in rows <==> p == rows[0] || p in rows[1..];
    }
  }

  lemma {:induction false} FirstRecord(db: Db, records: seq<Record>, d: Date)
    requires records <= db.records
    ensures FindRecord(records, d).Some? ==> FirstOn(db, d, FindRecord(records, d).value)
    ensures forall i: nat :: i < |records| && FirstOn(db, d, i) ==> FindRecord(records, d) == Some(i)
  {
    if records != [] {
      FirstRecord(db, records[..|records| - 1], d);
    }
  }

  lemma RecordIff(db: Db, d: Date)
    ensures FindRecord(db.records, d).Some? <==> RecordedOn(db, d)
    ensures var r := FindRecord(db.records, d);
            (r.Some? && db.records[r.value].checkout.Some?) <==> ClosedOn(db, d)
    ensures forall i: nat :: FindRecord(db.records, d) == Some(i) <==> FirstOn(db, d, i)
  {
    FirstRecord(db, db.records, d);
    NoRecordOn(db.records, d);
  }

  lemma {:induction false} LatestIff(db: Db, d: Date, n: nat)
    requires n <= |db.requests|
    ensures forall req: nat :: ActiveLeaveAmong(db, d, n) == Some(req) <==>
              && req < n && DayKey(req, d) in db.days && db.days[DayKey(req, d)] in {Pending, Approved}
              && forall q :: req < q < n && DayKey(q, d) in db.days ==> db.days[DayKey(q, d)] !in {Pending, Approved}
  {
    if n > 0 {
      LatestIff(db, d, n - 1);
    }
  }

  lemma GateIff(env: Env, db: Db, d: Date, kind: Kind)
    ensures LeaveGate(env, db, d, kind) <==> kind == CheckIn && LeaveHolds(env, db, d)
    ensures forall req: nat :: ActiveLeave(db, d) == Some(req) <==> LatestActive(db, d, req)
  {
    LatestIff(db, d, |db.requests|);
    var leave := ActiveLeave(db, d);
    if leave.Some? {
      assert LatestActive(db, d, leave.value);
    }
  }

  lemma BlockIff(db: Db, now: Instant)
    ensures Blocked(db.attempts, now) <==> BlockInForce(db, now)
  {
    if Blocked(db.attempts, now) {
      var i :| 0 <= i < |db.attempts| && db.attempts[i].blockedUntil.Some? && db.attempts[i].blockedUntil.value > now;
      assert db.attempts[i] in db.attempts;
    }
  }

  // ------------------------------------------------------------- rejections

  /** The call is answered with the outcome and the rejection is kept as one attempt row. */
  ghost predicate RejectedWith(db: Db, now: Instant, p: PunchCall, r: Result, o: Outcome) {
    && r.reply == Rejection(o) && |r.db.attempts| == |db.attempts| + 1
    && r.db.attempts[..|db.attempts|] == db.attempts
    && var a := r.db.attempts[|db.attempts|];
       a.key == p.key && a.kind == p.kind && a.outcome == o && a.at == now
  }

  lemma LoggedIs(env: Env, db: Db, now: Instant, p: PunchCall, o: Outcome)
    requires Decide(env, db, now, p) == Log(o) && !p.taken
    ensures forall q: Outcome :: RejectedWith(db, now, p, PunchStep(env, db, now, p), q) <==> q == o
  {
    hide Decide, BlockFor, Alerts;
  }

  lemma AcceptedIsNoRejection(env: Env, db: Db, now: Instant, p: PunchCall)
    requires Decide(env, db, now, p) == Accept
    ensures !PunchStep(env, db, now, p).reply.Rejection?
  {
    hide Decide, LeaveGate, FindRecord, ActiveLeave, AutoCancel, CheckInRows, CheckOutRows;
    if p.kind == CheckIn {
      AcceptedAt(env, db, now, p);
    }
  }

  lemma AcceptedAt(env: Env, db: Db, now: Instant, p: PunchCall)
    requires Decide(env, db, now, p) == Accept
    ensures At(db.assignments, env.today(now)).Some?
  {
  }

  /**
   * Which rejection a call with a fresh key gets, in reporting order; exactly one row is kept and it
   * carries the outcome answered.
   */
  lemma RejectionIff(env: Env, db: Db, now: Instant, p: PunchCall, o: Outcome)
    requires !KeyUsed(db, p.key) && !p.taken
    ensures var d := env.today(now);
            RejectedWith(db, now, p, PunchStep(env, db, now, p), o) <==>
              match o
              case RateLimited => BlockInForce(db, now)
              case NotTracked => !BlockInForce(db, now) && !TrackedOn(db, d, p.settings)
              case AlreadyCheckedIn =>
                !BlockInForce(db, now) && TrackedOn(db, d, p.settings) && p.kind == CheckIn && RecordedOn(db, d)
              case NotCheckedIn =>
                !BlockInForce(db, now) && TrackedOn(db, d, p.settings) && p.kind == CheckOut && !RecordedOn(db, d)
              case AlreadyCheckedOut =>
                !BlockInForce(db, now) && TrackedOn(db, d, p.settings) && p.kind == CheckOut && ClosedOn(db, d)
              case LeaveConfirmationRequired =>
                PastState(db, now, d, p) && p.kind == CheckIn && LeaveHolds(env, db, d) && !p.confirm
              case StaleFix => PastGates(env, db, now, d, p) && p.fix.fixAgeMs > 30_000
              case LowAccuracy =>
                PastGates(env, db, now, d, p) && p.fix.fixAgeMs <= 30_000 && p.fix.accuracyM > 100.0
              case TooFar =>
                && PastGates(env, db, now, d, p) && p.fix.fixAgeMs <= 30_000 && p.fix.accuracyM <= 100.0
                && p.fix.distanceM > p.radiusM
              case Mocked =>
                && PastGates(env, db, now, d, p) && p.fix.fixAgeMs <= 30_000 && p.fix.accuracyM <= 100.0
                && p.fix.distanceM <= p.radiusM && p.fix.mocked
              case Ok => false
  {
    var d := env.today(now);
    DecisionIs(env, db, now, p);
    hide Decide, PunchStep, BlockInForce, TrackedOn, RecordedOn, ClosedOn, LeaveHolds, AssignedOn, RejectedWith;
    match Decide(env, db, now, p)
    case Log(q) => LoggedIs(env, db, now, p, q);
    case Fail(_) => FailedIsNoRejection(env, db, now, p);
    case Accept => AcceptedIsNoRejection(env, db, now, p);
           NoRejection(db, now, p, PunchStep(env, db, now, p), o);
  }

  lemma NoRejection(db: Db, now: Instant, p: PunchCall, r: Result, o: Outcome)
    requires !r.reply.Rejection?
    ensures !RejectedWith(db, now, p, r, o)
  {
  }

  lemma FailedIsNoRejection(env: Env, db: Db, now: Instant, p: PunchCall)
    requires Decide(env, db, now, p).Fail?
    ensures forall q: Outcome :: !RejectedWith(db, now, p, PunchStep(env, db, now, p), q)
  {
    hide Decide;
  }

  /** The decision on a fresh key, gate by gate. */
  lemma DecisionIs(env: Env, db: Db, now: Instant, p: PunchCall)
    requires !KeyUsed(db, p.key)
    ensures var d, r := env.today(now), Decide(env, db, now, p);
            && !r.Replay?
            && (r == Log(RateLimited) <==> BlockInForce(db, now))
            && (r == Log(NotTracked) <==> !BlockInForce(db, now) && !TrackedOn(db, d, p.settings))
            && (r == Log(AlreadyCheckedIn) <==>
                  !BlockInForce(db, now) && TrackedOn(db, d, p.settings) && p.kind == CheckIn && RecordedOn(db, d))
            && (r == Log(NotCheckedIn) <==>
                  !BlockInForce(db, now) && TrackedOn(db, d, p.settings) && p.kind == CheckOut && !RecordedOn(db, d))
            && (r == Log(AlreadyCheckedOut) <==>
                  !BlockInForce(db, now) && TrackedOn(db, d, p.settings) && p.kind == CheckOut && ClosedOn(db, d))
            && (r == Log(LeaveConfirmationRequired) <==>
                  PastState(db, now, d, p) && p.kind == CheckIn && LeaveHolds(env, db, d) && !p.confirm)
            && (r == Fail(OfficePinMissing) <==>
                  && PastState(db, now, d, p) && !(p.kind == CheckIn && LeaveHolds(env, db, d) && !p.confirm)
                  && !AssignedOn(db, d))
            && (r.Fail? ==> r == Fail(OfficePinMissing))
            && (PastGates(env, db, now, d, p) ==>
                  r == if Ladder(p.fix, p.radiusM) == Ok then Accept else Log(Ladder(p.fix, p.radiusM)))
            && (r == Accept ==> PastGates(env, db, now, d, p))
            && (r.Log? && r.outcome in {StaleFix, LowAccuracy, TooFar, Mocked} ==> PastGates(env, db, now, d, p))
            && r != Log(Ok)
  {
    var d := env.today(now);
    KeyUnused(db.attempts, p.key);
    BlockIff(db, now);
    AtIff(db.enrolments, d);
    AtIff(db.assignments, d);
    RecordIff(db, d);
    GateIff(env, db, d, p.kind);
    hide FindKey, FindRecord, Blocked, LeaveGate, At, BlockInForce, RecordedOn, ClosedOn, LeaveHolds;
  }

  /** Under the one-active-day rule the leave that holds a check-in is any active full-day leave. */
  lemma HoldsIsFullDayLeave(env: Env, db: Db, d: Date)
    requires LeaveOk(db)
    ensures LeaveHolds(env, db, d) <==> OnFullDayLeave(env, db, d)
  {
    hide LogTells, NoMix, KeysUnique, EventsOfRequests;
    if OnFullDayLeave(env, db, d) {
      var req: nat :| 0 <= req < |db.requests| && DayKey(req, d) in db.days && Active(db.days[DayKey(req, d)])
                      && db.requests[req].part == FullDay;
      assert LatestActive(db, d, req);
    }
  }

  // --------------------------------------------------- what a rejection leaves

  /** Attempts of ten minutes before `now` with a counted outcome. */
  ghost function CountedBefore(attempts: seq<Attempt>, now: Instant): set<nat> {
    set i: nat | i < |attempts| && attempts[i].outcome in {TooFar, LowAccuracy, Mocked, StaleFix}
                 && attempts[i].at > now - 600_000
  }

  /** Mocked attempts since the start of the local month. */
  ghost function MockedThisMonth(env: Env, attempts: seq<Attempt>, now: Instant): set<nat> {
    set i: nat | i < |attempts| && attempts[i].outcome == Mocked && env.month(attempts[i].at) >= env.month(now)
  }

  lemma {:induction false} CountIs(attempts: seq<Attempt>, now: Instant)
    ensures WindowCount(attempts, now) == |CountedBefore(attempts, now)|
  {
    if attempts == [] {
      assert CountedBefore(attempts, now) == {};
    } else {
      var n := |attempts| - 1;
      CountIs(attempts[..n], now);
      var a := attempts[n];
      assert CountedBefore(attempts, now)
          == CountedBefore(attempts[..n], now)
             + if Counted(a.outcome) && a.at > now - RATE_WINDOW then {n} else {};
    }
  }

  lemma {:induction false} MonthIs(env: Env, attempts: seq<Attempt>, now: Instant)
    ensures MonthlyMocked(env, attempts, now) == |MockedThisMonth(env, attempts, now)|
  {
    if attempts == [] {
      assert MockedThisMonth(env, attempts, now) == {};
    } else {
      var n := |attempts| - 1;
      MonthIs(env, attempts[..n], now);
      var a := attempts[n];
      assert MockedThisMonth(env, attempts, now)
          == MockedThisMonth(env, attempts[..n], now)
             + if a.outcome == Mocked && env.month(a.at) >= env.month(now) then {n} else {};
    }
  }

  /**
   * The rejected call leaves one attempt row, which carries a block of ten minutes exactly if its
   * outcome is counted and four counted ones precede it in ten minutes; and, on the third mocked
   * attempt of the month or a later one, each admin's alert of the month.
   */
  lemma RejectionWrites(env: Env, db: Db, now: Instant, p: PunchCall, o: Outcome)
    requires !KeyUsed(db, p.key) && !p.taken && RejectedWith(db, now, p, PunchStep(env, db, now, p), o)
    ensures var counted := o in {TooFar, LowAccuracy, Mocked, StaleFix};
            var block := if counted && |CountedBefore(db.attempts, now)| >= 4 then Some(now + 600_000) else None;
            var alerts := if o == Mocked && |MockedThisMonth(env, db.attempts, now)| >= 2
                          then set u | u in p.admins :: FakeLocationAlert(u, env.month(now)) else {};
            PunchStep(env, db, now, p).db
            == db.(attempts := db.attempts + [Attempt(p.key, p.kind, o, now, block)], notices := db.notices + alerts)
  {
    hide Decide, BlockInForce, TrackedOn, RecordedOn, ClosedOn, LeaveHolds, AssignedOn, PastState, PastGates, RejectedWith,
         AcceptCheckIn, AcceptCheckOut, ReplayReply;
    DecisionIs(env, db, now, p);
    match Decide(env, db, now, p)
    case Fail(_) => FailedIsNoRejection(env, db, now, p);
    case Accept =>
      AcceptedIsNoRejection(env, db, now, p);
      NoRejection(db, now, p, PunchStep(env, db, now, p), o);
    case Log(q) =>
      LoggedIs(env, db, now, p, q);
      var row := Attempt(p.key, p.kind, q, now, BlockFor(db.attempts, now, q));
      CountIs(db.attempts, now);
      MonthIs(env, db.attempts, now);
      assert (db.attempts + [row])[..|db.attempts + [row]| - 1] == db.attempts;
  }

  // ------------------------------------------- used, taken and unpinned calls

  /** The first attempt with the key. */
  ghost predicate FirstWithKey(db: Db, key: Key, i: nat) {
    i < |db.attempts| && db.attempts[i].key == key && forall j :: 0 <= j < i ==> db.attempts[j].key != key
  }

  /** The first record an attempt made or closed. */
  ghost predicate FirstMadeBy(db: Db, attempt: nat, i: nat) {
    && i < |db.records| && MadeBy(db.records[i], attempt)
    && forall j :: 0 <= j < i ==> !MadeBy(db.records[j], attempt)
  }

  predicate MadeBy(r: Record, attempt: nat) {
    r.checkinAttempt == attempt || (r.checkout.Some? && r.checkout.value.attempt == attempt)
  }

  lemma {:induction false} KeyFirst(db: Db, attempts: seq<Attempt>, key: Key)
    requires attempts <= db.attempts
    ensures FindKey(attempts, key).Some? ==> FirstWithKey(db, key, FindKey(attempts, key).value)
    ensures forall i: nat :: i < |attempts| && FirstWithKey(db, key, i) ==> FindKey(attempts, key) == Some(i)
  {
    if attempts != [] {
      KeyFirst(db, attempts[..|attempts| - 1], key);
    }
  }

  lemma {:induction false} MadeFirst(db: Db, records: seq<Record>, attempt: nat)
    requires records <= db.records
    ensures FindByAttempt(records, attempt).None? ==> forall j :: 0 <= j < |records| ==> !MadeBy(db.records[j], attempt)
    ensures FindByAttempt(records, attempt).Some? ==> FirstMadeBy(db, attempt, FindByAttempt(records, attempt).value)
    ensures forall i: nat :: i < |records| && FirstMadeBy(db, attempt, i) ==> FindByAttempt(records, attempt) == Some(i)
  {
    if records != [] {
      MadeFirst(db, records[..|records| - 1], attempt);
    }
  }

  /**
   * A used key writes nothing. The other button is answered from today's record; the same button with
   * the stored rejection, or with the work date and the instants of the record the attempt made.
   */
  lemma UsedKeyAnswer(env: Env, db: Db, now: Instant, p: PunchCall, i: nat)
    requires FirstWithKey(db, p.key, i)
    ensures var r, a, d := PunchStep(env, db, now, p), db.attempts[i], env.today(now);
            && r.db == db
            && (a.kind != p.kind ==>
                  r.reply == if p.kind == CheckIn && RecordedOn(db, d) then Rejection(AlreadyCheckedIn)
                             else if p.kind == CheckOut && !RecordedOn(db, d) then Rejection(NotCheckedIn)
                             else if p.kind == CheckOut && ClosedOn(db, d) then Rejection(AlreadyCheckedOut)
                             else DuplicateKey)
            && (a.kind == p.kind && a.outcome != Ok ==> r.reply == Rejection(a.outcome))
            && (a.kind == p.kind && a.outcome == Ok ==> forall m: nat :: FirstMadeBy(db, i, m) ==>
                  var x := db.records[m];
                  if p.kind == CheckIn then r.reply == CheckedIn(x.workDate, x.checkinAt)
                  else x.checkout.Some? ==> r.reply == CheckedOut(x.workDate, x.checkinAt, x.checkout.value.at))
  {
    KeyFirst(db, db.attempts, p.key);
    RecordIff(db, env.today(now));
    MadeFirst(db, db.records, i);
    hide FindKey, FindRecord, FindByAttempt, RecordedOn, ClosedOn, FirstMadeBy, FirstWithKey;
  }

  /** A key another employee holds writes nothing, and so does a call without an office to hold the fix against. */
  lemma NoRowAnswer(env: Env, db: Db, now: Instant, p: PunchCall)
    requires !KeyUsed(db, p.key)
    ensures var r, d := PunchStep(env, db, now, p), env.today(now);
            var unpinned := && PastState(db, now, d, p) && !AssignedOn(db, d)
                            && !(p.kind == CheckIn && LeaveHolds(env, db, d) && !p.confirm);
            && (unpinned ==> r == Result(db, Broken(OfficePinMissing)))
            && (p.taken && !unpinned ==> r == Result(db, DuplicateKey))
  {
    DecisionIs(env, db, now, p);
    hide Decide, KeyUsed, BlockInForce, TrackedOn, RecordedOn, ClosedOn, LeaveHolds, AssignedOn, PastState, PastGates;
  }

  // --------------------------------------------------------------- acceptance

  /** Every gate is passed and the fix is fresh, accurate, near and genuine. */
  ghost predicate Passes(env: Env, db: Db, now: Instant, p: PunchCall) {
    && PastGates(env, db, now, env.today(now), p)
    && p.fix.fixAgeMs <= 30_000 && p.fix.accuracyM <= 100.0 && p.fix.distanceM <= p.radiusM && !p.fix.mocked
  }

  lemma AcceptsIff(env: Env, db: Db, now: Instant, p: PunchCall)
    requires !KeyUsed(db, p.key)
    ensures Decide(env, db, now, p) == Accept <==> Passes(env, db, now, p)
  {
    DecisionIs(env, db, now, p);
    hide Decide, KeyUsed, PastGates, PastState;
  }

  /** The day keys with one day of one request cancelled. */
  ghost predicate OnlyCancels(before: map<DayKey, DayState>, after: map<DayKey, DayState>, k: DayKey) {
    && k in after && after[k] == Cancelled && after.Keys == before.Keys
    && forall other :: other in before && other != k ==> after[other] == before[other]
  }

  /**
   * An accepted check-in is answered with today's date and this instant, adds the attempt and the
   * record at the office that covers today, and - if leave held it - cancels today's day of that
   * request with one event by the employee and the admins' messages.
   */
  lemma CheckInAnswer(env: Env, db: Db, now: Instant, p: PunchCall)
    requires LeaveOk(db) && !KeyUsed(db, p.key) && !p.taken && p.kind == CheckIn && Passes(env, db, now, p)
    ensures var r, d := PunchStep(env, db, now, p), env.today(now);
            && r.reply == CheckedIn(d, now)
            && r.db.attempts == db.attempts + [Attempt(p.key, CheckIn, Ok, now, None)]
            && (exists a :: a in db.assignments && a.start <= d && (a.end.None? || d < a.end.value)
                            && r.db.records == db.records + [Record(d, a.load, now, |db.attempts|, None)])
            && r.db == db.(attempts := r.db.attempts, records := r.db.records, days := r.db.days,
                           events := r.db.events, notices := r.db.notices)
            && (!LeaveHolds(env, db, d) ==>
                  r.db.days == db.days && r.db.events == db.events && r.db.notices == db.notices)
            && (LeaveHolds(env, db, d) ==> forall req: nat :: LatestActive(db, d, req) ==>
                  && OnlyCancels(db.days, r.db.days, DayKey(req, d))
                  && r.db.events == db.events + [Event(req, CheckinAutoCancel, Some(env.employee), {d})]
                  && r.db.notices == db.notices + set u | u in p.admins ::
                       LeaveNotice(CheckinAutoCancel, u, db.requests[req].key, Some(d)))
  {
    hide LeaveOk, FindKey, FindByAttempt, WriteDays, AutoCancel, Passes, LeaveHolds, LatestActive;
    var d := env.today(now);
    AcceptsIff(env, db, now, p);
    AtIff(db.assignments, d);
    hide At;
    var rows := CheckInRows(env, db, now, p);
    GateIff(env, db, d, CheckIn);
    AcceptedRows(env, db, now, p);
    LeaveOkReads(db, rows);
    SameActiveLeave(db, rows, d, |db.requests|);
    FreshRecord(db.records, rows.records[|db.records|]);
    if LeaveGate(env, db, d, CheckIn) {
      AutoCancelForm(env, rows, d, p.admins);
      CancelledOne(rows, ActiveLeave(rows, d).value, d, env.employee, p.admins);
    }
  }

  lemma FreshRecord(records: seq<Record>, r: Record)
    ensures FindRecord(records, r.workDate).None? ==> FindRecord(records + [r], r.workDate) == Some(|records|)
  {
    assert (records + [r])[..|records|] == records;
  }

  lemma CancelledOne(db: Db, req: nat, d: Date, employee: UserId, admins: seq<UserId>)
    requires req < |db.requests| && DayKey(req, d) in db.days
    ensures var after := WriteDays(db, req, {d}, Cancelled, CheckinAutoCancel, Some(employee), admins, Some(d));
            && OnlyCancels(db.days, after.days, DayKey(req, d))
            && after == db.(days := after.days,
                            events := db.events + [Event(req, CheckinAutoCancel, Some(employee), {d})],
                            notices := db.notices + set u | u in admins ::
                              LeaveNotice(CheckinAutoCancel, u, db.requests[req].key, Some(d)))
  {
    assert forall k: DayKey :: k == DayKey(k.req, k.date);
  }

  /** An accepted check-out is answered with the record's dates and this instant, and closes just that record. */
  lemma CheckOutAnswer(env: Env, db: Db, now: Instant, p: PunchCall, i: nat)
    requires !KeyUsed(db, p.key) && !p.taken && p.kind == CheckOut && Passes(env, db, now, p)
    requires FirstOn(db, env.today(now), i)
    ensures var x := db.records[i];
            PunchStep(env, db, now, p)
            == Result(db.(attempts := db.attempts + [Attempt(p.key, CheckOut, Ok, now, None)],
                          records := db.records[i := x.(checkout := Some(CheckoutMark(now, |db.attempts|)))]),
                      CheckedOut(env.today(now), x.checkinAt, now))
  {
    hide LeaveGate, FindKey, FindByAttempt, LeaveHolds, Decide;
    AcceptsIff(env, db, now, p);
    RecordIff(db, env.today(now));
    var closed := db.(records := db.records[i := db.records[i].(checkout := Some(CheckoutMark(now, |db.attempts|)))]);
    assert FirstOn(closed, env.today(now), i);
    RecordIff(closed, env.today(now));
    hide FindRecord;
  }
}
