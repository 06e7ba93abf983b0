// Check-in/out: what one call decides and what it writes.

module CheckInOut {
  import opened Basics
  import opened Periods
  import opened Tables
  import opened LeaveWriter

  const CHECKIN_MAX_ACCURACY_M: real := 100.0
  const FIX_MAX_AGE_MS: int := 30_000
  const RATE_WINDOW: int := 10 * MINUTE
  const RATE_MAX_COUNTED: nat := 5
  const RATE_BLOCK: int := 10 * MINUTE
  const FAKE_LOCATION_ALERT_THRESHOLD: nat := 3

  predicate Counted(o: Outcome) {
    o == TooFar || o == LowAccuracy || o == Mocked || o == StaleFix
  }

  // -------------------------------------------------------------------- reads

  function FindKey(attempts: seq<Attempt>, key: Key): (r: Option<nat>)
    ensures r.Some? ==> r.value < |attempts| && attempts[r.value].key == key
    ensures r.None? ==> forall a :: a in attempts ==> a.key != key
  {
    if attempts == [] then None
    else
      var n := |attempts| - 1;
      var before := FindKey(attempts[..n], key);
      if before.Some? then before
      else if attempts[n].key == key then Some(n) else None
  }

  function FindRecord(records: seq<Record>, d: Date): (r: Option<nat>)
    ensures r.Some? ==> r.value < |records| && records[r.value].workDate == d
    ensures r.None? ==> forall x :: x in records ==> x.workDate != d
  {
    if records == [] then None
    else
      var n := |records| - 1;
      var before := FindRecord(records[..n], d);
      if before.Some? then before
      else if records[n].workDate == d then Some(n) else None
  }

  predicate Produced(r: Record, attempt: nat) {
    r.checkinAttempt == attempt || (r.checkout.Some? && r.checkout.value.attempt == attempt)
  }

  function FindByAttempt(records: seq<Record>, attempt: nat): (r: Option<nat>)
    ensures r.Some? ==> r.value < |records| && Produced(records[r.value], attempt)
    ensures r.None? ==> forall x :: x in records ==> !Produced(x, attempt)
  {
    if records == [] then None
    else
      var n := |records| - 1;
      var before := FindByAttempt(records[..n], attempt);
      if before.Some? then before
      else if Produced(records[n], attempt) then Some(n) else None
  }

  /** Some attempt row carries a block still in the future. */
  predicate Blocked(attempts: seq<Attempt>, now: Instant) {
    exists i :: 0 <= i < |attempts| && attempts[i].blockedUntil.Some? && attempts[i].blockedUntil.value > now
  }

  /** Counted rejections later than one window before `now`. */
  function WindowCount(attempts: seq<Attempt>, now: Instant): nat {
    if attempts == [] then 0
    else
      var a := attempts[|attempts| - 1];
      WindowCount(attempts[..|attempts| - 1], now) + if Counted(a.outcome) && a.at > now - RATE_WINDOW then 1 else 0
  }

  /** `mocked` attempts since the start of the local month of `now`. */
  function MonthlyMocked(env: Env, attempts: seq<Attempt>, now: Instant): nat {
    if attempts == [] then 0
    else
      var a := attempts[|attempts| - 1];
      MonthlyMocked(env, attempts[..|attempts| - 1], now)
      + if a.outcome == Mocked && env.month(a.at) >= env.month(now) then 1 else 0
  }

  predicate Tracked(db: Db, today: Date, s: Settings) {
    At(db.enrolments, today).Some? && s.setupCompleted && s.enabled
  }

  /** A full-day active leave on a working day holds the check-in until the employee confirms. */
  predicate LeaveGate(env: Env, db: Db, today: Date, kind: Kind) {
    && kind == CheckIn
    && ActiveLeave(db, today).Some?
    && ActiveLeave(db, today).value < |db.requests|
    && db.requests[ActiveLeave(db, today).value].part == FullDay
    && env.working(today)
  }

  /** The rejection ladder: exactly one outcome wins. */
  function Ladder(f: Fix, radiusM: real): Outcome {
    if f.fixAgeMs > FIX_MAX_AGE_MS then StaleFix
    else if f.accuracyM > CHECKIN_MAX_ACCURACY_M then LowAccuracy
    else if f.distanceM > radiusM then TooFar
    else if f.mocked then Mocked
    else Ok
  }

  // ----------------------------------------------------------------- decision

  datatype Decision = Replay(attempt: nat) | Log(outcome: Outcome) | Fail(breach: Breach) | Accept

  function Decide(env: Env, db: Db, now: Instant, p: PunchCall): Decision {
    var today := env.today(now);
    var prior := FindKey(db.attempts, p.key);
    var record := FindRecord(db.records, today);
    if prior.Some? then Replay(prior.value)
    else if Blocked(db.attempts, now) then Log(RateLimited)
    else if !Tracked(db, today, p.settings) then Log(NotTracked)
    else if p.kind == CheckIn && record.Some? then Log(AlreadyCheckedIn)
    else if p.kind == CheckOut && record.None? then Log(NotCheckedIn)
    else if p.kind == CheckOut && db.records[record.value].checkout.Some? then Log(AlreadyCheckedOut)
    else if LeaveGate(env, db, today, p.kind) && !p.confirm then Log(LeaveConfirmationRequired)
    else if At(db.assignments, today).None? then Fail(OfficePinMissing)
    else
      var o := Ladder(p.fix, p.radiusM);
      if o == Ok then Accept else Log(o)
  }

  // --------------------------------------------------------------- the writes

  /** The answer a stored attempt gives to a repeat of its key. */
  function ReplayReply(env: Env, db: Db, now: Instant, attempt: nat, kind: Kind): Reply
    requires attempt < |db.attempts|
  {
    var row := db.attempts[attempt];
    if row.kind != kind then
      var record := FindRecord(db.records, env.today(now));
      if kind == CheckIn && record.Some? then Rejection(AlreadyCheckedIn)
      else if kind == CheckOut && record.None? then Rejection(NotCheckedIn)
      else if kind == CheckOut && db.records[record.value].checkout.Some? then Rejection(AlreadyCheckedOut)
      else DuplicateKey
    else if row.outcome == Ok then
      var found := FindByAttempt(db.records, attempt);
      if found.None? then Broken(RecordMissing) else RecordReply(db.records[found.value], kind)
    else Rejection(row.outcome)
  }

  function RecordReply(r: Record, kind: Kind): Reply {
    match kind
    case CheckIn => CheckedIn(r.workDate, r.checkinAt)
    case CheckOut => if r.checkout.Some? then CheckedOut(r.workDate, r.checkinAt, r.checkout.value.at)
                     else Broken(RecordMissing)
  }

  /** The block a counted rejection arms: it is the fifth inside the window. */
  function BlockFor(attempts: seq<Attempt>, now: Instant, o: Outcome): Option<Instant> {
    if Counted(o) && WindowCount(attempts, now) + 1 >= RATE_MAX_COUNTED then Some(now + RATE_BLOCK) else None
  }

  function Alerts(env: Env, attempts: seq<Attempt>, now: Instant, o: Outcome, admins: seq<UserId>): set<NoticeKey> {
    if o == Mocked && MonthlyMocked(env, attempts, now) >= FAKE_LOCATION_ALERT_THRESHOLD
    then set u | u in admins :: FakeLocationAlert(u, env.month(now))
    else {}
  }

  /** A rejection is part of the committed outcome: the attempt row survives it. */
  function LogAttempt(env: Env, db: Db, now: Instant, p: PunchCall, o: Outcome): Db {
    var attempts := db.attempts + [Attempt(p.key, p.kind, o, now, BlockFor(db.attempts, now, o))];
    db.(attempts := attempts, notices := db.notices + Alerts(env, attempts, now, o, p.admins))
  }

  /** The accepted check-in: attempt and record rows. */
  function CheckInRows(env: Env, db: Db, now: Instant, p: PunchCall): Db
    requires At(db.assignments, env.today(now)).Some?
  {
    var today := env.today(now);
    db.(attempts := db.attempts + [Attempt(p.key, CheckIn, Ok, now, None)],
        records := db.records + [Record(today, At(db.assignments, today).value, now, |db.attempts|, None)])
  }

  /** The confirmed check-in cancels that one date of the leave covering it. */
  function AutoCancel(env: Env, db: Db, today: Date, admins: seq<UserId>): Option<Db> {
    var leave := ActiveLeave(db, today);
    if leave.None? || leave.value >= |db.requests| then Some(db)
    else TransitionDays(db, leave.value, {today}, {Pending, Approved}, Cancelled, CheckinAutoCancel,
                        Some(env.employee), admins, Some(today))
  }

  /** The accepted check-out: the attempt row and the one guarded update of the record. */
  function CheckOutRows(db: Db, now: Instant, p: PunchCall, record: nat): Db
    requires record < |db.records|
  {
    var mark := CheckoutMark(now, |db.attempts|);
    db.(attempts := db.attempts + [Attempt(p.key, CheckOut, Ok, now, None)],
        records := db.records[record := db.records[record].(checkout := Some(mark))])
  }

  function AcceptCheckIn(env: Env, db: Db, now: Instant, p: PunchCall): Result
    requires At(db.assignments, env.today(now)).Some?
  {
    var today := env.today(now);
    var rows := CheckInRows(env, db, now, p);
    var gate := LeaveGate(env, db, today, CheckIn);
    var done := if gate then AutoCancel(env, rows, today, p.admins) else Some(rows);
    if gate && ActiveLeave(rows, today).None? then Result(rows, Broken(LeaveVanished))
    else if done.None? then Result(db, Broken(DayCountMismatch))
    else Answered(db, done.value, today, CheckIn)
  }

  function AcceptCheckOut(env: Env, db: Db, now: Instant, p: PunchCall): Result {
    var today := env.today(now);
    var record := FindRecord(db.records, today);
    if record.None? || db.records[record.value].checkout.Some? then Result(db, Broken(CheckoutUnguarded))
    else Answered(db, CheckOutRows(db, now, p, record.value), today, CheckOut)
  }

  /** The stored row is read back for the answer; an empty read-back aborts. */
  function Answered(before: Db, after: Db, today: Date, kind: Kind): Result {
    var stored := FindRecord(after.records, today);
    if stored.None? then Result(before, Broken(ReadBackEmpty))
    else Result(after, RecordReply(after.records[stored.value], kind))
  }

  function PunchStep(env: Env, db: Db, now: Instant, p: PunchCall): Result {
    match Decide(env, db, now, p)
    case Replay(i) => Result(db, ReplayReply(env, db, now, i, p.kind))
    case Fail(b) => Result(db, Broken(b))
    case Log(o) =>
      if p.taken then Result(db, DuplicateKey)
      else Result(LogAttempt(env, db, now, p, o), Rejection(o))
    case Accept =>
      if p.taken then Result(db, DuplicateKey)
      else if p.kind == CheckIn then AcceptCheckIn(env, db, now, p)
      else AcceptCheckOut(env, db, now, p)
  }

  // ------------------------------------------------ the decision, both ways

  /** Exactly one outcome wins, in the order stale, inaccurate, far, mocked. */
  lemma LadderOrder(f: Fix, radiusM: real)
    ensures Ladder(f, radiusM) == StaleFix <==> f.fixAgeMs > 30_000
    ensures Ladder(f, radiusM) == LowAccuracy <==> f.fixAgeMs <= 30_000 && f.accuracyM > 100.0
    ensures Ladder(f, radiusM) == TooFar <==>
              f.fixAgeMs <= 30_000 && f.accuracyM <= 100.0 && f.distanceM > radiusM
    ensures Ladder(f, radiusM) == Mocked <==>
              f.fixAgeMs <= 30_000 && f.accuracyM <= 100.0 && f.distanceM <= radiusM && f.mocked
    ensures Ladder(f, radiusM) == Ok <==>
              f.fixAgeMs <= 30_000 && f.accuracyM <= 100.0 && f.distanceM <= radiusM && !f.mocked
  {
  }

  /** The date has an active full-day leave day on a working date. */
  ghost predicate OnFullDayLeave(env: Env, db: Db, d: Date) {
    && env.working(d)
    && exists req :: 0 <= req < |db.requests| && DayKey(req, d) in db.days && Active(db.days[DayKey(req, d)])
                     && db.requests[req].part == FullDay
  }

  lemma GateMeansLeave(env: Env, db: Db, d: Date)
    ensures LeaveGate(env, db, d, CheckIn) ==> OnFullDayLeave(env, db, d)
  {
    ActiveLeaveFound(db, d, |db.requests|);
  }

  /**
   * A call is accepted exactly if its key is unused, no block is in force, the day is tracked, the
   * day's record is absent (check-in) or open (check-out), full-day leave is confirmed away, and the
   * fix is fresh, accurate, near and genuine.
   */
  lemma AcceptedIff(env: Env, db: Db, now: Instant, p: PunchCall)
    ensures Decide(env, db, now, p) == Accept <==>
              && (forall a :: a in db.attempts ==> a.key != p.key)
              && (forall i :: 0 <= i < |db.attempts| && db.attempts[i].blockedUntil.Some? ==>
                    db.attempts[i].blockedUntil.value <= now)
              && Tracked(db, env.today(now), p.settings)
              && (p.kind == CheckIn ==> forall r :: r in db.records ==> r.workDate != env.today(now))
              && (p.kind == CheckOut ==> var r := FindRecord(db.records, env.today(now));
                                         r.Some? && db.records[r.value].checkout.None?)
              && (LeaveGate(env, db, env.today(now), p.kind) ==> p.confirm)
              && At(db.assignments, env.today(now)).Some?
              && Ladder(p.fix, p.radiusM) == Ok
  {
    hide LeaveGate, Ladder, Tracked, At;
    KeyUnused(db.attempts, p.key);
    NoRecordOn(db.records, env.today(now));
  }

  lemma KeyUnused(attempts: seq<Attempt>, key: Key)
    ensures FindKey(attempts, key).None? <==> forall a :: a in attempts ==> a.key != key
  {
    if FindKey(attempts, key).Some? {
      assert attempts[FindKey(attempts, key).value] in attempts;
    }
  }

  lemma NoRecordOn(records: seq<Record>, d: Date)
    ensures FindRecord(records, d).None? <==> forall r :: r in records ==> r.workDate != d
  {
    if FindRecord(records, d).Some? {
      assert records[FindRecord(records, d).value] in records;
    }
  }
}
