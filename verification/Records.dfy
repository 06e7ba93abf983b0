// Attempts and records over whole runs: one record per date, accepted attempts and record
// marks match one to one, nothing recorded is altered, and a repeated key is answered from
// what its first call stored.

module Records {
  import opened Basics
  import opened Periods
  import opened Tables
  import opened LeaveWriter
  import opened CheckInOut
  import opened Lifecycle
  import opened Machine
  import opened Frames
  import opened RateLimit
  import opened Enrolment
  import opened LeaveLog

  // ---------------------------------------------------------------- invariant

  ghost predicate KeysDistinct(attempts: seq<Attempt>) {
    forall i, j :: 0 <= i < j < |attempts| ==> attempts[i].key != attempts[j].key
  }

  /** The record's marks point at the accepted attempts that made them. */
  ghost predicate Marked(env: Env, attempts: seq<Attempt>, r: Record) {
    && r.checkinAttempt < |attempts|
    && attempts[r.checkinAttempt].kind == CheckIn && attempts[r.checkinAttempt].outcome == Ok
    && attempts[r.checkinAttempt].at == r.checkinAt && r.workDate == env.today(r.checkinAt)
    && (r.checkout.Some? ==>
          var m := r.checkout.value;
          && r.checkinAttempt < m.attempt < |attempts|
          && attempts[m.attempt].kind == CheckOut && attempts[m.attempt].outcome == Ok
          && attempts[m.attempt].at == m.at && env.today(m.at) == r.workDate)
  }

  ghost predicate AllMarked(env: Env, attempts: seq<Attempt>, records: seq<Record>) {
    forall r :: r in records ==> Marked(env, attempts, r)
  }

  ghost predicate MarksDistinct(records: seq<Record>) {
    forall i, j :: 0 <= i < j < |records| ==>
      && records[i].workDate != records[j].workDate
      && records[i].checkinAttempt != records[j].checkinAttempt
      && (records[i].checkout.Some? && records[j].checkout.Some? ==>
            records[i].checkout.value.attempt != records[j].checkout.value.attempt)
  }

  /** Every accepted attempt made a mark. */
  ghost predicate AllKept(attempts: seq<Attempt>, records: seq<Record>) {
    forall j :: 0 <= j < |attempts| && attempts[j].outcome == Ok ==> Kept(attempts, records, j)
  }

  ghost predicate Kept(attempts: seq<Attempt>, records: seq<Record>, j: nat)
    requires j < |attempts|
  {
    if attempts[j].kind == CheckIn then exists r :: r in records && r.checkinAttempt == j
    else exists r :: r in records && r.checkout.Some? && r.checkout.value.attempt == j
  }

  ghost predicate RecordsOk(env: Env, attempts: seq<Attempt>, records: seq<Record>) {
    && KeysDistinct(attempts)
    && AllMarked(env, attempts, records)
    && MarksDistinct(records)
    && AllKept(attempts, records)
  }

  // ------------------------------------------------- the call in closed form

  datatype Effect = Untouched | Logged(outcome: Outcome) | CheckInMade | CheckOutMade(record: nat)

  ghost predicate HasEffect(env: Env, db: Db, now: Instant, p: PunchCall, r: Result, e: Effect) {
    var today := env.today(now);
    match e
    case Untouched => r.db.attempts == db.attempts && r.db.records == db.records
    case Logged(o) =>
      && o != Ok && FindKey(db.attempts, p.key).None? && r.reply == Rejection(o)
      && r.db.attempts == db.attempts + [Attempt(p.key, p.kind, o, now, BlockFor(db.attempts, now, o))]
      && r.db.records == db.records
    case CheckInMade =>
      && FindKey(db.attempts, p.key).None? && FindRecord(db.records, today).None?
      && p.kind == CheckIn && r.reply == CheckedIn(today, now)
      && r.db.attempts == db.attempts + [Attempt(p.key, CheckIn, Ok, now, None)]
      && At(db.assignments, today).Some?
      && r.db.records == db.records + [Record(today, At(db.assignments, today).value, now, |db.attempts|, None)]
    case CheckOutMade(i) =>
      && FindKey(db.attempts, p.key).None? && FindRecord(db.records, today) == Some(i)
      && db.records[i].checkout.None? && p.kind == CheckOut
      && r.reply == CheckedOut(today, db.records[i].checkinAt, now)
      && r.db.attempts == db.attempts + [Attempt(p.key, CheckOut, Ok, now, None)]
      && r.db.records == db.records[i := db.records[i].(checkout := Some(CheckoutMark(now, |db.attempts|)))]
  }

  lemma LadderIsNotTheRest(f: Fix, radiusM: real)
    ensures Ladder(f, radiusM) == Ok || Counted(Ladder(f, radiusM))
  {
  }

  lemma FindAppended(records: seq<Record>, r: Record)
    requires FindRecord(records, r.workDate).None?
    ensures FindRecord(records + [r], r.workDate) == Some(|records|)
  {
    assert (records + [r])[..|records|] == records;
  }

  lemma CheckInEffect(env: Env, db: Db, now: Instant, p: PunchCall)
    requires LeaveOk(db) && Decide(env, db, now, p) == Accept && p.kind == CheckIn && !p.taken
    ensures HasEffect(env, db, now, p, PunchStep(env, db, now, p), CheckInMade)
  {
    hide LeaveOk, LeaveGate, WriteDays, FindKey, FindByAttempt;
    var today, rows := env.today(now), CheckInRows(env, db, now, p);
    AcceptedCheckIn(env, db, now, p);
    FindAppended(db.records, rows.records[|db.records|]);
    AcceptedRows(env, db, now, p);
    LeaveOkReads(db, rows);
    if LeaveGate(env, db, today, CheckIn) {
      AutoCancelForm(env, rows, today, p.admins);
      WriteFrame(rows, ActiveLeave(rows, today).value, {today}, Cancelled, CheckinAutoCancel, Some(env.employee),
                 p.admins, Some(today));
    }
  }

  lemma WriteFrame(db: Db, req: nat, dates: set<Date>, to: DayState, cause: Cause, actor: Option<UserId>,
                   recipients: seq<UserId>, tag: Option<Date>)
    requires req < |db.requests|
    ensures var r := WriteDays(db, req, dates, to, cause, actor, recipients, tag);
            r == db.(days := r.days, events := r.events, notices := r.notices)
  {
  }

  lemma CheckOutEffect(env: Env, db: Db, now: Instant, p: PunchCall)
    requires MarksDistinct(db.records) && Decide(env, db, now, p) == Accept && p.kind == CheckOut && !p.taken
    ensures FindRecord(db.records, env.today(now)).Some?
    ensures HasEffect(env, db, now, p, PunchStep(env, db, now, p),
                      CheckOutMade(FindRecord(db.records, env.today(now)).value))
  {
    hide LeaveGate, FindKey, FindByAttempt;
    var today := env.today(now);
    var i := FindRecord(db.records, today).value;
    var after := CheckOutRows(db, now, p, i);
    var stored := FindRecord(after.records, today);
    assert after.records[i] in after.records;
    assert stored.Some?;
  }

  /** Every check-in/out call does one of these four things. */
  lemma PunchEffect(env: Env, db: Db, now: Instant, p: PunchCall) returns (e: Effect)
    requires LeaveOk(db) && MarksDistinct(db.records)
    ensures HasEffect(env, db, now, p, PunchStep(env, db, now, p), e)
    ensures e == Untouched ==> PunchStep(env, db, now, p).db == db
    ensures e == Untouched <==> FindKey(db.attempts, p.key).Some? || p.taken || Decide(env, db, now, p).Fail?
  {
    hide LeaveOk, FindKey, FindRecord, FindByAttempt, AcceptCheckIn, AcceptCheckOut, HasEffect;
    if FindKey(db.attempts, p.key).Some? || p.taken || Decide(env, db, now, p).Fail? {
      e := Untouched;
      UntouchedEffect(env, db, now, p);
    } else if Decide(env, db, now, p) == Accept {
      if p.kind == CheckIn {
        e := CheckInMade;
        CheckInEffect(env, db, now, p);
      } else {
        CheckOutEffect(env, db, now, p);
        e := CheckOutMade(FindRecord(db.records, env.today(now)).value);
      }
    } else {
      e := Logged(Decide(env, db, now, p).outcome);
      LoggedEffect(env, db, now, p);
    }
  }

  lemma UntouchedEffect(env: Env, db: Db, now: Instant, p: PunchCall)
    requires FindKey(db.attempts, p.key).Some? || p.taken || Decide(env, db, now, p).Fail?
    ensures PunchStep(env, db, now, p).db == db
    ensures HasEffect(env, db, now, p, PunchStep(env, db, now, p), Untouched)
  {
  }

  lemma LoggedEffect(env: Env, db: Db, now: Instant, p: PunchCall)
    requires Decide(env, db, now, p).Log? && !p.taken
    ensures HasEffect(env, db, now, p, PunchStep(env, db, now, p), Logged(Decide(env, db, now, p).outcome))
  {
    LadderIsNotTheRest(p.fix, p.radiusM);
  }

  // ------------------------------------------------------ preserving the rows

  lemma KeysStayDistinct(attempts: seq<Attempt>, a: Attempt)
    requires KeysDistinct(attempts) && FindKey(attempts, a.key).None?
    ensures KeysDistinct(attempts + [a])
  {
    forall i | 0 <= i < |attempts|
      ensures attempts[i].key != a.key
    {
      assert attempts[i] in attempts;
    }
  }

  lemma MarkedExtends(env: Env, attempts: seq<Attempt>, a: Attempt, r: Record)
    requires Marked(env, attempts, r)
    ensures Marked(env, attempts + [a], r)
  {
  }

  lemma LoggedKeeps(env: Env, attempts: seq<Attempt>, records: seq<Record>, a: Attempt)
    requires RecordsOk(env, attempts, records) && FindKey(attempts, a.key).None? && a.outcome != Ok
    ensures RecordsOk(env, attempts + [a], records)
  {
    KeysStayDistinct(attempts, a);
    forall j | 0 <= j < |attempts + [a]| && (attempts + [a])[j].outcome == Ok
      ensures Kept(attempts + [a], records, j)
    {
      assert Kept(attempts, records, j);
    }
  }

  lemma CheckInKeeps(env: Env, attempts: seq<Attempt>, records: seq<Record>, a: Attempt, r: Record)
    requires RecordsOk(env, attempts, records) && FindKey(attempts, a.key).None?
    requires a.kind == CheckIn && a.outcome == Ok && FindRecord(records, r.workDate).None?
    requires r.checkinAttempt == |attempts| && r.checkinAt == a.at && r.workDate == env.today(a.at) && r.checkout.None?
    ensures RecordsOk(env, attempts + [a], records + [r])
  {
    KeysStayDistinct(attempts, a);
    forall j | 0 <= j < |attempts + [a]| && (attempts + [a])[j].outcome == Ok
      ensures Kept(attempts + [a], records + [r], j)
    {
      if j < |attempts| {
        assert Kept(attempts, records, j);
      } else {
        assert r in records + [r];
      }
    }
    forall i | 0 <= i < |records|
      ensures Marked(env, attempts, records[i]) && records[i].workDate != r.workDate
    {
      assert records[i] in records;
    }
  }

  /** The records after record `i` is closed by attempt `mark`. */
  function Closed(records: seq<Record>, i: nat, mark: CheckoutMark): (after: seq<Record>)
    requires i < |records|
    ensures |after| == |records|
    ensures forall n :: 0 <= n < |records| ==>
              after[n] == if n == i then records[n].(checkout := Some(mark)) else records[n]
  {
    records[i := records[i].(checkout := Some(mark))]
  }

  lemma CheckOutMarked(env: Env, attempts: seq<Attempt>, records: seq<Record>, a: Attempt, i: nat)
    requires AllMarked(env, attempts, records) && MarksDistinct(records)
    requires a.kind == CheckOut && a.outcome == Ok && i < |records| && records[i].checkout.None?
    requires records[i].workDate == env.today(a.at)
    ensures var after := Closed(records, i, CheckoutMark(a.at, |attempts|));
            AllMarked(env, attempts + [a], after) && MarksDistinct(after)
  {
    hide Closed;
    var after := Closed(records, i, CheckoutMark(a.at, |attempts|));
    forall n | 0 <= n < |records|
      ensures Marked(env, attempts, records[n]) && Marked(env, attempts + [a], after[n])
    {
      assert records[n] in records;
    }
  }

  lemma CheckOutKept(attempts: seq<Attempt>, records: seq<Record>, a: Attempt, i: nat)
    requires AllKept(attempts, records) && a.kind == CheckOut && i < |records| && records[i].checkout.None?
    ensures AllKept(attempts + [a], Closed(records, i, CheckoutMark(a.at, |attempts|)))
  {
    hide Closed;
    var after := Closed(records, i, CheckoutMark(a.at, |attempts|));
    forall j | 0 <= j < |attempts + [a]| && (attempts + [a])[j].outcome == Ok
      ensures Kept(attempts + [a], after, j)
    {
      if j < |attempts| {
        assert Kept(attempts, records, j);
        var r :| r in records && if attempts[j].kind == CheckIn then r.checkinAttempt == j
                                 else r.checkout.Some? && r.checkout.value.attempt == j;
        var n :| 0 <= n < |records| && records[n] == r;
        assert after[n] in after && after[n].checkinAttempt == r.checkinAttempt;
      } else {
        assert after[i] in after;
      }
    }
  }

  lemma CheckOutKeeps(env: Env, attempts: seq<Attempt>, records: seq<Record>, a: Attempt, i: nat)
    requires RecordsOk(env, attempts, records) && FindKey(attempts, a.key).None?
    requires a.kind == CheckOut && a.outcome == Ok && i < |records| && records[i].checkout.None?
    requires records[i].workDate == env.today(a.at)
    ensures RecordsOk(env, attempts + [a], Closed(records, i, CheckoutMark(a.at, |attempts|)))
  {
    hide KeysDistinct, AllMarked, MarksDistinct, AllKept, Closed;
    KeysStayDistinct(attempts, a);
    CheckOutMarked(env, attempts, records, a, i);
    CheckOutKept(attempts, records, a, i);
  }

  lemma EffectKeeps(env: Env, db: Db, now: Instant, p: PunchCall, r: Result, e: Effect)
    requires RecordsOk(env, db.attempts, db.records) && HasEffect(env, db, now, p, r, e)
    ensures RecordsOk(env, r.db.attempts, r.db.records)
  {
    hide RecordsOk, FindKey, FindRecord, BlockFor;
    match e
    case Untouched =>
    case Logged(o) => LoggedKeeps(env, db.attempts, db.records, r.db.attempts[|db.attempts|]);
    case CheckInMade =>
      CheckInKeeps(env, db.attempts, db.records, r.db.attempts[|db.attempts|], r.db.records[|db.records|]);
    case CheckOutMade(i) => CheckOutKeeps(env, db.attempts, db.records, r.db.attempts[|db.attempts|], i);
  }

  ghost predicate Sound(env: Env, db: Db) {
    LeaveOk(db) && PeriodsOk(db) && RecordsOk(env, db.attempts, db.records)
  }

  lemma StepKeepsRecords(env: Env, db: Db, now: Instant, call: Call)
    requires Sound(env, db)
    ensures var after := Step(env, db, now, call).db; RecordsOk(env, after.attempts, after.records)
  {
    hide LeaveOk, PeriodsOk;
    if call.Punch? {
      var e := PunchEffect(env, db, now, call.punch);
      EffectKeeps(env, db, now, call.punch, PunchStep(env, db, now, call.punch), e);
    } else {
      hide Step;
      StepFrame(env, db, now, call);
    }
  }

  lemma {:induction false} RunSound(env: Env, run: seq<Tick>)
    ensures Sound(env, Run(env, run))
  {
    hide Step;
    RunLeaveOk(env, run);
    RunPeriodsOk(env, run);
    if run != [] {
      hide RecordsOk, LeaveOk, PeriodsOk;
      var n := |run| - 1;
      RunSound(env, run[..n]);
      RunStep(env, run);
      StepKeepsRecords(env, Run(env, run[..n]), run[n].now, run[n].call);
    }
  }

  // -------------------------------------------------------------- one to one

  /**
   * In every run the accepted check-ins match the records one to one, the accepted check-outs
   * match the closed records one to one, and a date has at most one record.
   */
  lemma AcceptedMatchRecords(env: Env, run: seq<Tick>, h: History, n: nat)
    requires IsHistory(env, run, h) && n <= |run|
    ensures var db := h.states[n];
            && (forall j :: 0 <= j < |db.attempts| && db.attempts[j].outcome == Ok && db.attempts[j].kind == CheckIn ==>
                  exists r :: r in db.records && r.checkinAttempt == j)
            && (forall j :: 0 <= j < |db.attempts| && db.attempts[j].outcome == Ok && db.attempts[j].kind == CheckOut ==>
                  exists r :: r in db.records && r.checkout.Some? && r.checkout.value.attempt == j)
            && (forall r :: r in db.records ==> Marked(env, db.attempts, r))
            && MarksDistinct(db.records)
  {
    hide Run, Step;
    HistoryIsRun(env, run, h, n);
    RunSound(env, run[..n]);
    var db := h.states[n];
    forall j | 0 <= j < |db.attempts| && db.attempts[j].outcome == Ok
      ensures Kept(db.attempts, db.records, j)
    {
    }
  }

  /** With a clock that does not go back, no record is closed before it is opened. */
  lemma NoCheckoutBeforeCheckin(env: Env, run: seq<Tick>, h: History, n: nat, r: Record)
    requires IsHistory(env, run, h) && Monotone(run) && n <= |run|
    requires r in h.states[n].records && r.checkout.Some?
    ensures r.checkinAt <= r.checkout.value.at
  {
    hide Run, Step;
    HistoryIsRun(env, run, h, n);
    RunSound(env, run[..n]);
    RunOrdered(env, run[..n], if n == 0 then 0 else run[n - 1].now);
    assert Marked(env, h.states[n].attempts, r);
  }

  /** What one table state keeps of an earlier one: all attempts, and every mark of every record. */
  ghost predicate Extends(before: Db, after: Db) {
    && |before.attempts| <= |after.attempts| && after.attempts[..|before.attempts|] == before.attempts
    && |before.records| <= |after.records|
    && forall i :: 0 <= i < |before.records| ==>
         || after.records[i] == before.records[i]
         || (before.records[i].checkout.None?
             && after.records[i] == before.records[i].(checkout := after.records[i].checkout))
  }

  /** Attempts are append-only; a record's check-out is set at most once and nothing else changes. */
  lemma StepExtends(env: Env, db: Db, now: Instant, call: Call)
    requires Sound(env, db)
    ensures Extends(db, Step(env, db, now, call).db)
  {
    hide LeaveOk, PeriodsOk;
    if call.Punch? {
      hide PunchStep, FindKey, FindRecord, BlockFor;
      var e := PunchEffect(env, db, now, call.punch);
    } else {
      hide Step;
      StepFrame(env, db, now, call);
    }
  }

  lemma {:induction false} RunExtends(env: Env, run: seq<Tick>, n: nat)
    requires n <= |run|
    ensures Extends(Run(env, run[..n]), Run(env, run))
    decreases |run|
  {
    hide Step, Sound;
    if n == |run| {
      assert run[..n] == run;
    } else {
      var m := |run| - 1;
      assert run[..m][..n] == run[..n];
      RunExtends(env, run[..m], n);
      RunSound(env, run[..m]);
      RunStep(env, run);
      StepExtends(env, Run(env, run[..m]), run[m].now, run[m].call);
      ExtendsTransitive(Run(env, run[..n]), Run(env, run[..m]), Run(env, run));
    }
  }

  lemma ExtendsTransitive(a: Db, b: Db, c: Db)
    requires Extends(a, b) && Extends(b, c)
    ensures Extends(a, c)
  {
    assert c.attempts[..|b.attempts|][..|a.attempts|] == c.attempts[..|a.attempts|];
  }

  /** Between any two points of a history attempts are only appended and records only closed, once. */
  lemma HistoryExtends(env: Env, run: seq<Tick>, h: History, m: nat, n: nat)
    requires IsHistory(env, run, h) && m <= n <= |run|
    ensures Extends(h.states[m], h.states[n])
  {
    hide Run, Step, Extends;
    HistoryIsRun(env, run, h, m);
    HistoryIsRun(env, run, h, n);
    assert run[..n][..m] == run[..m];
    RunExtends(env, run[..n], m);
  }

  /**
   * A committed call that is neither a replay nor a raced key adds exactly one attempt row; every
   * other call adds none.
   */
  lemma OneRowPerCall(env: Env, run: seq<Tick>, h: History, i: nat)
    requires IsHistory(env, run, h) && i < |run|
    ensures var before, after, call := h.states[i].attempts, h.states[i + 1].attempts, run[i].call;
            |after| == |before|
              + if call.Punch? && FindKey(before, call.punch.key).None? && !call.punch.taken then 1 else 0
  {
    hide Run, LeaveOk, PeriodsOk, FindKey, Step;
    HistoryIsRun(env, run, h, i);
    RunSound(env, run[..i]);
    StepAddsOneRow(env, h.states[i], run[i].now, run[i].call);
  }

  lemma StepAddsOneRow(env: Env, db: Db, now: Instant, call: Call)
    requires Sound(env, db)
    ensures |Step(env, db, now, call).db.attempts| == |db.attempts|
              + if call.Punch? && FindKey(db.attempts, call.punch.key).None? && !call.punch.taken then 1 else 0
  {
    hide LeaveOk, PeriodsOk, FindKey;
    if call.Punch? {
      NoPinBreach(env, db, now, call.punch);
      var e := PunchEffect(env, db, now, call.punch);
    } else {
      hide Step;
      StepFrame(env, db, now, call);
    }
  }

  // ------------------------------------------------------------- no breaches

  /** A tracked day always has an office: the missing-pin failure cannot happen. */
  lemma NoPinBreach(env: Env, db: Db, now: Instant, p: PunchCall)
    requires PeriodsOk(db)
    ensures !Decide(env, db, now, p).Fail?
  {
  }

  lemma ReplayFindsRecord(env: Env, db: Db, now: Instant, i: nat, kind: Kind)
    requires RecordsOk(env, db.attempts, db.records) && i < |db.attempts|
    ensures !ReplayReply(env, db, now, i, kind).Broken?
  {
    if db.attempts[i].kind == kind && db.attempts[i].outcome == Ok {
      assert Kept(db.attempts, db.records, i);
      var found := FindByAttempt(db.records, i);
      assert found.Some?;
      assert db.records[found.value] in db.records;
      assert Marked(env, db.attempts, db.records[found.value]);
    }
  }

  lemma PunchUnbroken(env: Env, db: Db, now: Instant, p: PunchCall)
    requires Sound(env, db)
    ensures !PunchStep(env, db, now, p).reply.Broken?
  {
    hide LeaveOk, PeriodsOk, RecordsOk;
    NoPinBreach(env, db, now, p);
    MarksOf(env, db);
    var e := PunchEffect(env, db, now, p);
    if FindKey(db.attempts, p.key).Some? {
      ReplayFindsRecord(env, db, now, FindKey(db.attempts, p.key).value, p.kind);
    }
  }

  lemma MarksOf(env: Env, db: Db)
    requires RecordsOk(env, db.attempts, db.records)
    ensures MarksDistinct(db.records)
  {
  }

  /**
   * No call of any run ends in one of the failures the code answers with an abort: a tracked day
   * without an office, an accepted attempt without its record, an unguarded check-out, an empty
   * read-back, a leave row-count mismatch, a second active leave day, overlapping periods, or
   * leave that vanished between gate and cancel.
   */
  lemma NoBreachEver(env: Env, run: seq<Tick>, h: History, i: nat)
    requires IsHistory(env, run, h) && i < |run|
    ensures !h.replies[i].Broken?
  {
    hide Run, Step, Sound;
    HistoryIsRun(env, run, h, i);
    RunSound(env, run[..i]);
    StepUnbroken(env, h.states[i], run[i].now, run[i].call);
    assert Result(h.states[i + 1], h.replies[i]) == Step(env, h.states[i], run[i].now, run[i].call);
  }

  lemma StepUnbroken(env: Env, db: Db, now: Instant, call: Call)
    requires Sound(env, db)
    ensures !Step(env, db, now, call).reply.Broken?
  {
    hide LeaveOk, PeriodsOk, RecordsOk;
    StepKeepsLeave(env, db, now, call);
    StepKeepsPeriods(env, db, now, call);
    match call
    case Punch(p) => PunchUnbroken(env, db, now, p);
    case ApplyLeave(a) => ApplyForm(env, db, now, a);
    case _ => OtherBreaches(env, db, now, call);
  }

  lemma OtherBreaches(env: Env, db: Db, now: Instant, call: Call)
    requires !call.Punch? && !call.ApplyLeave?
    ensures var reply := Step(env, db, now, call).reply;
            reply.Broken? ==> reply.breach == DayCountMismatch || reply.breach == PeriodClash
  {
    hide TransitionDays, Sweep, Change, Tidy, CoverageGuard, At;
  }

  // -------------------------------------------------------------- idempotency

  /** A key the employee already used writes nothing, whatever the button and the circumstances. */
  lemma BurnedKeyWritesNothing(env: Env, db: Db, now: Instant, p: PunchCall)
    requires exists a :: a in db.attempts && a.key == p.key
    ensures PunchStep(env, db, now, p).db == db
  {
    UntouchedEffect(env, db, now, p);
  }

  /** A stored call's answer does not depend on anything recorded after it. */
  lemma AnswerIsStable(env: Env, before: Db, after: Db, i: nat, s: Instant, t: Instant)
    requires RecordsOk(env, before.attempts, before.records) && RecordsOk(env, after.attempts, after.records)
    requires Extends(before, after) && i < |before.attempts|
    ensures ReplayReply(env, after, t, i, before.attempts[i].kind)
         == ReplayReply(env, before, s, i, before.attempts[i].kind)
  {
    assert after.attempts[..|before.attempts|][i] == before.attempts[i];
    if before.attempts[i].outcome == Ok {
      assert Kept(before.attempts, before.records, i) && Kept(after.attempts, after.records, i);
      var f, g := FindByAttempt(before.records, i).value, FindByAttempt(after.records, i).value;
      assert before.records[f] in before.records && after.records[g] in after.records && after.records[f] in after.records;
      assert Marked(env, before.attempts, before.records[f]) && Marked(env, after.attempts, after.records[g]);
      assert Produced(after.records[f], i);
      assert Marked(env, after.attempts, after.records[f]);
      assert f == g;
    }
  }

  /** The first answer is the one a repeat rebuilds from the stored rows. */
  lemma FirstAnswer(env: Env, db: Db, now: Instant, p: PunchCall, t: Instant)
    requires Sound(env, db)
    requires PunchStep(env, db, now, p).reply != DuplicateKey
    ensures var r := PunchStep(env, db, now, p);
            var i := FindKey(r.db.attempts, p.key);
            && i.Some?
            && (r.db.attempts[i.value].kind == p.kind || r.db.attempts[i.value] in db.attempts)
            && (r.db.attempts[i.value].kind == p.kind ==> r.reply == ReplayReply(env, r.db, t, i.value, p.kind))
  {
    hide LeaveOk, PeriodsOk, RecordsOk, PunchStep, FindKey, ReplayReply, HasEffect;
    SoundRecords(env, db);
    MarksOf(env, db);
    var r := PunchStep(env, db, now, p);
    var e := PunchEffect(env, db, now, p);
    if e == Untouched {
      RepliesFromStore(env, db, now, t, p);
    } else {
      EffectKeeps(env, db, now, p, r, e);
      StoredLast(env, db, now, p, r, e);
      StoredAnswer(env, db, now, p, r, e, t);
    }
  }

  lemma RepliesFromStore(env: Env, db: Db, now: Instant, t: Instant, p: PunchCall)
    requires PeriodsOk(db) && PunchStep(env, db, now, p).reply != DuplicateKey
    requires FindKey(db.attempts, p.key).Some? || p.taken || Decide(env, db, now, p).Fail?
    ensures FindKey(db.attempts, p.key).Some?
    ensures var i := FindKey(db.attempts, p.key).value;
            && db.attempts[i] in db.attempts && PunchStep(env, db, now, p).db == db
            && (db.attempts[i].kind == p.kind ==>
                  PunchStep(env, db, now, p).reply == ReplayReply(env, db, t, i, p.kind))
  {
    hide FindKey, FindRecord, FindByAttempt, Ladder, LeaveGate, Blocked, Tracked;
    NoPinBreach(env, db, now, p);
  }

  lemma StoredLast(env: Env, db: Db, now: Instant, p: PunchCall, r: Result, e: Effect)
    requires HasEffect(env, db, now, p, r, e) && e != Untouched
    ensures FindKey(r.db.attempts, p.key) == Some(|db.attempts|)
    ensures r.db.attempts[|db.attempts|].kind == p.kind
  {
    var n := |db.attempts|;
    assert r.db.attempts[..n] == db.attempts;
    assert r.db.attempts[n].key == p.key;
  }

  lemma StoredAnswer(env: Env, db: Db, now: Instant, p: PunchCall, r: Result, e: Effect, t: Instant)
    requires HasEffect(env, db, now, p, r, e) && e != Untouched
    requires RecordsOk(env, r.db.attempts, r.db.records)
    ensures r.reply == ReplayReply(env, r.db, t, |db.attempts|, p.kind)
  {
    var n := |db.attempts|;
    if !e.Logged? {
      assert Kept(r.db.attempts, r.db.records, n);
      var g := FindByAttempt(r.db.records, n).value;
      assert Marked(env, r.db.attempts, r.db.records[g]);
      var made := if e == CheckInMade then |db.records| else e.record;
      assert r.db.records[made] in r.db.records;
      assert g == made;
    }
  }

  lemma PunchIsStep(env: Env, db: Db, tick: Tick)
    requires tick.call.Punch?
    ensures Step(env, db, tick.now, tick.call) == PunchStep(env, db, tick.now, tick.call.punch)
  {
  }

  lemma SoundRecords(env: Env, db: Db)
    requires Sound(env, db)
    ensures RecordsOk(env, db.attempts, db.records)
  {
  }

  lemma KeyStays(first: Db, later: Db, key: Key, i: nat)
    requires KeysDistinct(later.attempts) && Extends(first, later) && FindKey(first.attempts, key) == Some(i)
    ensures FindKey(later.attempts, key) == Some(i)
  {
    assert later.attempts[..|first.attempts|][i] == first.attempts[i];
    assert later.attempts[i] in later.attempts;
  }

  lemma LaterReplay(env: Env, first: Db, later: Db, i: nat, now: Instant, q: PunchCall)
    requires RecordsOk(env, first.attempts, first.records) && RecordsOk(env, later.attempts, later.records)
    requires Extends(first, later) && FindKey(first.attempts, q.key) == Some(i) && first.attempts[i].kind == q.kind
    ensures PunchStep(env, later, now, q) == Result(later, ReplayReply(env, first, now, i, q.kind))
  {
    hide ReplayReply, FindKey, AllMarked, AllKept, MarksDistinct;
    KeyStays(first, later, q.key, i);
    AnswerIsStable(env, first, later, i, now, now);
  }

  /**
   * Idempotency over runs: once a call with a key has been answered (not as a duplicate), every
   * later call with the same key and the same button - after any other calls - writes nothing and
   * gets the same answer, down to the stored work date and instants. The key must not have been
   * used by the other button before.
   */
  lemma SameKeySameAnswer(env: Env, run: seq<Tick>, h: History, j: nat, k: nat)
    requires IsHistory(env, run, h) && j < k < |run| && run[j].call.Punch? && run[k].call.Punch?
    requires run[j].call.punch.key == run[k].call.punch.key && run[j].call.punch.kind == run[k].call.punch.kind
    requires h.replies[j] != DuplicateKey
    requires forall a :: a in h.states[j].attempts && a.key == run[j].call.punch.key ==> a.kind == run[j].call.punch.kind
    ensures h.states[k + 1] == h.states[k] && h.replies[k] == h.replies[j]
  {
    hide Step, Sound, PunchStep, ReplayReply, Run;
    var p, q := run[j].call.punch, run[k].call.punch;
    var first, later := h.states[j + 1], h.states[k];
    HistoryIsRun(env, run, h, j);
    HistoryIsRun(env, run, h, j + 1);
    HistoryIsRun(env, run, h, k);
    RunSound(env, run[..j]);
    RunSound(env, run[..j + 1]);
    RunSound(env, run[..k]);
    PunchIsStep(env, h.states[j], run[j]);
    PunchIsStep(env, later, run[k]);
    FirstAnswer(env, h.states[j], run[j].now, p, run[k].now);
    HistoryExtends(env, run, h, j + 1, k);
    var i := FindKey(first.attempts, p.key).value;
    SoundRecords(env, first);
    SoundRecords(env, later);
    LaterReplay(env, first, later, i, run[k].now, q);
  }
}
