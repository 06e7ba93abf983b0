// The correction audit over whole runs: the log is a faithful history of the shown overrides.

module Audit {
  import opened Basics
  import opened Tables
  import opened CheckInOut
  import opened Corrections
  import opened Machine
  import opened Frames

  /** What the corrections show on a date: the active override, or nothing. */
  function ShownNow(env: Env, db: Db, d: Date): Shown {
    var o := ActiveOverride(db, d);
    if o.Some? then ShownOf(env, o.value) else EMPTY_SHOWN
  }

  /** What the log says is shown on a date: the new value of its last entry. */
  function LoggedValue(log: seq<Correction>, d: Date): Shown {
    var last := LastCorrection(log, d);
    if last.Some? then last.value.newValue else EMPTY_SHOWN
  }

  /** Exactly one arm; a check-out needs an earlier check-in. */
  predicate OneArm(o: Override) {
    && (o.status.Some? <==> o.checkinAt.None?)
    && (o.checkoutAt.Some? ==> o.checkinAt.Some? && o.checkinAt.value < o.checkoutAt.value)
  }

  ghost predicate AllOneArm(overrides: map<Date, Override>) {
    forall d :: d in overrides && !overrides[d].deleted ==> OneArm(overrides[d])
  }

  ghost predicate LogShows(env: Env, db: Db) {
    forall d: Date :: LoggedValue(db.corrections, d) == ShownNow(env, db, d)
  }

  /** Each entry starts from the value the entries before it left. */
  ghost predicate Continuous(log: seq<Correction>) {
    forall i :: 0 <= i < |log| ==>
      LoggedValue(log[..i], log[i].workDate) != EMPTY_SHOWN ==>
        log[i].oldValue == LoggedValue(log[..i], log[i].workDate)
  }

  /** No entry removes or corrects nothing: some value stands on one side of it. */
  ghost predicate SaysSomething(log: seq<Correction>) {
    forall i :: 0 <= i < |log| ==> log[i].oldValue != EMPTY_SHOWN || log[i].newValue != EMPTY_SHOWN
  }

  ghost predicate AuditOk(env: Env, db: Db) {
    && AllOneArm(db.overrides)
    && LogShows(env, db)
    && Continuous(db.corrections)
    && SaysSomething(db.corrections)
  }

  lemma LoggedAppend(log: seq<Correction>, c: Correction, d: Date)
    ensures LoggedValue(log + [c], d) == if c.workDate == d then c.newValue else LoggedValue(log, d)
  {
    assert (log + [c])[..|log + [c]| - 1] == log;
  }

  lemma AppendKeepsHistory(log: seq<Correction>, c: Correction)
    requires Continuous(log) && SaysSomething(log)
    requires LoggedValue(log, c.workDate) != EMPTY_SHOWN ==> c.oldValue == LoggedValue(log, c.workDate)
    requires c.oldValue != EMPTY_SHOWN || c.newValue != EMPTY_SHOWN
    ensures Continuous(log + [c]) && SaysSomething(log + [c])
  {
    var after := log + [c];
    assert after[..|log|] == log;
    forall i | 0 <= i < |log|
      ensures after[..i] == log[..i]
    {
    }
  }

  lemma PutKeepsAudit(env: Env, db: Db, now: Instant, p: PutCall)
    requires AuditOk(env, db)
    ensures AuditOk(env, PutStep(env, db, now, p).db)
  {
    hide LoggedValue, LastCorrection;
    var after := PutStep(env, db, now, p).db;
    if PutRefusal(env, now, p).None? {
      var c := after.corrections[|db.corrections|];
      assert LoggedValue(db.corrections, p.workDate) == ShownNow(env, db, p.workDate);
      AppendKeepsHistory(db.corrections, c);
      forall d: Date
        ensures LoggedValue(after.corrections, d) == ShownNow(env, after, d)
      {
        LoggedAppend(db.corrections, c, d);
      }
    }
  }

  lemma RemoveKeepsAudit(env: Env, db: Db, now: Instant, d: Date, actor: UserId, employeeExists: bool, tracked: bool)
    requires AuditOk(env, db)
    ensures AuditOk(env, RemoveStep(env, db, now, d, actor, employeeExists, tracked).db)
  {
    hide LoggedValue, LastCorrection;
    var after := RemoveStep(env, db, now, d, actor, employeeExists, tracked).db;
    if after.corrections != db.corrections {
      var c := after.corrections[|db.corrections|];
      assert LoggedValue(db.corrections, d) == ShownNow(env, db, d);
      AppendKeepsHistory(db.corrections, c);
      forall e: Date
        ensures LoggedValue(after.corrections, e) == ShownNow(env, after, e)
      {
        LoggedAppend(db.corrections, c, e);
      }
    }
  }

  lemma {:induction false} RunAudited(env: Env, run: seq<Tick>)
    ensures AuditOk(env, Run(env, run))
  {
    if run != [] {
      hide Step, AuditOk;
      var n := |run| - 1;
      RunAudited(env, run[..n]);
      RunStep(env, run);
      StepKeepsAudit(env, Run(env, run[..n]), run[n].now, run[n].call);
    }
  }

  lemma AuditReads(env: Env, db: Db, other: Db)
    requires AuditOk(env, db) && other.overrides == db.overrides && other.corrections == db.corrections
    ensures AuditOk(env, other)
  {
    forall d: Date
      ensures ShownNow(env, other, d) == ShownNow(env, db, d)
    {
    }
  }

  lemma StepKeepsAudit(env: Env, db: Db, now: Instant, call: Call)
    requires AuditOk(env, db)
    ensures AuditOk(env, Step(env, db, now, call).db)
  {
    hide AuditOk;
    match call
    case PutCorrection(p) => PutKeepsAudit(env, db, now, p);
    case RemoveCorrection(d, actor, ok, tracked) => RemoveKeepsAudit(env, db, now, d, actor, ok, tracked);
    case _ =>
      hide Step;
      StepFrame(env, db, now, call);
      AuditReads(env, db, Step(env, db, now, call).db);
  }

  /**
   * In every run the audit log is a faithful history: the last entry of a date is what the
   * corrections show there (empty means no active override), every entry starts from the value
   * the entries before it left if that is not empty, no entry goes from nothing to nothing, and an
   * active override has exactly one arm.
   */
  lemma AuditIsHistory(env: Env, run: seq<Tick>, h: History, n: nat, d: Date, i: nat)
    requires IsHistory(env, run, h) && n <= |run| && i < |h.states[n].corrections|
    ensures var db := h.states[n];
            && LoggedValue(db.corrections, d) == ShownNow(env, db, d)
            && (LoggedValue(db.corrections, d) == EMPTY_SHOWN <==> ActiveOverride(db, d).None?)
            && (ActiveOverride(db, d).Some? ==> OneArm(ActiveOverride(db, d).value))
            && var c := db.corrections[i];
               && (c.oldValue != EMPTY_SHOWN || c.newValue != EMPTY_SHOWN)
               && (LoggedValue(db.corrections[..i], c.workDate) != EMPTY_SHOWN ==>
                   c.oldValue == LoggedValue(db.corrections[..i], c.workDate))
  {
    hide Run, Step;
    HistoryIsRun(env, run, h, n);
    RunAudited(env, run[..n]);
  }

  /** Correcting and removing never touch the attendance record, the attempts or the leave. */
  lemma CorrectionsTouchNothingElse(env: Env, db: Db, now: Instant, call: Call)
    requires call.PutCorrection? || call.RemoveCorrection?
    ensures var after := Step(env, db, now, call).db;
            after == db.(overrides := after.overrides, corrections := after.corrections)
  {
  }
}
