// What each call leaves alone.

module Frames {
  import opened Basics
  import opened Tables
  import opened Periods
  import opened LeaveWriter
  import opened CheckInOut
  import opened Leave
  import opened Lifecycle
  import opened Corrections
  import opened Machine

  lemma {:induction false} SweepFrame(env: Env, db: Db, from: Date, n: nat)
    requires n <= |db.requests|
    ensures var r := Sweep(env, db, from, n);
            r.Some? ==> r.value == db.(days := r.value.days, events := r.value.events, notices := r.value.notices)
  {
    if n > 0 {
      SweepFrame(env, db, from, n - 1);
    }
  }

  lemma PunchFrame(env: Env, db: Db, now: Instant, p: PunchCall)
    ensures var r := PunchStep(env, db, now, p).db;
            r == db.(attempts := r.attempts, records := r.records, days := r.days, events := r.events,
                     notices := r.notices)
  {
  }

  lemma ApplyFrame(env: Env, db: Db, now: Instant, a: ApplyCall)
    ensures var r := ApplyStep(env, db, now, a).db;
            r == db.(requests := r.requests, days := r.days, events := r.events, notices := r.notices)
  {
  }

  lemma ActFrame(env: Env, db: Db, now: Instant, req: nat, actor: UserId, action: OwnerAction)
    ensures var r := ActStep(env, db, now, req, actor, action).db;
            r == db.(days := r.days, events := r.events, notices := r.notices)
  {
  }

  lemma CancelFrame(env: Env, db: Db, now: Instant, req: nat, admins: seq<UserId>)
    ensures var r := CancelStep(env, db, now, req, admins).db;
            r == db.(days := r.days, events := r.events, notices := r.notices)
  {
  }

  lemma DisableFrame(env: Env, db: Db, now: Instant, effective: Option<Date>, employeeOk: bool, live: bool)
    ensures var r := DisableStep(env, db, now, effective, employeeOk, live).db;
            r == db.(days := r.days, events := r.events, notices := r.notices, enrolments := r.enrolments,
                     assignments := r.assignments)
  {
    var from := Clamped(effective, env.today(now));
    SweepFrame(env, AfterDisable(db, from), from, |db.requests|);
  }

  lemma EnrolFrame(env: Env, db: Db, now: Instant, call: Call)
    requires call.Enable? || call.Reassign?
    ensures var r := Step(env, db, now, call).db;
            r == db.(enrolments := r.enrolments, assignments := r.assignments, nextId := r.nextId)
  {
    hide Change, Tidy, CoverageGuard, At, ReassignFrom;
  }

  lemma CorrectionFrame(env: Env, db: Db, now: Instant, call: Call)
    requires call.PutCorrection? || call.RemoveCorrection?
    ensures var r := Step(env, db, now, call).db; r == db.(overrides := r.overrides, corrections := r.corrections)
  {
    hide PutRefusal, OldValue, ActiveOverride;
  }

  /** Each table is written only by the calls that own it. */
  lemma StepFrame(env: Env, db: Db, now: Instant, call: Call)
    ensures var after := Step(env, db, now, call).db;
            && (!call.Punch? ==> after.attempts == db.attempts && after.records == db.records)
            && (!call.ApplyLeave? ==> after.requests == db.requests)
            && (!call.Enable? && !call.Reassign? && !call.DisableFrom? ==>
                  after.enrolments == db.enrolments && after.assignments == db.assignments && after.nextId == db.nextId)
            && (!call.PutCorrection? && !call.RemoveCorrection? ==>
                  after.overrides == db.overrides && after.corrections == db.corrections)
            && (call.Enable? || call.Reassign? || call.PutCorrection? || call.RemoveCorrection? ==>
                  after.days == db.days && after.events == db.events && after.notices == db.notices)
  {
    hide PunchStep, ApplyStep, ActStep, CancelStep, DisableStep;
    match call
    case Punch(p) => PunchFrame(env, db, now, p);
    case ApplyLeave(a) => ApplyFrame(env, db, now, a);
    case ActOnLeave(req, actor, action) => ActFrame(env, db, now, req, actor, action);
    case CancelLeave(req, admins) => CancelFrame(env, db, now, req, admins);
    case DisableFrom(from, ok, live) => DisableFrame(env, db, now, from, ok, live);
    case _ =>
      hide Step;
      if call.Enable? || call.Reassign? {
        EnrolFrame(env, db, now, call);
      } else {
        CorrectionFrame(env, db, now, call);
      }
  }

  /** A run's last step. */
  lemma RunStep(env: Env, run: seq<Tick>)
    requires run != []
    ensures var n := |run| - 1;
            Run(env, run) == Step(env, Run(env, run[..n]), run[n].now, run[n].call).db
  {
  }

  /** The tables at any point of a history are those of the run so far. */
  lemma {:induction false} HistoryIsRun(env: Env, run: seq<Tick>, h: History, n: nat)
    requires IsHistory(env, run, h) && n <= |run|
    ensures h.states[n] == Run(env, run[..n])
  {
    hide Step;
    if n > 0 {
      HistoryIsRun(env, run, h, n - 1);
      assert run[..n][..n - 1] == run[..n - 1];
      RunStep(env, run[..n]);
    }
  }

  /** One call more makes the history one state and one answer longer. */
  lemma HistoryGrows(env: Env, run: seq<Tick>, h: History, next: Tick, r: Result)
    requires IsHistory(env, run, h) && r == Step(env, h.states[|run|], next.now, next.call)
    ensures IsHistory(env, run + [next], History(h.states + [r.db], h.replies + [r.reply]))
  {
    hide Step;
    var longer, g := run + [next], History(h.states + [r.db], h.replies + [r.reply]);
    forall i | 0 <= i < |longer|
      ensures Result(g.states[i + 1], g.replies[i]) == Step(env, g.states[i], longer[i].now, longer[i].call)
    {
      assert i < |run| ==> longer[i] == run[i];
    }
  }

  /** Every run has a history. */
  lemma {:induction false} HistoryExists(env: Env, run: seq<Tick>) returns (h: History)
    ensures IsHistory(env, run, h)
  {
    hide Step;
    if run == [] {
      h := History([EMPTY], []);
    } else {
      var n := |run| - 1;
      var g := HistoryExists(env, run[..n]);
      var r := Step(env, g.states[n], run[n].now, run[n].call);
      h := History(g.states + [r.db], g.replies + [r.reply]);
      HistoryGrows(env, run[..n], g, run[n], r);
      assert run[..n] + [run[n]] == run;
    }
  }

  /** How one table state's attempts follow another's after a check-in/out call. */
  ghost predicate Appends(before: seq<Attempt>, after: seq<Attempt>, now: Instant, p: PunchCall) {
    && FindKey(before, p.key).None?
    && |after| == |before| + 1 && after[..|before|] == before
    && var a := after[|before|];
       && a.key == p.key && a.kind == p.kind && a.at == now
       && a.blockedUntil == BlockFor(before, now, a.outcome)
       && (a.outcome != RateLimited ==> !Blocked(before, now))
  }

  lemma PunchAppends(env: Env, db: Db, now: Instant, p: PunchCall)
    ensures var after := PunchStep(env, db, now, p).db.attempts;
            after == db.attempts || Appends(db.attempts, after, now, p)
  {
    hide FindKey, FindRecord, FindByAttempt, Blocked, Tracked, ActiveLeave, WindowCount, Alerts, AutoCancel, ReplayReply;
    if Decide(env, db, now, p) == Accept && p.kind == CheckIn {
      AutoCancelFrame(env, CheckInRows(env, db, now, p), env.today(now), p.admins);
    }
  }

  lemma AutoCancelFrame(env: Env, db: Db, today: Date, admins: seq<UserId>)
    ensures var r := AutoCancel(env, db, today, admins);
            r.Some? ==> r.value == db.(days := r.value.days, events := r.value.events, notices := r.value.notices)
  {
    hide ActiveLeave;
  }

  /** How an attempt row comes to be: at most one per call, by a check-in/out call with an unused key. */
  lemma AttemptAppended(env: Env, db: Db, now: Instant, call: Call)
    ensures var after := Step(env, db, now, call).db;
            || after.attempts == db.attempts
            || (call.Punch? && Appends(db.attempts, after.attempts, now, call.punch))
  {
    if call.Punch? {
      hide PunchStep, Appends;
      PunchAppends(env, db, now, call.punch);
    } else {
      hide Step;
      StepFrame(env, db, now, call);
    }
  }
}
