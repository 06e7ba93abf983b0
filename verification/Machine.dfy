// One employee's state machine: a run is a sequence of calls, each at the instant its
// transaction reads as now().

module Machine {
  import opened Basics
  import opened Tables
  import opened CheckInOut
  import opened Leave
  import opened Lifecycle
  import opened Corrections

  function Step(env: Env, db: Db, now: Instant, call: Call): Result {
    match call
    case Punch(p) => PunchStep(env, db, now, p)
    case ApplyLeave(a) => ApplyStep(env, db, now, a)
    case ActOnLeave(req, actor, action) => ActStep(env, db, now, req, actor, action)
    case CancelLeave(req, admins) => CancelStep(env, db, now, req, admins)
    case Enable(office, start, ok, fact, live) => EnableStep(env, db, now, office, start, ok, fact, live)
    case Reassign(office, from, ok, fact, live) => ReassignStep(env, db, now, office, from, ok, fact, live)
    case DisableFrom(from, ok, live) => DisableStep(env, db, now, from, ok, live)
    case PutCorrection(p) => PutStep(env, db, now, p)
    case RemoveCorrection(d, actor, ok, tracked) => RemoveStep(env, db, now, d, actor, ok, tracked)
  }

  datatype Tick = Tick(now: Instant, call: Call)

  /** The state after a run that starts from empty tables. */
  function Run(env: Env, run: seq<Tick>): Db {
    if run == [] then EMPTY
    else
      var last := run[|run| - 1];
      Step(env, Run(env, run[..|run| - 1]), last.now, last.call).db
  }

  /** A whole run as it happens: the tables before and after each call, and each answer. */
  datatype History = History(states: seq<Db>, replies: seq<Reply>)

  ghost predicate IsHistory(env: Env, run: seq<Tick>, h: History) {
    && |h.states| == |run| + 1 && |h.replies| == |run| && h.states[0] == EMPTY
    && forall i :: 0 <= i < |run| ==>
         Result(h.states[i + 1], h.replies[i]) == Step(env, h.states[i], run[i].now, run[i].call)
  }

  /** The transaction clock does not go back in lock order. */
  ghost predicate Monotone(run: seq<Tick>) {
    forall i, j :: 0 <= i < j < |run| ==> run[i].now <= run[j].now
  }

  /** On the tenant's wall clock the second instant is not before the first. */
  predicate NotBefore(env: Env, s: Instant, t: Instant) {
    env.today(s) < env.today(t) || (env.today(s) == env.today(t) && env.minute(s) <= env.minute(t))
  }

  /** The tenant's local date does not go back from call to call. */
  ghost predicate DatesForward(env: Env, run: seq<Tick>) {
    forall i, j :: 0 <= i < j < |run| ==> env.today(run[i].now) <= env.today(run[j].now)
  }

  /** Nor does the wall clock within a date: no two calls read it backwards in the hour a clock change repeats. */
  ghost predicate FairClock(env: Env, run: seq<Tick>) {
    forall i, j :: 0 <= i < j < |run| ==> NotBefore(env, run[i].now, run[j].now)
  }
}
