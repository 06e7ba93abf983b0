// The leave tables over whole runs: the audit log determines every day's state, states only
// move along the lifecycle, at most one active day exists per date, and the guarded writes
// never miss a row.

module LeaveLog {
  import opened Basics
  import opened Periods
  import opened Tables
  import opened LeaveWriter
  import opened CheckInOut
  import opened Leave
  import opened Lifecycle
  import opened Corrections
  import opened Machine
  import opened Frames

  predicate LegalMove(s: DayState, t: DayState) {
    || (s == Pending && (t == Approved || t == Rejected || t == Cancelled))
    || (s == Approved && (t == Revoked || t == Cancelled))
  }

  // ---------------------------------------------------------------- invariant

  ghost predicate DaysInSpan(requests: seq<Request>, days: map<DayKey, DayState>) {
    forall k :: k in days ==> k.req < |requests| && requests[k.req].first <= k.date <= requests[k.req].last
  }

  ghost predicate OneActivePerDate(days: map<DayKey, DayState>) {
    forall k, l :: k in days && l in days && k.date == l.date && Active(days[k]) && Active(days[l]) ==> k == l
  }

  ghost predicate LogTells(days: map<DayKey, DayState>, events: seq<Event>) {
    forall k: DayKey :: StateAfter(events, k) == if k in days then Some(days[k]) else None
  }

  ghost predicate KeysUnique(requests: seq<Request>) {
    forall i, j :: 0 <= i < j < |requests| ==> requests[i].key != requests[j].key
  }

  /** A request never has both pending and approved days: approving takes every pending day. */
  ghost predicate NoMix(days: map<DayKey, DayState>) {
    forall k, l :: k in days && l in days && k.req == l.req ==> !(days[k] == Pending && days[l] == Approved)
  }

  ghost predicate EventsOfRequests(requests: seq<Request>, events: seq<Event>) {
    forall e :: e in events ==> e.req < |requests|
  }

  ghost predicate LeaveOk(db: Db) {
    && DaysInSpan(db.requests, db.days)
    && OneActivePerDate(db.days)
    && LogTells(db.days, db.events)
    && KeysUnique(db.requests)
    && NoMix(db.days)
    && EventsOfRequests(db.requests, db.events)
  }

  // -------------------------------------------------------- the guarded write

  /** What a caller must have decided under the lock before it moves days. */
  ghost predicate MayMove(db: Db, req: nat, dates: set<Date>, from: set<DayState>, to: DayState, cause: Cause) {
    && req < |db.requests|
    && to == Target(cause)
    && (forall s :: s in from ==> LegalMove(s, to))
    && (forall d :: d in dates ==> DayKey(req, d) in db.days && db.days[DayKey(req, d)] in from)
    && (to == Approved ==> forall k :: k in db.days && k.req == req && db.days[k] == Pending ==> k.date in dates)
  }

  lemma WrittenLogTells(db: Db, req: nat, dates: set<Date>, to: DayState, cause: Cause, actor: Option<UserId>,
                        recipients: seq<UserId>, tag: Option<Date>)
    requires LogTells(db.days, db.events) && req < |db.requests| && to == Target(cause)
    requires forall d :: d in dates ==> DayKey(req, d) in db.days
    ensures var r := WriteDays(db, req, dates, to, cause, actor, recipients, tag);
            LogTells(r.days, r.events)
  {
    var r := WriteDays(db, req, dates, to, cause, actor, recipients, tag);
    forall k: DayKey
      ensures StateAfter(r.events, k) == if k in r.days then Some(r.days[k]) else None
    {
      StateAfterAppend(db.events, Event(req, cause, actor, dates), k);
      assert k == DayKey(k.req, k.date);
    }
  }

  lemma WriteKeepsLeave(db: Db, req: nat, dates: set<Date>, from: set<DayState>, to: DayState, cause: Cause,
                        actor: Option<UserId>, recipients: seq<UserId>, tag: Option<Date>)
    requires LeaveOk(db) && MayMove(db, req, dates, from, to, cause)
    ensures LeaveOk(WriteDays(db, req, dates, to, cause, actor, recipients, tag))
  {
    hide LogTells, StateAfter;
    WrittenLogTells(db, req, dates, to, cause, actor, recipients, tag);
    var r := WriteDays(db, req, dates, to, cause, actor, recipients, tag);
    forall k | k in r.days
      ensures k in db.days && (r.days[k] == db.days[k] || (r.days[k] == to && LegalMove(db.days[k], to)))
    {
      assert k == DayKey(k.req, k.date);
    }
  }

  /** The row count never mismatches for a caller that decided on the rows it read. */
  lemma MoveSucceeds(db: Db, req: nat, dates: set<Date>, from: set<DayState>, to: DayState, cause: Cause,
                     actor: Option<UserId>, recipients: seq<UserId>, tag: Option<Date>)
    requires LeaveOk(db) && MayMove(db, req, dates, from, to, cause)
    ensures var r := TransitionDays(db, req, dates, from, to, cause, actor, recipients, tag);
            && r.Some? && LeaveOk(r.value)
            && r.value == if dates == {} then db else WriteDays(db, req, dates, to, cause, actor, recipients, tag)
  {
    TransitionWrites(db, req, dates, from);
    WriteKeepsLeave(db, req, dates, from, to, cause, actor, recipients, tag);
  }

  // -------------------------------------------------------------------- apply

  lemma OpenedLogTells(env: Env, db: Db, a: ApplyCall)
    requires DaysInSpan(db.requests, db.days) && LogTells(db.days, db.events)
    ensures var r := OpenRequest(env, db, a);
            LogTells(r.days, r.events)
  {
    var r := OpenRequest(env, db, a);
    var e := r.events[|db.events|];
    forall k: DayKey
      ensures StateAfter(r.events, k) == if k in r.days then Some(r.days[k]) else None
    {
      StateAfterAppend(db.events, e, k);
      assert k == DayKey(k.req, k.date);
    }
  }

  /** The opened request's days are exactly its span; every other day is as before. */
  lemma OpenedDays(env: Env, db: Db, a: ApplyCall)
    requires DaysInSpan(db.requests, db.days)
    ensures var days, n := OpenRequest(env, db, a).days, |db.requests|;
            forall k: DayKey ::
              && (k in days <==> k in db.days || (k.req == n && a.first <= k.date <= a.last))
              && (k in days ==> days[k] == if k in db.days then db.days[k] else if a.onBehalf then Approved else Pending)
  {
    forall k: DayKey
      ensures k == DayKey(k.req, k.date)
    {
    }
  }

  lemma OpenKeepsActive(env: Env, db: Db, a: ApplyCall)
    requires DaysInSpan(db.requests, db.days) && OneActivePerDate(db.days) && NoMix(db.days)
    requires !ClashesWithActive(db, Span(a.first, a.last))
    ensures OneActivePerDate(OpenRequest(env, db, a).days)
    ensures NoMix(OpenRequest(env, db, a).days)
    ensures DaysInSpan(OpenRequest(env, db, a).requests, OpenRequest(env, db, a).days)
  {
    OpenedDays(env, db, a);
    var r := OpenRequest(env, db, a);
    assert r.requests == db.requests + [Request(a.key, a.caller, a.first, a.last, a.part)];
    var days := r.days;
    hide OpenRequest;
    forall k, l | k in days && l in days && k.date == l.date && Active(days[k]) && Active(days[l])
      ensures k == l
    {
    }
  }

  lemma OpenKeepsLeave(env: Env, db: Db, a: ApplyCall)
    requires LeaveOk(db) && !KeyHeld(db.requests, a.key)
    requires !ClashesWithActive(db, Span(a.first, a.last))
    ensures LeaveOk(OpenRequest(env, db, a))
  {
    hide LogTells, StateAfter, OneActivePerDate, NoMix, DaysInSpan, ClashesWithActive;
    OpenedLogTells(env, db, a);
    OpenKeepsActive(env, db, a);
    var r := OpenRequest(env, db, a);
    forall i, j | 0 <= i < j < |r.requests|
      ensures r.requests[i].key != r.requests[j].key
    {
      assert db.requests[i] in db.requests;
    }
  }

  // -------------------------------------------------------------------- sweep

  /** A sweep over the first `n` requests cancels their pending days and approved days from `from`. */
  ghost predicate Swept(before: map<DayKey, DayState>, after: map<DayKey, DayState>, from: Date, n: nat) {
    && after.Keys == before.Keys
    && forall k :: k in before ==>
         after[k] == if k.req < n && (before[k] == Pending || (before[k] == Approved && k.date >= from))
                     then Cancelled else before[k]
  }

  lemma SweepOne(env: Env, db: Db, mid: Db, from: Date, req: nat)
    requires LeaveOk(mid) && mid.requests == db.requests && req < |db.requests|
    requires Swept(db.days, mid.days, from, req)
    ensures var r := TransitionDays(mid, req, SweepDates(db, req, from), {Pending, Approved}, Cancelled, Disable, None,
                                    [env.employee], None);
            r.Some? && LeaveOk(r.value) && Swept(db.days, r.value.days, from, req + 1)
  {
    hide LeaveOk, TransitionDays;
    var dates := SweepDates(db, req, from);
    SweepDatesAre(db, req, from);
    MoveSucceeds(mid, req, dates, {Pending, Approved}, Cancelled, Disable, None, [env.employee], None);
    assert forall k: DayKey :: k == DayKey(k.req, k.date);
  }

  lemma SweptNothing(days: map<DayKey, DayState>, from: Date)
    ensures Swept(days, days, from, 0)
  {
  }

  lemma {:induction false} SweepSucceeds(env: Env, db: Db, from: Date, n: nat)
    requires LeaveOk(db) && n <= |db.requests|
    ensures var r := Sweep(env, db, from, n);
            r.Some? && LeaveOk(r.value) && Swept(db.days, r.value.days, from, n)
  {
    hide LeaveOk, TransitionDays, Swept;
    if n == 0 {
      SweptNothing(db.days, from);
    } else {
      SweepSucceeds(env, db, from, n - 1);
      SweepOne(env, db, Sweep(env, db, from, n - 1).value, from, n - 1);
    }
  }

  lemma SweepDatesAre(db: Db, req: nat, from: Date)
    ensures forall d :: d in SweepDates(db, req, from) <==>
              && DayKey(req, d) in db.days
              && (db.days[DayKey(req, d)] == Pending || (db.days[DayKey(req, d)] == Approved && d >= from))
  {
    forall d
      ensures d in SweepDates(db, req, from) <==>
              && DayKey(req, d) in db.days
              && (db.days[DayKey(req, d)] == Pending || (db.days[DayKey(req, d)] == Approved && d >= from))
    {
      assert forall k: DayKey :: k == DayKey(k.req, k.date);
    }
  }

  lemma DatesInAre(db: Db, req: nat, states: set<DayState>)
    ensures forall d :: d in DatesIn(db, req, states) <==>
              DayKey(req, d) in db.days && db.days[DayKey(req, d)] in states
  {
    assert forall k: DayKey :: k == DayKey(k.req, k.date);
  }

  // ------------------------------------------------- each call in closed form

  /** An owner's action on some days writes exactly those days. */
  lemma ActForm(env: Env, db: Db, now: Instant, req: nat, actor: UserId, action: OwnerAction)
    requires LeaveOk(db) && req < |db.requests| && ActionDates(env, db, now, req, action) != {}
    ensures var dates := ActionDates(env, db, now, req, action);
            && MayMove(db, req, dates, Sources(action), MovesTo(action), CauseOf(action))
            && ActStep(env, db, now, req, actor, action)
               == Result(WriteDays(db, req, dates, MovesTo(action), CauseOf(action), Some(actor), [env.employee], None),
                         LeaveView(req, dates))
            && LeaveOk(ActStep(env, db, now, req, actor, action).db)
  {
    hide LeaveOk, TransitionDays, Actionable;
    DatesInAre(db, req, Sources(action));
    var dates := ActionDates(env, db, now, req, action);
    assert forall k: DayKey :: k == DayKey(k.req, k.date);
    MoveSucceeds(db, req, dates, Sources(action), MovesTo(action), CauseOf(action), Some(actor), [env.employee], None);
  }

  lemma CancelForm(env: Env, db: Db, now: Instant, req: nat, admins: seq<UserId>)
    requires LeaveOk(db) && req < |db.requests| && CancelDates(env, db, now, req) != {}
    ensures var dates := CancelDates(env, db, now, req);
            && MayMove(db, req, dates, {Pending, Approved}, Cancelled, EmployeeCancel)
            && CancelStep(env, db, now, req, admins)
               == Result(WriteDays(db, req, dates, Cancelled, EmployeeCancel, Some(env.employee), admins, None),
                         LeaveView(req, dates))
            && LeaveOk(CancelStep(env, db, now, req, admins).db)
  {
    hide LeaveOk, TransitionDays, Actionable;
    DatesInAre(db, req, {Pending, Approved});
    var dates := CancelDates(env, db, now, req);
    MoveSucceeds(db, req, dates, {Pending, Approved}, Cancelled, EmployeeCancel, Some(env.employee), admins, None);
  }

  /** The confirmed check-in cancels exactly today's day of the one active leave. */
  lemma AutoCancelForm(env: Env, db: Db, today: Date, admins: seq<UserId>)
    requires LeaveOk(db) && ActiveLeave(db, today).Some?
    ensures var req := ActiveLeave(db, today).value;
            && req < |db.requests|
            && MayMove(db, req, {today}, {Pending, Approved}, Cancelled, CheckinAutoCancel)
            && AutoCancel(env, db, today, admins)
               == Some(WriteDays(db, req, {today}, Cancelled, CheckinAutoCancel, Some(env.employee), admins, Some(today)))
            && LeaveOk(AutoCancel(env, db, today, admins).value)
  {
    hide LeaveOk, TransitionDays;
    ActiveLeaveFound(db, today, |db.requests|);
    var req := ActiveLeave(db, today).value;
    MoveSucceeds(db, req, {today}, {Pending, Approved}, Cancelled, CheckinAutoCancel, Some(env.employee), admins,
                 Some(today));
  }

  /** The overlap pre-check leaves the unique index nothing to refuse. */
  lemma ApplyForm(env: Env, db: Db, now: Instant, a: ApplyCall)
    requires LeaveOk(db)
    ensures var r := ApplyStep(env, db, now, a);
            && LeaveOk(r.db)
            && (r.db != db ==> && r == Result(OpenRequest(env, db, a), LeaveView(|db.requests|, {}))
                               && ShapeRefusal(a).None? && FactsRefusal(env, db, env.today(now), a).None?
                               && !KeyHeld(db.requests, a.key) && !ClashesWithActive(db, Span(a.first, a.last)))
            && !r.reply.Broken?
  {
    hide LeaveOk, OpenRequest, ShapeRefusal;
    if FactsRefusal(env, db, env.today(now), a).None? && !KeyHeld(db.requests, a.key) {
      assert !ActiveWithin(db, a.first, a.last);
      assert !ClashesWithActive(db, Span(a.first, a.last));
      OpenKeepsLeave(env, db, a);
    }
  }

  lemma AcceptedRows(env: Env, db: Db, now: Instant, p: PunchCall)
    requires At(db.assignments, env.today(now)).Some?
    ensures var rows := CheckInRows(env, db, now, p);
            LeaveGate(env, db, env.today(now), CheckIn) == LeaveGate(env, rows, env.today(now), CheckIn)
            && (LeaveOk(db) ==> LeaveOk(rows))
  {
    var rows := CheckInRows(env, db, now, p);
    SameActiveLeave(db, rows, env.today(now), |db.requests|);
  }

  lemma {:induction false} SameActiveLeave(a: Db, b: Db, d: Date, n: nat)
    requires a.days == b.days
    ensures ActiveLeaveAmong(a, d, n) == ActiveLeaveAmong(b, d, n)
  {
    if n > 0 {
      SameActiveLeave(a, b, d, n - 1);
    }
  }

  lemma LeaveOkReads(db: Db, other: Db)
    requires LeaveOk(db)
    requires other.requests == db.requests && other.days == db.days && other.events == db.events
    ensures LeaveOk(other)
  {
  }

  lemma AcceptedCheckIn(env: Env, db: Db, now: Instant, p: PunchCall)
    requires LeaveOk(db) && At(db.assignments, env.today(now)).Some?
    ensures var r := AcceptCheckIn(env, db, now, p);
            var today := env.today(now);
            var rows := CheckInRows(env, db, now, p);
            && r.reply != Broken(DayCountMismatch) && r.reply != Broken(LeaveVanished)
            && LeaveOk(r.db)
            && (if LeaveGate(env, db, today, CheckIn)
                then && ActiveLeave(rows, today).Some? && ActiveLeave(rows, today).value < |db.requests|
                     && (r.db == db || r.db == WriteDays(rows, ActiveLeave(rows, today).value, {today}, Cancelled,
                                                         CheckinAutoCancel, Some(env.employee), p.admins, Some(today)))
                else r.db == db || r.db == rows)
  {
    hide LeaveOk, WriteDays, FindRecord;
    var today := env.today(now);
    AcceptedRows(env, db, now, p);
    var rows := CheckInRows(env, db, now, p);
    LeaveOkReads(db, rows);
    if LeaveGate(env, db, today, CheckIn) {
      AutoCancelForm(env, rows, today, p.admins);
    }
  }

  /** What a check-in/out call does to the leave tables: nothing, or the one auto-cancel. */
  lemma PunchForm(env: Env, db: Db, now: Instant, p: PunchCall)
    requires LeaveOk(db)
    ensures var r := PunchStep(env, db, now, p);
            && LeaveOk(r.db)
            && r.reply != Broken(DayCountMismatch) && r.reply != Broken(LeaveVanished)
  {
    hide LeaveOk, AcceptCheckIn, FindRecord, FindKey, FindByAttempt, LeaveGate, Alerts, BlockFor;
    var r := PunchStep(env, db, now, p);
    if Decide(env, db, now, p) == Accept && p.kind == CheckIn && !p.taken {
      AcceptedCheckIn(env, db, now, p);
    } else {
      LeaveOkReads(db, r.db);
    }
  }

  lemma DisableForm(env: Env, db: Db, now: Instant, effective: Option<Date>, employeeOk: bool, live: bool)
    requires LeaveOk(db)
    ensures var r := DisableStep(env, db, now, effective, employeeOk, live);
            var from := Clamped(effective, env.today(now));
            && LeaveOk(r.db) && r.reply != Broken(DayCountMismatch)
            && (r.reply == AccessState ==> Swept(db.days, r.db.days, from, |db.requests|))
            && (r.reply != AccessState ==> r.db == db)
  {
    hide LeaveOk, Sweep, CoverageGuard, Tidy, Change, Swept;
    var from := Clamped(effective, env.today(now));
    var closed := AfterDisable(db, from);
    LeaveOkReads(db, closed);
    SweepSucceeds(env, closed, from, |db.requests|);
  }

  // ------------------------------------------------------------------- runs

  lemma ActKeepsLeave(env: Env, db: Db, now: Instant, req: nat, actor: UserId, action: OwnerAction)
    requires LeaveOk(db)
    ensures var r := ActStep(env, db, now, req, actor, action); LeaveOk(r.db) && !r.reply.Broken?
  {
    hide LeaveOk, ActionDates, TransitionDays;
    if req < |db.requests| && ActionDates(env, db, now, req, action) != {} {
      ActForm(env, db, now, req, actor, action);
    }
  }

  lemma CancelKeepsLeave(env: Env, db: Db, now: Instant, req: nat, admins: seq<UserId>)
    requires LeaveOk(db)
    ensures var r := CancelStep(env, db, now, req, admins); LeaveOk(r.db) && !r.reply.Broken?
  {
    hide LeaveOk, CancelDates, TransitionDays;
    if req < |db.requests| && CancelDates(env, db, now, req) != {} {
      CancelForm(env, db, now, req, admins);
    }
  }

  /** The calls that are about neither leave nor check-in meet no leave breach. */
  lemma OthersBreachNoLeave(env: Env, db: Db, now: Instant, call: Call)
    requires call.Enable? || call.Reassign? || call.PutCorrection? || call.RemoveCorrection?
    ensures var reply := Step(env, db, now, call).reply;
            reply != Broken(DayCountMismatch) && reply != Broken(LeaveVanished) && reply != Broken(ActiveDayClash)
  {
    hide Change, Tidy, CoverageGuard, PutRefusal;
  }

  /** Every call keeps the leave tables sound and never meets a leave breach. */
  lemma StepKeepsLeave(env: Env, db: Db, now: Instant, call: Call)
    requires LeaveOk(db)
    ensures LeaveOk(Step(env, db, now, call).db)
    ensures var reply := Step(env, db, now, call).reply;
            reply != Broken(DayCountMismatch) && reply != Broken(LeaveVanished) && reply != Broken(ActiveDayClash)
  {
    hide LeaveOk, PunchStep, ApplyStep, ActStep, CancelStep, DisableStep;
    match call
    case Punch(p) =>
      PunchForm(env, db, now, p);
      PunchBreaches(env, db, now, p);
    case ApplyLeave(a) => ApplyForm(env, db, now, a);
    case ActOnLeave(req, actor, action) => ActKeepsLeave(env, db, now, req, actor, action);
    case CancelLeave(req, admins) => CancelKeepsLeave(env, db, now, req, admins);
    case DisableFrom(effective, ok, live) =>
      DisableForm(env, db, now, effective, ok, live);
      DisableBreaches(env, db, now, effective, ok, live);
    case _ =>
      hide Step;
      StepFrame(env, db, now, call);
      LeaveOkReads(db, Step(env, db, now, call).db);
      OthersBreachNoLeave(env, db, now, call);
  }

  lemma DisableBreaches(env: Env, db: Db, now: Instant, effective: Option<Date>, employeeOk: bool, live: bool)
    ensures var reply := DisableStep(env, db, now, effective, employeeOk, live).reply;
            reply != Broken(LeaveVanished) && reply != Broken(ActiveDayClash)
  {
    hide Change, Tidy, CoverageGuard, Sweep;
  }

  lemma PunchBreaches(env: Env, db: Db, now: Instant, p: PunchCall)
    ensures PunchStep(env, db, now, p).reply != Broken(ActiveDayClash)
  {
  }

  lemma {:induction false} RunLeaveOk(env: Env, run: seq<Tick>)
    ensures LeaveOk(Run(env, run))
  {
    hide Step;
    if run != [] {
      hide LeaveOk;
      var n := |run| - 1;
      RunLeaveOk(env, run[..n]);
      RunStep(env, run);
      StepKeepsLeave(env, Run(env, run[..n]), run[n].now, run[n].call);
    }
  }

  /**
   * In every run the audit log alone determines the leave state: a day exists exactly if some
   * event names it, and it is in the state the last such event moves its days to.
   */
  lemma LogDeterminesState(env: Env, run: seq<Tick>, h: History, n: nat, k: DayKey)
    requires IsHistory(env, run, h) && n <= |run|
    ensures var db := h.states[n];
            && (k in db.days <==>
                  exists i :: 0 <= i < |db.events| && db.events[i].req == k.req && k.date in db.events[i].dates)
            && (k in db.days ==> Some(db.days[k]) == StateAfter(db.events, k))
  {
    hide Run, Step;
    HistoryIsRun(env, run, h, n);
    RunLeaveOk(env, run[..n]);
    var db := h.states[n];
    assert StateAfter(db.events, k) == if k in db.days then Some(db.days[k]) else None;
    NamedIffState(db.events, k);
  }

  lemma {:induction false} NamedIffState(events: seq<Event>, k: DayKey)
    ensures StateAfter(events, k).Some? <==>
              exists i :: 0 <= i < |events| && events[i].req == k.req && k.date in events[i].dates
  {
    if events != [] {
      var n := |events| - 1;
      NamedIffState(events[..n], k);
      if events[n].req == k.req && k.date in events[n].dates {
      } else if i :| 0 <= i < |events| && events[i].req == k.req && k.date in events[i].dates {
        assert events[..n][i] == events[i];
      }
    }
  }

  /** In every run at most one request has an active day on a date. */
  lemma OneActiveDayPerDate(env: Env, run: seq<Tick>, h: History, n: nat, k: DayKey, l: DayKey)
    requires IsHistory(env, run, h) && n <= |run|
    requires var days := h.states[n].days;
             k in days && l in days && k.date == l.date && Active(days[k]) && Active(days[l])
    ensures k == l
  {
    hide Run, Step;
    HistoryIsRun(env, run, h, n);
    RunLeaveOk(env, run[..n]);
  }

  /** A step of the lifecycle, or none. */
  ghost predicate MovesLegally(before: map<DayKey, DayState>, after: map<DayKey, DayState>) {
    forall k :: k in before ==> k in after && (after[k] == before[k] || LegalMove(before[k], after[k]))
  }

  lemma WriteMovesLegally(db: Db, req: nat, dates: set<Date>, from: set<DayState>, to: DayState, cause: Cause,
                          actor: Option<UserId>, recipients: seq<UserId>, tag: Option<Date>)
    requires MayMove(db, req, dates, from, to, cause)
    ensures MovesLegally(db.days, WriteDays(db, req, dates, to, cause, actor, recipients, tag).days)
  {
    assert forall k: DayKey :: k == DayKey(k.req, k.date);
  }

  lemma PunchMovesLegally(env: Env, db: Db, now: Instant, p: PunchCall)
    requires LeaveOk(db)
    ensures MovesLegally(db.days, PunchStep(env, db, now, p).db.days)
  {
    hide LeaveOk, AcceptCheckIn, FindRecord, FindKey, FindByAttempt, LeaveGate, Alerts, BlockFor, WriteDays;
    if Decide(env, db, now, p) == Accept && p.kind == CheckIn && !p.taken {
      AcceptedCheckIn(env, db, now, p);
      var today, rows := env.today(now), CheckInRows(env, db, now, p);
      if LeaveGate(env, db, today, CheckIn) {
        AcceptedRows(env, db, now, p);
        AutoCancelForm(env, rows, today, p.admins);
        WriteMovesLegally(rows, ActiveLeave(rows, today).value, {today}, {Pending, Approved}, Cancelled,
                          CheckinAutoCancel, Some(env.employee), p.admins, Some(today));
      }
    }
  }

  /** Days are never removed, and each call moves a day along the lifecycle or not at all. */
  lemma StepMovesLegally(env: Env, db: Db, now: Instant, call: Call)
    requires LeaveOk(db)
    ensures MovesLegally(db.days, Step(env, db, now, call).db.days)
  {
    hide LeaveOk, WriteDays, MayMove;
    match call
    case Punch(p) => PunchMovesLegally(env, db, now, p);
    case ApplyLeave(a) =>
      ApplyForm(env, db, now, a);
      if ApplyStep(env, db, now, a).db != db {
        OpenedDays(env, db, a) by {
          assert LeaveOk(db);
          SpanOf(db);
        }
      }
    case ActOnLeave(req, actor, action) =>
      if req < |db.requests| && ActionDates(env, db, now, req, action) != {} {
        ActForm(env, db, now, req, actor, action);
        WriteMovesLegally(db, req, ActionDates(env, db, now, req, action), Sources(action), MovesTo(action),
                          CauseOf(action), Some(actor), [env.employee], None);
      }
    case CancelLeave(req, admins) =>
      if req < |db.requests| && CancelDates(env, db, now, req) != {} {
        CancelForm(env, db, now, req, admins);
        WriteMovesLegally(db, req, CancelDates(env, db, now, req), {Pending, Approved}, Cancelled, EmployeeCancel,
                          Some(env.employee), admins, None);
      }
    case DisableFrom(effective, ok, live) => DisableForm(env, db, now, effective, ok, live);
    case _ => StepFrame(env, db, now, call);
  }

  lemma SpanOf(db: Db)
    requires LeaveOk(db)
    ensures DaysInSpan(db.requests, db.days)
  {
  }

  /** Rejected, cancelled and revoked days stay as they are for the rest of the run. */
  lemma {:induction false} TerminalForever(env: Env, run: seq<Tick>, h: History, m: nat, n: nat, k: DayKey)
    requires IsHistory(env, run, h) && m <= n <= |run|
    requires k in h.states[m].days && !Active(h.states[m].days[k])
    ensures k in h.states[n].days && h.states[n].days[k] == h.states[m].days[k]
    decreases n
  {
    hide Step, Run, LeaveOk;
    if m < n {
      TerminalForever(env, run, h, m, n - 1, k);
      HistoryIsRun(env, run, h, n - 1);
      RunLeaveOk(env, run[..n - 1]);
      StepMovesLegally(env, h.states[n - 1], run[n - 1].now, run[n - 1].call);
    }
  }

  /** In any run a disable that goes through leaves no pending day, and no approved day from its date on. */
  lemma DisableLeavesNothing(env: Env, run: seq<Tick>, h: History, i: nat, k: DayKey)
    requires IsHistory(env, run, h) && i < |run|
    requires run[i].call.DisableFrom? && h.replies[i] == AccessState
    requires k in h.states[i + 1].days
    ensures var s := h.states[i + 1].days[k];
            s != Pending && (s == Approved ==> k.date < Clamped(run[i].call.effective, env.today(run[i].now)))
  {
    hide Run, DisableStep, LeaveOk;
    HistoryIsRun(env, run, h, i);
    RunLeaveOk(env, run[..i]);
    var db, call := h.states[i], run[i].call;
    assert Result(h.states[i + 1], h.replies[i]) == Step(env, db, run[i].now, call);
    SpanOf(db);
    DisableForm(env, db, run[i].now, call.effective, call.employeeOk, call.liveOffices);
  }

  // -------------------------------------------------- what each action means

  /** Future, or today before today's office start. */
  ghost predicate StillAhead(env: Env, db: Db, now: Instant, d: Date) {
    var today := env.today(now);
    || d > today
    || (d == today
        && forall office, start :: At(db.assignments, today) == Some(office) && env.start(office, today) == Some(start) ==>
             env.minute(now) < start)
  }

  lemma ActionableIsAhead(env: Env, db: Db, now: Instant, d: Date)
    ensures Actionable(env, db, now, d) <==> StillAhead(env, db, now, d)
  {
    var today := env.today(now);
    var office := At(db.assignments, today);
    if office.Some? && env.start(office.value, today).Some? {
      assert At(db.assignments, today) == Some(office.value);
    }
  }

  /** The day's state after a successful call on its request. */
  lemma ActionOutcome(env: Env, db: Db, now: Instant, req: nat, actor: UserId, action: OwnerAction, k: DayKey)
    requires LeaveOk(db) && k in db.days && ActStep(env, db, now, req, actor, action).reply.LeaveView?
    ensures var after := ActStep(env, db, now, req, actor, action).db;
            && k in after.days
            && after.days[k] == if k.req != req then db.days[k]
                                else match action
                                     case ToApprove => if db.days[k] == Pending then Approved else db.days[k]
                                     case ToReject => if db.days[k] == Pending then Rejected else db.days[k]
                                     case ToRevoke => if db.days[k] == Approved && StillAhead(env, db, now, k.date)
                                                      then Revoked else db.days[k]
  {
    hide LeaveOk, TransitionDays, Actionable, StillAhead, DatesIn;
    DatesInAre(db, req, Sources(action));
    ActForm(env, db, now, req, actor, action);
    ActionableIsAhead(env, db, now, k.date);
    assert k == DayKey(k.req, k.date);
  }

  /** A cancel ends the request's pending and approved days that are still ahead, and nothing else. */
  lemma CancelOutcome(env: Env, db: Db, now: Instant, req: nat, admins: seq<UserId>, k: DayKey)
    requires LeaveOk(db) && k in db.days && CancelStep(env, db, now, req, admins).reply.LeaveView?
    ensures var after := CancelStep(env, db, now, req, admins).db;
            && k in after.days
            && after.days[k] == if k.req == req && (db.days[k] == Pending || db.days[k] == Approved)
                                   && StillAhead(env, db, now, k.date)
                                then Cancelled else db.days[k]
  {
    hide LeaveOk, TransitionDays, Actionable, StillAhead, DatesIn;
    DatesInAre(db, req, {Pending, Approved});
    CancelForm(env, db, now, req, admins);
    ActionableIsAhead(env, db, now, k.date);
    assert k == DayKey(k.req, k.date);
  }

  /** The log entry of a successful owner action or cancel names exactly the days it moved. */
  lemma EventNamesMoved(env: Env, db: Db, now: Instant, req: nat, actor: UserId, action: OwnerAction, d: Date)
    requires LeaveOk(db) && ActStep(env, db, now, req, actor, action).reply.LeaveView?
    ensures var after := ActStep(env, db, now, req, actor, action).db;
            && |after.events| == |db.events| + 1
            && after.events[|db.events|].req == req && after.events[|db.events|].actor == Some(actor)
            && (d in after.events[|db.events|].dates <==>
                  DayKey(req, d) in db.days && after.days[DayKey(req, d)] != db.days[DayKey(req, d)])
  {
    hide LeaveOk, TransitionDays, Actionable, DatesIn;
    DatesInAre(db, req, Sources(action));
    ActForm(env, db, now, req, actor, action);
  }
}
