// What the leave log promises its readers over whole runs, whatever the clock does: decided requests
// have no pending day left, ended dates stay ended, every message reports an event, and the employee
// was told of every decision about their leave.

module Notices {
  import opened Basics
  import opened Periods
  import opened Tables
  import opened LeaveWriter
  import opened CheckInOut
  import opened Leave
  import opened Lifecycle
  import opened Machine
  import opened Frames
  import opened Enrolment
  import opened LeaveLog
  import opened Exclusion

  // ------------------------------------------------------------- the log alone

  /** Causes that can only meet a request whose days are all new or all pending: at most once, on any clock. */
  predicate Steady(c: Cause) {
    c == Apply || c == ApplyOnBehalf || c == Approve || c == Reject
  }

  /** Causes limited by the clock only: what they leave is not actionable. */
  predicate Timed(c: Cause) {
    c == OwnerRevoke || c == EmployeeCancel
  }

  /** Causes whose message goes to the employee. */
  predicate TellsEmployee(c: Cause) {
    Decides(c) || c == Disable
  }

  /** Causes that leave no day of the request pending. */
  predicate Decides(c: Cause) {
    c == ApplyOnBehalf || c == Approve || c == Reject || c == OwnerRevoke
  }

  ghost predicate Decided(days: map<DayKey, DayState>, events: seq<Event>) {
    forall e, k :: e in events && k in days && k.req == e.req && Decides(e.cause) ==> days[k] != Pending
  }

  ghost predicate SteadyOnce(events: seq<Event>) {
    forall i, j :: 0 <= i < j < |events| && events[i].req == events[j].req && events[i].cause == events[j].cause ==>
      !Steady(events[i].cause)
  }

  /** A date some event ended is not active any more. */
  ghost predicate Ended(days: map<DayKey, DayState>, events: seq<Event>) {
    forall e, k :: e in events && k in days && k.req == e.req && k.date in e.dates && !Active(Target(e.cause)) ==>
      !Active(days[k])
  }

  predicate TagFits(e: Event, tag: Option<Date>) {
    if e.cause == CheckinAutoCancel then tag.Some? && e.dates == {tag.value} else tag.None?
  }

  /** The event a notification reports. */
  ghost predicate Tells(requests: seq<Request>, e: Event, n: NoticeKey) {
    && n.LeaveNotice? && e.req < |requests|
    && requests[e.req].key == n.key && e.cause == n.cause && TagFits(e, n.tag)
  }

  ghost predicate NoticesTold(requests: seq<Request>, events: seq<Event>, notices: set<NoticeKey>) {
    forall n :: n in notices && n.LeaveNotice? ==> exists e :: e in events && Tells(requests, e, n)
  }

  /** The employee was told of every decision about their leave. */
  ghost predicate EmployeeTold(employee: UserId, requests: seq<Request>, events: seq<Event>, notices: set<NoticeKey>) {
    forall e :: e in events && TellsEmployee(e.cause) ==>
      e.req < |requests| && LeaveNotice(e.cause, employee, requests[e.req].key, None) in notices
  }

  ghost predicate Told(employee: UserId, db: Db) {
    && Decided(db.days, db.events)
    && SteadyOnce(db.events)
    && Ended(db.days, db.events)
    && NoticesTold(db.requests, db.events, db.notices)
    && EmployeeTold(employee, db.requests, db.events, db.notices)
  }

  // ------------------------------------------------------------ a guarded write

  /** What a write must respect beyond `MayMove`. */
  ghost predicate MayTell(db: Db, req: nat, dates: set<Date>, cause: Cause, tag: Option<Date>) {
    && (Steady(cause) ==> forall e :: e in db.events && e.req == req ==> e.cause != cause)
    && (Decides(cause) ==> forall k :: k in db.days && k.req == req && db.days[k] == Pending ==> k.date in dates)
    && (if cause == CheckinAutoCancel then tag.Some? && dates == {tag.value} else tag.None?)
  }

  lemma WriteKeepsDecided(db: Db, req: nat, dates: set<Date>, from: set<DayState>, to: DayState, cause: Cause,
                          actor: Option<UserId>, recipients: seq<UserId>, tag: Option<Date>)
    requires Decided(db.days, db.events) && Ended(db.days, db.events) && SteadyOnce(db.events)
    requires MayMove(db, req, dates, from, to, cause) && MayTell(db, req, dates, cause, tag)
    ensures var r := WriteDays(db, req, dates, to, cause, actor, recipients, tag);
            Decided(r.days, r.events) && Ended(r.days, r.events) && SteadyOnce(r.events)
  {
    var r := WriteDays(db, req, dates, to, cause, actor, recipients, tag);
    assert r.events == db.events + [Event(req, cause, actor, dates)];
    forall k | k in r.days
      ensures k in db.days && r.days[k] == if k.req == req && k.date in dates then to else db.days[k]
      ensures k.req == req && k.date in dates ==> LegalMove(db.days[k], to)
    {
      assert k == DayKey(k.req, k.date);
    }
    forall i | 0 <= i < |db.events|
      ensures r.events[i] == db.events[i] && db.events[i] in db.events
    {
    }
  }

  lemma WriteKeepsNotices(employee: UserId, db: Db, req: nat, dates: set<Date>, to: DayState, cause: Cause,
                          actor: Option<UserId>, recipients: seq<UserId>, tag: Option<Date>)
    requires req < |db.requests| && MayTell(db, req, dates, cause, tag)
    requires NoticesTold(db.requests, db.events, db.notices)
    requires EmployeeTold(employee, db.requests, db.events, db.notices)
    requires TellsEmployee(cause) ==> employee in recipients
    ensures var r := WriteDays(db, req, dates, to, cause, actor, recipients, tag);
            && NoticesTold(r.requests, r.events, r.notices)
            && EmployeeTold(employee, r.requests, r.events, r.notices)
  {
    var r := WriteDays(db, req, dates, to, cause, actor, recipients, tag);
    var e := Event(req, cause, actor, dates);
    assert r.events == db.events + [e];
    assert e in r.events;
    forall n | n in r.notices && n.LeaveNotice?
      ensures exists e :: e in r.events && Tells(r.requests, e, n)
    {
      if n in db.notices {
        var f :| f in db.events && Tells(db.requests, f, n);
        assert f in r.events;
      } else {
        assert Tells(r.requests, e, n);
      }
    }
  }

  lemma WriteKeepsTold(employee: UserId, db: Db, req: nat, dates: set<Date>, from: set<DayState>, to: DayState,
                       cause: Cause, actor: Option<UserId>, recipients: seq<UserId>, tag: Option<Date>)
    requires Told(employee, db)
    requires MayMove(db, req, dates, from, to, cause) && MayTell(db, req, dates, cause, tag)
    requires TellsEmployee(cause) ==> employee in recipients
    ensures Told(employee, WriteDays(db, req, dates, to, cause, actor, recipients, tag))
  {
    hide WriteDays, Decided, SteadyOnce, Ended, NoticesTold, EmployeeTold, MayTell;
    WriteKeepsDecided(db, req, dates, from, to, cause, actor, recipients, tag);
    WriteKeepsNotices(employee, db, req, dates, to, cause, actor, recipients, tag);
  }

  // ------------------------------------------------------------------ opening

  lemma OpenKeepsTold(env: Env, db: Db, a: ApplyCall)
    requires LeaveOk(db) && Told(env.employee, db)
    ensures Told(env.employee, OpenRequest(env, db, a))
  {
    hide OpenRequest, LogTells, OneActivePerDate, NoMix, KeysUnique, NoticesTold, EmployeeTold, SteadyOnce;
    var r := OpenRequest(env, db, a);
    OpenWrites(env, db, a);
    var e := r.events[|db.events|];
    OpenKeepsOnce(db, r, e);
    OpenedDays(env, db, a);
    OpenKeepsNotices(env, db, a, r, e);
  }

  /** The rows an opened request adds besides its days. */
  lemma OpenWrites(env: Env, db: Db, a: ApplyCall)
    ensures var r := OpenRequest(env, db, a);
            && r.requests == db.requests + [Request(a.key, a.caller, a.first, a.last, a.part)]
            && r.events == db.events + [r.events[|db.events|]]
            && var e := r.events[|db.events|];
               && e.req == |db.requests| && e.cause == (if a.onBehalf then ApplyOnBehalf else Apply)
               && r.notices == db.notices
                               + LeaveWriter.Notices(e.cause, if a.onBehalf then [env.employee] else a.admins, a.key, None)
  {
  }

  lemma OpenKeepsNotices(env: Env, db: Db, a: ApplyCall, r: Db, e: Event)
    requires NoticesTold(db.requests, db.events, db.notices)
    requires EmployeeTold(env.employee, db.requests, db.events, db.notices)
    requires r.requests == db.requests + [Request(a.key, a.caller, a.first, a.last, a.part)] && r.events == db.events + [e]
    requires e.req == |db.requests| && e.cause == if a.onBehalf then ApplyOnBehalf else Apply
    requires r.notices == db.notices
                          + LeaveWriter.Notices(e.cause, if a.onBehalf then [env.employee] else a.admins, a.key, None)
    ensures NoticesTold(r.requests, r.events, r.notices)
    ensures EmployeeTold(env.employee, r.requests, r.events, r.notices)
  {
    assert r.requests[..|db.requests|] == db.requests;
    assert e in r.events;
    forall m | m in r.notices && m.LeaveNotice?
      ensures exists f :: f in r.events && Tells(r.requests, f, m)
    {
      if m in db.notices {
        var f :| f in db.events && Tells(db.requests, f, m);
        assert f in r.events && Tells(r.requests, f, m);
      } else {
        assert Tells(r.requests, e, m);
      }
    }
  }

  lemma OpenKeepsOnce(db: Db, r: Db, e: Event)
    requires SteadyOnce(db.events) && EventsOfRequests(db.requests, db.events)
    requires r.events == db.events + [e] && e.req == |db.requests|
    ensures SteadyOnce(r.events)
  {
    forall i | 0 <= i < |db.events|
      ensures r.events[i].req != e.req
    {
      assert db.events[i] in db.events;
    }
  }

  // -------------------------------------------------------------------- sweep

  lemma SweepMayMove(db: Db, mid: Db, from: Date, req: nat)
    requires req < |db.requests| && mid.requests == db.requests && Swept(db.days, mid.days, from, req)
    ensures MayMove(mid, req, SweepDates(db, req, from), {Pending, Approved}, Cancelled, Disable)
  {
    SweepDatesAre(db, req, from);
  }

  /** What a sweep over the first `n` requests adds to the log and to the messages. */
  ghost predicate SweepLogged(db: Db, after: Db, from: Date, n: nat)
    requires n <= |db.requests|
  {
    && |db.events| <= |after.events| && after.events[..|db.events|] == db.events
    && (forall j :: |db.events| <= j < |after.events| ==> after.events[j].cause == Disable)
    && (forall req :: 0 <= req < n && SweepDates(db, req, from) != {} ==>
          exists j :: |db.events| <= j < |after.events|
                      && after.events[j] == Event(req, Disable, None, SweepDates(db, req, from)))
    && db.notices <= after.notices
    && forall m: NoticeKey :: m in after.notices && m !in db.notices ==> m.LeaveNotice? && m.cause == Disable
  }

  lemma SweepLogsOne(env: Env, db: Db, mid: Db, from: Date, req: nat)
    requires req < |db.requests| && mid.requests == db.requests && SweepLogged(db, mid, from, req)
    requires SweepDates(db, req, from) != {}
    ensures SweepLogged(db, WriteDays(mid, req, SweepDates(db, req, from), Cancelled, Disable, None, [env.employee], None),
                        from, req + 1)
  {
    hide SweepDates;
    var dates := SweepDates(db, req, from);
    var r := WriteDays(mid, req, dates, Cancelled, Disable, None, [env.employee], None);
    WriteEvents(mid, req, dates, Cancelled, Disable, None, [env.employee], None);
    assert r.events[|mid.events|] == Event(req, Disable, None, dates);
    assert r.events[..|db.events|] == mid.events[..|db.events|];
    forall q | 0 <= q < req + 1 && SweepDates(db, q, from) != {}
      ensures exists j :: |db.events| <= j < |r.events| && r.events[j] == Event(q, Disable, None, SweepDates(db, q, from))
    {
      if q < req {
        var j :| |db.events| <= j < |mid.events| && mid.events[j] == Event(q, Disable, None, SweepDates(db, q, from));
        assert r.events[j] == mid.events[j];
      }
    }
  }

  /** The sweep logs one disable event for each request it cancels days of, and tells the employee of each. */
  lemma {:induction false} SweepTells(env: Env, db: Db, from: Date, n: nat)
    requires LeaveOk(db) && Told(env.employee, db) && n <= |db.requests|
    ensures var r := Sweep(env, db, from, n);
            && r.Some? && Told(env.employee, r.value)
            && SweepLogged(db, r.value, from, n)
  {
    hide LeaveOk, Swept, Told, MayMove, SweepDates, WriteDays, SweepLogged;
    SweepSucceeds(env, db, from, n);
    if n > 0 {
      SweepSucceeds(env, db, from, n - 1);
      SweepTells(env, db, from, n - 1);
      var mid, dates := Sweep(env, db, from, n - 1).value, SweepDates(db, n - 1, from);
      SweepMayMove(db, mid, from, n - 1);
      MoveSucceeds(mid, n - 1, dates, {Pending, Approved}, Cancelled, Disable, None, [env.employee], None);
      if dates != {} {
        assert MayTell(mid, n - 1, dates, Disable, None);
        WriteKeepsTold(env.employee, mid, n - 1, dates, {Pending, Approved}, Cancelled, Disable, None,
                       [env.employee], None);
        SweepLogsOne(env, db, mid, from, n - 1);
      } else {
        SweepLogsNone(db, mid, from, n - 1);
      }
    } else {
      SweepStarts(db, from);
    }
  }

  lemma SweepLogsNone(db: Db, mid: Db, from: Date, req: nat)
    requires req < |db.requests| && SweepLogged(db, mid, from, req) && SweepDates(db, req, from) == {}
    ensures SweepLogged(db, mid, from, req + 1)
  {
    hide SweepDates;
  }

  lemma SweepStarts(db: Db, from: Date)
    ensures SweepLogged(db, db, from, 0)
  {
  }

  lemma WriteEvents(db: Db, req: nat, dates: set<Date>, to: DayState, cause: Cause, actor: Option<UserId>,
                    recipients: seq<UserId>, tag: Option<Date>)
    requires req < |db.requests|
    ensures WriteDays(db, req, dates, to, cause, actor, recipients, tag).events
         == db.events + [Event(req, cause, actor, dates)]
  {
  }
}
