// The single writer, statement by statement: day rows, then one audit row, then the messages.

module LeaveTransition {
  import opened Basics
  import opened Tables
  import opened LeaveWriter
  import opened CheckInOut
  import opened Lifecycle
  import opened Transaction

  /** One audit row, then one message per recipient. */
  method WriteEventAndNotification(tx: Tx, e: Event, recipients: seq<UserId>, tag: Option<Date>)
    requires e.req < |tx.requests|
    modifies tx
    ensures tx.View() == Recorded(old(tx.View()), e, recipients, tag)
  {
    tx.InsertEvent(e);
    var key := tx.requests[e.req].key;
    for i := 0 to |recipients|
      invariant tx.View() == old(tx.View()).(events := old(tx.events) + [e], notices := tx.notices)
      invariant tx.notices == old(tx.notices) + LeaveWriter.Notices(e.cause, recipients[..i], key, tag)
    {
      tx.InsertNotification(LeaveNotice(e.cause, recipients[i], key, tag));
      assert recipients[..i + 1] == recipients[..i] + [recipients[i]];
    }
    assert recipients[..|recipients|] == recipients;
  }

  /** Moves exactly the given dates out of the given states; `!ok` asks the caller to roll back. */
  method TransitionLeaveDays(tx: Tx, req: nat, dates: seq<Date>, from: set<DayState>, to: DayState, cause: Cause,
                             actor: Option<UserId>, recipients: seq<UserId>, tag: Option<Date>) returns (ok: bool)
    requires req < |tx.requests| && Ascends(dates)
    modifies tx
    ensures var r := TransitionDays(old(tx.View()), req, SetOf(dates), from, to, cause, actor, recipients, tag);
            ok == r.Some? && (ok ==> tx.View() == r.value)
    ensures tx.requests == old(tx.requests)
  {
    if |dates| == 0 {
      return true;
    }
    assert dates[0] in SetOf(dates);
    AscendingSize(dates);
    var updated := tx.UpdateDays(req, dates, from, to);
    if updated != |dates| {
      return false;
    }
    SameSizeSubset(Matching(old(tx.View()), req, SetOf(dates), from), SetOf(dates));
    MatchedAll(old(tx.View()), req, dates, from);
    assert tx.days == map k | k in old(tx.days) :: if k.req == req && k.date in SetOf(dates) then to else old(tx.days)[k];
    WriteEventAndNotification(tx, Event(req, cause, actor, SetOf(dates)), recipients, tag);
    ok := true;
  }

  lemma MatchedAll(db: Db, req: nat, dates: seq<Date>, from: set<DayState>)
    requires Matching(db, req, SetOf(dates), from) == SetOf(dates)
    ensures forall k :: k in db.days && k.req == req && k.date in dates ==> db.days[k] in from
  {
    forall k | k in db.days && k.req == req && k.date in dates
      ensures db.days[k] in from
    {
      assert k.date in SetOf(dates);
      assert k == DayKey(k.req, k.date);
    }
  }

  method InsertInitialLeaveDays(tx: Tx, req: nat, dates: seq<Date>, state: DayState, cause: Cause, actor: UserId,
                                recipients: seq<UserId>) returns (ok: bool)
    requires req < |tx.requests|
    modifies tx
    ensures ok <==> !exists k :: k in old(tx.days) && k.date in dates && Active(old(tx.days)[k])
    ensures ok ==> tx.View() == OpenDays(old(tx.View()), req, SetOf(dates), state, cause, actor, recipients)
  {
    ok := tx.InsertDays(req, dates, state);
    if ok {
      WriteEventAndNotification(tx, Event(req, cause, Some(actor), SetOf(dates)), recipients, None);
    }
  }

  /** The confirmed check-in cancels only today's date of the active leave. */
  method AutoCancelLeaveForCheckIn(tx: Tx, env: Env, today: Date, admins: seq<UserId>) returns (ok: bool)
    modifies tx
    ensures var r := AutoCancel(env, old(tx.View()), today, admins);
            ok == r.Some? && (ok ==> tx.View() == r.value)
  {
    var leave := ActiveLeave(tx.View(), today);
    if leave.None? || leave.value >= |tx.requests| {
      return true;
    }
    assert SetOf([today]) == {today};
    ok := TransitionLeaveDays(tx, leave.value, [today], {Pending, Approved}, Cancelled, CheckinAutoCancel,
                              Some(env.employee), admins, Some(today));
  }

  /** All pending days, and approved days from the effective date, request by request. */
  method CancelLeaveOnDisable(tx: Tx, env: Env, from: Date) returns (ok: bool)
    modifies tx
    ensures var r := Sweep(env, old(tx.View()), from, |old(tx.requests)|);
            ok == r.Some? && (ok ==> tx.View() == r.value)
  {
    var found := tx.View();
    for req := 0 to |found.requests|
      invariant tx.requests == found.requests
      invariant Sweep(env, found, from, req) == Some(tx.View())
    {
      var dates := Ascending(SweepDates(found, req, from));
      assert SetOf(dates) == SweepDates(found, req, from);
      ok := TransitionLeaveDays(tx, req, dates, {Pending, Approved}, Cancelled, Disable, None, [env.employee], None);
      if !ok {
        SweepFails(env, found, from, req, |found.requests|);
        return;
      }
    }
    ok := true;
  }

  lemma {:induction false} SweepFails(env: Env, db: Db, from: Date, req: nat, n: nat)
    requires req < n <= |db.requests| && Sweep(env, db, from, req + 1).None?
    ensures Sweep(env, db, from, n).None?
  {
    if req + 1 < n {
      SweepFails(env, db, from, req, n - 1);
    }
  }
}
