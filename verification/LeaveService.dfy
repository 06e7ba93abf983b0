// The leave transactions: apply, act (approve / reject / revoke) and cancel.

module LeaveService {
  import opened Basics
  import opened Periods
  import opened Tables
  import opened LeaveWriter
  import opened Leave
  import opened Transaction
  import opened LeaveTransition

  datatype DayRow = DayRow(date: Date, state: DayState)

  /** Every date of the span once, ascending. */
  method EnumerateDates(first: Date, last: Date) returns (dates: seq<Date>)
    ensures |dates| == Max(0, last - first + 1)
    ensures forall i :: 0 <= i < |dates| ==> dates[i] == first + i
    ensures Ascends(dates) && SetOf(dates) == Span(first, last)
  {
    dates := [];
    var cursor := first;
    while cursor <= last
      invariant cursor == first + |dates|
      invariant cursor <= Max(first, last + 1)
      invariant forall i :: 0 <= i < |dates| ==> dates[i] == first + i
    {
      dates := dates + [cursor];
      cursor := cursor + 1;
    }
    forall d | first <= d <= last
      ensures d in dates
    {
      assert dates[d - first] == d;
    }
  }

  function DatesOf(rows: seq<DayRow>): (dates: seq<Date>)
    ensures |dates| == |rows| && forall i :: 0 <= i < |rows| ==> dates[i] == rows[i].date
  {
    seq(|rows|, i requires 0 <= i < |rows| => rows[i].date)
  }

  /** The days of one request in the given states, ordered by date. */
  function FindDaysInStates(db: Db, req: nat, states: set<DayState>): (rows: seq<DayRow>)
    ensures DatesOf(rows) == Ascending(DatesIn(db, req, states))
    ensures forall r :: r in rows ==> DayKey(req, r.date) in db.days && r.state == db.days[DayKey(req, r.date)]
                                      && r.state in states
  {
    var dates := Ascending(DatesIn(db, req, states));
    assert forall d :: d in dates ==> d in DatesIn(db, req, states);
    assert forall d :: d in DatesIn(db, req, states) ==>
                         DayKey(req, d) in db.days && db.days[DayKey(req, d)] in states by {
      assert forall k: DayKey :: k == DayKey(k.req, k.date);
    }
    seq(|dates|, i requires 0 <= i < |dates| => DayRow(dates[i], db.days[DayKey(req, dates[i])]))
  }

  datatype KeepReason = Past | CutoffHasPassed

  /** What the split does with one day. */
  predicate Moves(row: DayRow, today: Date, cutoffPassed: bool, states: set<DayState>) {
    row.state in states && (row.date > today || (row.date == today && !cutoffPassed))
  }

  /** Future dates, and today until the cutoff, are acted on; the rest is kept, in row order. */
  method SplitActionableDates(rows: seq<DayRow>, today: Date, nowMinute: int, startMinute: Option<int>,
                              states: set<DayState>)
    returns (actionDates: seq<Date>, keepDates: seq<(Date, KeepReason)>)
    requires forall i, j :: 0 <= i < j < |rows| ==> rows[i].date < rows[j].date
    ensures var passed := startMinute.Some? && nowMinute >= startMinute.value;
            && (forall d :: d in actionDates <==> exists r :: r in rows && r.date == d && Moves(r, today, passed, states))
            && (forall k :: k in keepDates <==>
                  exists r :: && r in rows && r.state in states && !Moves(r, today, passed, states)
                              && k == (r.date, if r.date < today then Past else CutoffHasPassed))
    ensures Ascends(actionDates) && forall i, j :: 0 <= i < j < |keepDates| ==> keepDates[i].0 < keepDates[j].0
  {
    var cutoffPassed := startMinute.Some? && nowMinute >= startMinute.value;
    actionDates, keepDates := [], [];
    for i := 0 to |rows|
      invariant forall d :: d in actionDates <==>
                  exists r :: r in rows[..i] && r.date == d && Moves(r, today, cutoffPassed, states)
      invariant forall k :: k in keepDates <==>
                  exists r :: && r in rows[..i] && r.state in states && !Moves(r, today, cutoffPassed, states)
                              && k == (r.date, if r.date < today then Past else CutoffHasPassed)
      invariant Ascends(actionDates) && forall i, j :: 0 <= i < j < |keepDates| ==> keepDates[i].0 < keepDates[j].0
    {
      var day := rows[i];
      assert rows[..i + 1] == rows[..i] + [day];
      AppendAscends(actionDates, day.date);
      if day.state in states {
        if day.date > today || (day.date == today && !cutoffPassed) {
          actionDates := actionDates + [day.date];
        } else {
          assert forall j :: 0 <= j < |keepDates| ==> keepDates[j] in keepDates;
          keepDates := keepDates + [(day.date, if day.date < today then Past else CutoffHasPassed)];
        }
      }
    }
    assert rows[..|rows|] == rows;
  }

  /** The split of one request's days: the dates the action moves. */
  method SplitForRequest(tx: Tx, env: Env, now: Instant, req: nat, states: set<DayState>)
    returns (actionDates: seq<Date>, keepDates: seq<(Date, KeepReason)>)
    ensures Ascends(actionDates)
    ensures SetOf(actionDates) == ActionableIn(env, tx.View(), now, DatesIn(tx.View(), req, states))
  {
    var rows := FindDaysInStates(tx.View(), req, states);
    var today := env.today(now);
    RowsAscend(rows);
    actionDates, keepDates :=
      SplitActionableDates(rows, today, env.minute(now), StartMinute(env, tx.View(), today), states);
    RowsCover(tx.View(), req, states);
    forall d
      ensures d in SetOf(actionDates) <==> d in ActionableIn(env, tx.View(), now, DatesIn(tx.View(), req, states))
    {
    }
  }

  lemma RowsAscend(rows: seq<DayRow>)
    requires Ascends(DatesOf(rows))
    ensures forall i, j :: 0 <= i < j < |rows| ==> rows[i].date < rows[j].date
  {
    forall i, j | 0 <= i < j < |rows|
      ensures rows[i].date < rows[j].date
    {
      assert DatesOf(rows)[i] < DatesOf(rows)[j];
    }
  }

  lemma RowsCover(db: Db, req: nat, states: set<DayState>)
    ensures forall d :: d in DatesIn(db, req, states) <==>
              exists r :: r in FindDaysInStates(db, req, states) && r.date == d
  {
    var rows := FindDaysInStates(db, req, states);
    forall d | d in DatesIn(db, req, states)
      ensures exists r :: r in rows && r.date == d
    {
      assert d in DatesOf(rows);
      var i :| 0 <= i < |rows| && DatesOf(rows)[i] == d;
      assert rows[i] in rows;
    }
    forall r | r in rows
      ensures r.date in DatesIn(db, req, states)
    {
      var i :| 0 <= i < |rows| && rows[i] == r;
      assert DatesOf(rows)[i] in Ascending(DatesIn(db, req, states));
    }
  }

  method ApplyTransact(tx: Tx, env: Env, now: Instant, a: ApplyCall) returns (reply: Reply)
    modifies tx
    ensures Result(tx.View(), reply) == ApplyStep(env, old(tx.View()), now, a)
  {
    hide FactsRefusal, FindRequest;
    var before := tx.View();
    if a.onBehalf && !a.employeeExists {
      return Refused(EmployeeNotFound);
    }
    var replay := FindRequest(env, tx.requests, a.key, a.caller);
    if replay.Some? {
      return LeaveReplay(replay.value);
    }
    if a.elsewhere == Visible {
      return LeaveReplayElsewhere;
    }
    var shape := ShapeRefusal(a);
    if shape.Some? {
      return Refused(shape.value);
    }
    var dates := EnumerateDates(a.first, a.last);
    var rejection := FactsRefusal(env, tx.View(), env.today(now), a);
    if rejection.Some? {
      return Refused(rejection.value);
    }
    var request := tx.InsertLeaveRequest(Request(a.key, a.caller, a.first, a.last, a.part), a.elsewhere == Hidden);
    if request.None? {
      return DuplicateKey;
    }
    var ok := InsertInitialLeaveDays(tx, request.value, dates, if a.onBehalf then Approved else Pending,
                                     if a.onBehalf then ApplyOnBehalf else Apply, a.caller,
                                     if a.onBehalf then [env.employee] else a.admins);
    assert forall d :: d in dates <==> d in Span(a.first, a.last) by {
      assert forall d :: d in dates <==> d in SetOf(dates);
    }
    if !ok {
      tx.Rollback(before);
      return Broken(ActiveDayClash);
    }
    reply := LeaveView(request.value, {});
  }

  /** The answer to an action that finds nothing to move: the actor's own retry, or a conflict. */
  method OwnRetryOrConflict(db: Db, req: nat, cause: Cause, actor: UserId, conflict: Refusal) returns (reply: Reply)
    ensures Result(db, reply) == NothingToDo(db, req, cause, actor, conflict)
  {
    hide LastEvent;
    var last := LastEvent(db.events, req);
    if last.Some? && last.value.cause == cause && last.value.actor == Some(actor) {
      return LeaveReplay(req);
    }
    reply := Refused(conflict);
  }

  method ActTransact(tx: Tx, env: Env, now: Instant, req: nat, actor: UserId, action: OwnerAction)
    returns (reply: Reply)
    modifies tx
    ensures Result(tx.View(), reply) == ActStep(env, old(tx.View()), now, req, actor, action)
  {
    hide ActionableIn, DatesIn, TransitionDays, NothingToDo;
    var before := tx.View();
    if req >= |tx.requests| {
      return Refused(RequestNotFound);
    }
    var actionDates := Ascending(DatesIn(tx.View(), req, Sources(action)));
    if action == ToRevoke {
      var keepDates;
      actionDates, keepDates := SplitForRequest(tx, env, now, req, Sources(action));
    }
    assert SetOf(actionDates) == ActionDates(env, before, now, req, action);
    if |actionDates| == 0 {
      reply := OwnRetryOrConflict(tx.View(), req, CauseOf(action), actor,
                                  if action == ToRevoke then NotRevokable else NotPending);
      return;
    }
    assert actionDates[0] in SetOf(actionDates);
    var ok := TransitionLeaveDays(tx, req, actionDates, Sources(action), MovesTo(action), CauseOf(action), Some(actor),
                                  [env.employee], None);
    if !ok {
      tx.Rollback(before);
      return Broken(DayCountMismatch);
    }
    reply := LeaveView(req, SetOf(actionDates));
  }

  method CancelTransact(tx: Tx, env: Env, now: Instant, req: nat, admins: seq<UserId>) returns (reply: Reply)
    modifies tx
    ensures Result(tx.View(), reply) == CancelStep(env, old(tx.View()), now, req, admins)
  {
    hide ActionableIn, DatesIn, TransitionDays, NothingToDo;
    var before := tx.View();
    if req >= |tx.requests| {
      return Refused(RequestNotFound);
    }
    var actionDates, keepDates := SplitForRequest(tx, env, now, req, {Pending, Approved});
    assert SetOf(actionDates) == CancelDates(env, before, now, req);
    if |actionDates| == 0 {
      reply := OwnRetryOrConflict(tx.View(), req, EmployeeCancel, env.employee, NotCancellable);
      return;
    }
    assert actionDates[0] in SetOf(actionDates);
    var ok := TransitionLeaveDays(tx, req, actionDates, {Pending, Approved}, Cancelled, EmployeeCancel,
                                  Some(env.employee), admins, None);
    if !ok {
      tx.Rollback(before);
      return Broken(DayCountMismatch);
    }
    reply := LeaveView(req, SetOf(actionDates));
  }
}
