// Which answer every leave call gets, and what it leaves, said on the rows of the tables: applying
// with its refusals in reporting order, and acting on or cancelling a request that is there or not.

module LeaveAnswers {
  import opened Basics
  import opened Periods
  import opened Tables
  import opened LeaveWriter
  import opened Leave
  import opened LeaveLog

  // ------------------------------------------------------------------- apply

  /** A request with the key that the caller may see again: the employee's own view, or made by them. */
  predicate OwnRequest(env: Env, db: Db, a: ApplyCall, i: nat) {
    && i < |db.requests| && db.requests[i].key == a.key
    && (a.caller == env.employee || db.requests[i].createdBy == a.caller)
  }

  ghost predicate FirstOwn(env: Env, db: Db, a: ApplyCall, i: nat) {
    OwnRequest(env, db, a, i) && forall j: nat :: j < i ==> !OwnRequest(env, db, a, j)
  }

  /** The call reaches the checks of the request itself. */
  ghost predicate IsNew(env: Env, db: Db, a: ApplyCall) {
    && (a.onBehalf ==> a.employeeExists)
    && (forall i: nat :: !OwnRequest(env, db, a, i)) && a.elsewhere != Visible
  }

  /** One to 62 dates, and a half day on a single one. */
  predicate WellShaped(a: ApplyCall) {
    a.first <= a.last && a.last - a.first < 62 && (a.part == FullDay || a.first == a.last)
  }

  predicate RowOn(e: Period<()>, d: Date) {
    e.start <= d && (e.end.None? || d < e.end.value)
  }

  /** Both settings are on, and an enrolment covers today or is still to come. */
  ghost predicate TrackedOrComing(db: Db, today: Date, s: Settings) {
    s.setupCompleted && s.enabled && exists e :: e in db.enrolments && (RowOn(e, today) || e.start > today)
  }

  /** The leave starts before every enrolment that covers today or, if none does, that is to come. */
  ghost predicate BeforeTracking(db: Db, today: Date, first: Date) {
    if exists e :: e in db.enrolments && RowOn(e, today)
    then forall e :: e in db.enrolments && RowOn(e, today) ==> first < e.start
    else forall e :: e in db.enrolments && e.start > today ==> first < e.start
  }

  ghost predicate RecordInSpan(db: Db, today: Date, a: ApplyCall) {
    exists r :: r in db.records && a.first <= r.workDate <= a.last && r.workDate <= today
  }

  ghost predicate AllOff(env: Env, a: ApplyCall) {
    forall d :: a.first <= d <= a.last ==> !env.working(d)
  }

  /** A correction that proves presence: present or half day, or instants of its own. */
  ghost predicate CorrectedInSpan(db: Db, a: ApplyCall) {
    exists d :: d in db.overrides && a.first <= d <= a.last && !db.overrides[d].deleted
                && (db.overrides[d].status in {Some(Present), Some(HalfDay)}
                    || (db.overrides[d].status.None?
                        && (db.overrides[d].checkinAt.Some? || db.overrides[d].checkoutAt.Some?)))
  }

  ghost predicate ActiveInSpan(db: Db, a: ApplyCall) {
    exists k :: k in db.days && a.first <= k.date <= a.last && db.days[k] in {Pending, Approved}
  }

  // The checks of a new request, each after those before it.

  ghost predicate Shaped(env: Env, db: Db, a: ApplyCall) {
    IsNew(env, db, a) && WellShaped(a)
  }

  ghost predicate Tracked(env: Env, db: Db, today: Date, a: ApplyCall) {
    Shaped(env, db, a) && TrackedOrComing(db, today, a.settings)
  }

  ghost predicate Started(env: Env, db: Db, today: Date, a: ApplyCall) {
    Tracked(env, db, today, a) && !BeforeTracking(db, today, a.first)
  }

  ghost predicate Recent(env: Env, db: Db, today: Date, a: ApplyCall) {
    Started(env, db, today, a) && a.first >= today - 7
  }

  ghost predicate Absent(env: Env, db: Db, today: Date, a: ApplyCall) {
    Recent(env, db, today, a) && !RecordInSpan(db, today, a)
  }

  ghost predicate WithWork(env: Env, db: Db, today: Date, a: ApplyCall) {
    Absent(env, db, today, a) && !AllOff(env, a)
  }

  ghost predicate Uncorrected(env: Env, db: Db, today: Date, a: ApplyCall) {
    WithWork(env, db, today, a) && !CorrectedInSpan(db, a)
  }

  ghost predicate Applicable(env: Env, db: Db, today: Date, a: ApplyCall) {
    Uncorrected(env, db, today, a) && !ActiveInSpan(db, a)
  }

  ghost predicate KeyTaken(db: Db, a: ApplyCall) {
    (exists r :: r in db.requests && r.key == a.key) || a.elsewhere == Hidden
  }

  lemma {:induction false} FirstOwnIs(env: Env, db: Db, a: ApplyCall, requests: seq<Request>)
    requires requests <= db.requests
    ensures var r := FindRequest(env, requests, a.key, a.caller);
            && (r.Some? ==> FirstOwn(env, db, a, r.value))
            && (r.None? ==> forall i: nat :: i < |requests| ==> !OwnRequest(env, db, a, i))
  {
    if requests != [] {
      FirstOwnIs(env, db, a, requests[..|requests| - 1]);
    }
  }

  lemma OwnIff(env: Env, db: Db, a: ApplyCall)
    ensures var r := FindRequest(env, db.requests, a.key, a.caller);
            && (r.None? <==> forall i: nat :: !OwnRequest(env, db, a, i))
            && (forall i: nat :: r == Some(i) <==> FirstOwn(env, db, a, i))
  {
    FirstOwnIs(env, db, a, db.requests);
  }

  /** The earliest start of the picked rows, said without the search. */
  lemma {:induction false} EarliestIs(rows: seq<Period<()>>, pick: Pick)
    ensures var r := EarliestStart(rows, pick);
            && (r.Some? <==> exists e :: e in rows && Picks(e, pick))
            && (r.Some? ==> exists e :: e in rows && Picks(e, pick) && e.start == r.value)
            && (r.Some? ==> forall e :: e in rows && Picks(e, pick) ==> r.value <= e.start)
  {
    if rows != [] {
      EarliestIs(rows[1..], pick);
      assert forall e :: e in rows <==> e == rows[0] || e in rows[1..];
    }
  }

  lemma {:induction false} CoveredIff(rows: seq<Period<()>>, d: Date)
    ensures At(rows, d).Some? <==> exists e :: e in rows && RowOn(e, d)
  {
    if rows != [] {
      CoveredIff(rows[1..], d);
      assert Contains(rows[0], d) == RowOn(rows[0], d);
      assert forall e :: e in rows <==> e == rows[0] || e in rows[1..];
    }
  }

  /** Where tracking starts for leave, said on the rows. */
  lemma FloorIs(db: Db, today: Date, first: Date)
    ensures var floor := Floor(db.enrolments, today);
            && (exists e :: e in db.enrolments && (RowOn(e, today) || e.start > today)) ==
               (db.enrolments != [] && (At(db.enrolments, today).Some? || (floor.Some? && floor.value > today)))
            && ((exists e :: e in db.enrolments && (RowOn(e, today) || e.start > today)) ==>
                  ((floor.Some? && first < floor.value) <==> BeforeTracking(db, today, first)))
  {
    CoveredIff(db.enrolments, today);
    EarliestIs(db.enrolments, CoveringDay(today));
    EarliestIs(db.enrolments, StartingAfter(today));
    EarliestIs(db.enrolments, AnyRow);
    hide At, EarliestStart;
  }

  lemma FactsAre(env: Env, db: Db, today: Date, a: ApplyCall)
    ensures var tracked := TrackedOrComing(db, today, a.settings);
            FactsRefusal(env, db, today, a)
            == if !tracked then Some(AttendanceNotTracked)
               else if BeforeTracking(db, today, a.first) then Some(BeforeStartDate)
               else if a.first < today - 7 then Some(TooOld)
               else if RecordInSpan(db, today, a) then Some(CheckedInConflict)
               else if AllOff(env, a) then Some(AlreadyOff)
               else if CorrectedInSpan(db, a) then Some(CheckedInConflict)
               else if ActiveInSpan(db, a) then Some(Overlap)
               else None
  {
    FloorIs(db, today, a.first);
    assert CheckedInWithin(db, a.first, a.last, today) == RecordInSpan(db, today, a);
    assert CorrectedWithin(db, a.first, a.last) == CorrectedInSpan(db, a) by {
      CorrectedIff(db, a);
    }
    assert ActiveWithin(db, a.first, a.last) == ActiveInSpan(db, a);
    hide Floor, At, BeforeTracking, CheckedInWithin, CorrectedWithin, ActiveWithin, RecordInSpan, CorrectedInSpan,
         ActiveInSpan;
  }

  lemma CorrectedIff(db: Db, a: ApplyCall)
    ensures CorrectedWithin(db, a.first, a.last) == CorrectedInSpan(db, a)
  {
    assert forall d :: d in db.overrides ==>
        (ProvesPresence(db.overrides[d]) <==>
           !db.overrides[d].deleted
           && (db.overrides[d].status in {Some(Present), Some(HalfDay)}
               || (db.overrides[d].status.None?
                   && (db.overrides[d].checkinAt.Some? || db.overrides[d].checkoutAt.Some?))));
  }

  /** Which refusal a call gets, in reporting order; a refused call writes nothing. */
  lemma ApplyRefusedIff(env: Env, db: Db, now: Instant, a: ApplyCall, why: Refusal)
    ensures var today := env.today(now);
            ApplyStep(env, db, now, a) == Result(db, Refused(why)) <==>
              match why
              case EmployeeNotFound => a.onBehalf && !a.employeeExists
              case InvalidRange => IsNew(env, db, a) && !WellShaped(a)
              case AttendanceNotTracked => Shaped(env, db, a) && !TrackedOrComing(db, today, a.settings)
              case BeforeStartDate => Tracked(env, db, today, a) && BeforeTracking(db, today, a.first)
              case TooOld => Started(env, db, today, a) && a.first < today - 7
              case CheckedInConflict =>
                || (Recent(env, db, today, a) && RecordInSpan(db, today, a))
                || (WithWork(env, db, today, a) && CorrectedInSpan(db, a))
              case AlreadyOff => Absent(env, db, today, a) && AllOff(env, a)
              case Overlap => Uncorrected(env, db, today, a) && ActiveInSpan(db, a)
              case _ => false
    ensures ApplyStep(env, db, now, a).reply.Refused? ==> ApplyStep(env, db, now, a).db == db
  {
    var today := env.today(now);
    OwnIff(env, db, a);
    FactsAre(env, db, today, a);
    hide FindRequest, FactsRefusal, TrackedOrComing, BeforeTracking, RecordInSpan, AllOff, CorrectedInSpan, ActiveInSpan,
         OpenRequest, OwnRequest, ClashesWithActive, KeyHeld;
  }

  /** Which calls are answered from a request that is there, and which are not; none of them writes. */
  lemma ApplyUnwrittenIff(env: Env, db: Db, now: Instant, a: ApplyCall)
    ensures var r, today, there := ApplyStep(env, db, now, a), env.today(now), a.onBehalf ==> a.employeeExists;
            && (forall i: nat :: r == Result(db, LeaveReplay(i)) <==> there && FirstOwn(env, db, a, i))
            && (r == Result(db, LeaveReplayElsewhere) <==>
                  there && (forall i: nat :: !OwnRequest(env, db, a, i)) && a.elsewhere == Visible)
            && (r == Result(db, DuplicateKey) <==> Applicable(env, db, today, a) && KeyTaken(db, a))
  {
    var today := env.today(now);
    OwnIff(env, db, a);
    FactsAre(env, db, today, a);
    hide FindRequest, FactsRefusal, TrackedOrComing, BeforeTracking, RecordInSpan, AllOff, CorrectedInSpan, ActiveInSpan,
         OpenRequest, OwnRequest, ClashesWithActive;
  }

  /** A message to each recipient. */
  ghost function Messages(cause: Cause, recipients: seq<UserId>, key: Key): set<NoticeKey> {
    set u | u in recipients :: LeaveNotice(cause, u, key, None)
  }

  /** The rows a new request leaves: itself as asked for, a day on every date, one event, and the messages. */
  ghost predicate Opens(env: Env, db: Db, after: Db, a: ApplyCall) {
    var n, cause := |db.requests|, if a.onBehalf then ApplyOnBehalf else Apply;
    && after == db.(requests := db.requests + [Request(a.key, a.caller, a.first, a.last, a.part)], days := after.days,
                    events := after.events,
                    notices := db.notices + Messages(cause, if a.onBehalf then [env.employee] else a.admins, a.key))
    && (forall k: DayKey ::
          && (k in after.days <==> k in db.days || (k.req == n && a.first <= k.date <= a.last))
          && (k in after.days ==> after.days[k] == if k in db.days then db.days[k]
                                                   else if a.onBehalf then Approved else Pending))
    && |after.events| == |db.events| + 1 && after.events[..|db.events|] == db.events
    && var e := after.events[|db.events|];
       && e.req == n && e.cause == cause && e.actor == Some(a.caller)
       && forall d :: d in e.dates <==> a.first <= d <= a.last
  }

  lemma OpenRequestOpens(env: Env, db: Db, a: ApplyCall)
    requires LeaveOk(db)
    ensures Opens(env, db, OpenRequest(env, db, a), a)
  {
    hide Span, LogTells, OneActivePerDate, NoMix, KeysUnique, EventsOfRequests;
    OpenedDays(env, db, a);
  }

  /** A call opens a request exactly when no check refuses it and its key is free; else it writes nothing. */
  lemma ApplyOpensIff(env: Env, db: Db, now: Instant, a: ApplyCall)
    requires LeaveOk(db)
    ensures var r := ApplyStep(env, db, now, a);
            if Applicable(env, db, env.today(now), a) && !KeyTaken(db, a)
            then r.reply == LeaveView(|db.requests|, {}) && Opens(env, db, r.db, a)
            else !r.reply.LeaveView? && r.db == db
  {
    hide FindRequest, FactsRefusal, TrackedOrComing, BeforeTracking, RecordInSpan, AllOff, CorrectedInSpan, ActiveInSpan,
         OpenRequest, OwnRequest, ClashesWithActive, LeaveOk, Opens;
    var today := env.today(now);
    OwnIff(env, db, a);
    FactsAre(env, db, today, a);
    ApplyForm(env, db, now, a);
    OpenRequestOpens(env, db, a);
  }

  // -------------------------------------------- approve, reject, revoke, cancel

  /** Today's office start, if an office covers today and has one, has not passed. */
  ghost predicate Ahead(env: Env, db: Db, now: Instant, d: Date) {
    var today := env.today(now);
    || d > today
    || (d == today && forall i: nat, m: int ::
          FirstCovering(db, today, i) && env.start(db.assignments[i].load, today) == Some(m) ==> env.minute(now) < m)
  }

  /** The first assignment row that covers the date (in a run: the only one). */
  ghost predicate FirstCovering(db: Db, d: Date, i: nat) {
    && i < |db.assignments| && Covering(db.assignments[i], d)
    && forall j :: 0 <= j < i ==> !Covering(db.assignments[j], d)
  }

  predicate Covering(a: Period<OfficeId>, d: Date) {
    a.start <= d && (a.end.None? || d < a.end.value)
  }

  /** The day is one the call would move. */
  ghost predicate Moves(env: Env, db: Db, now: Instant, req: nat, action: OwnerAction, d: Date) {
    DayKey(req, d) in db.days
    && match action
       case ToApprove => db.days[DayKey(req, d)] == Pending
       case ToReject => db.days[DayKey(req, d)] == Pending
       case ToRevoke => db.days[DayKey(req, d)] == Approved && Ahead(env, db, now, d)
  }

  ghost predicate CancelMoves(env: Env, db: Db, now: Instant, req: nat, d: Date) {
    DayKey(req, d) in db.days && db.days[DayKey(req, d)] in {Pending, Approved} && Ahead(env, db, now, d)
  }

  /** The last event of the request has this cause and was this person's. */
  ghost predicate LastWasTheirs(db: Db, req: nat, cause: Cause, actor: UserId) {
    exists i :: && 0 <= i < |db.events| && db.events[i].req == req
                && (forall j :: i < j < |db.events| ==> db.events[j].req != req)
                && db.events[i].cause == cause && db.events[i].actor == Some(actor)
  }

  predicate CauseIs(action: OwnerAction, cause: Cause) {
    match action
    case ToApprove => cause == Approve
    case ToReject => cause == Reject
    case ToRevoke => cause == OwnerRevoke
  }

  lemma {:induction false} FirstCoveringIs(db: Db, rows: seq<Period<OfficeId>>, k: nat, d: Date)
    requires k <= |db.assignments| && rows == db.assignments[k..]
    requires forall j :: 0 <= j < k ==> !Covering(db.assignments[j], d)
    ensures At(rows, d).None? <==> forall i :: k <= i < |db.assignments| ==> !Covering(db.assignments[i], d)
    ensures forall i: nat :: FirstCovering(db, d, i) ==> At(rows, d) == Some(db.assignments[i].load)
    ensures At(rows, d).Some? ==> exists i: nat :: FirstCovering(db, d, i)
    decreases |rows|
  {
    if rows != [] {
      assert rows[0] == db.assignments[k] && Contains(rows[0], d) == Covering(db.assignments[k], d);
      if Covering(db.assignments[k], d) {
        assert FirstCovering(db, d, k);
      } else {
        FirstCoveringIs(db, rows[1..], k + 1, d);
      }
    }
  }

  lemma AheadIff(env: Env, db: Db, now: Instant, d: Date)
    ensures Actionable(env, db, now, d) <==> Ahead(env, db, now, d)
  {
    var today := env.today(now);
    assert db.assignments[0..] == db.assignments;
    FirstCoveringIs(db, db.assignments, 0, today);
    hide At, Covering;
  }

  lemma {:induction false} LastIs(db: Db, events: seq<Event>, req: nat)
    requires events <= db.events
    ensures var r := LastEvent(events, req);
            && (r.None? <==> forall i :: 0 <= i < |events| ==> events[i].req != req)
            && (r.Some? ==> exists i :: && 0 <= i < |events| && events[i].req == req && events[i] == r.value
                                        && forall j :: i < j < |events| ==> events[j].req != req)
  {
    if events != [] {
      LastIs(db, events[..|events| - 1], req);
    }
  }

  lemma LastIff(db: Db, req: nat, cause: Cause, actor: UserId)
    ensures var r := LastEvent(db.events, req);
            (r.Some? && r.value.cause == cause && r.value.actor == Some(actor)) <==> LastWasTheirs(db, req, cause, actor)
  {
    LastIs(db, db.events, req);
    hide LastEvent;
  }

  lemma ActDatesAre(env: Env, db: Db, now: Instant, req: nat, action: OwnerAction)
    ensures forall d :: d in ActionDates(env, db, now, req, action) <==> Moves(env, db, now, req, action, d)
  {
    DatesInAre(db, req, Sources(action));
    forall d
      ensures Actionable(env, db, now, d) <==> Ahead(env, db, now, d)
    {
      AheadIff(env, db, now, d);
    }
    hide Actionable, Ahead, DatesIn;
  }

  lemma CancelDatesAre(env: Env, db: Db, now: Instant, req: nat)
    ensures forall d :: d in CancelDates(env, db, now, req) <==> CancelMoves(env, db, now, req, d)
  {
    DatesInAre(db, req, {Pending, Approved});
    forall d
      ensures Actionable(env, db, now, d) <==> Ahead(env, db, now, d)
    {
      AheadIff(env, db, now, d);
    }
    hide Actionable, Ahead, DatesIn;
  }

  /** The days, the event and the messages of one move: these dates of the request, to this state. */
  ghost predicate Moved(db: Db, after: Db, req: nat, dates: set<Date>, to: DayState, cause: Cause, actor: UserId,
                        recipients: seq<UserId>)
    requires req < |db.requests|
  {
    && after == db.(days := after.days, events := db.events + [Event(req, cause, Some(actor), dates)],
                    notices := db.notices + Messages(cause, recipients, db.requests[req].key))
    && after.days.Keys == db.days.Keys
    && forall k :: k in db.days ==>
         after.days[k] == if k.req == req && k.date in dates then to else db.days[k]
  }

  lemma WriteMoves(db: Db, req: nat, dates: set<Date>, to: DayState, cause: Cause, actor: UserId,
                   recipients: seq<UserId>)
    requires req < |db.requests|
    ensures Moved(db, WriteDays(db, req, dates, to, cause, Some(actor), recipients, None), req, dates, to, cause, actor,
                  recipients)
  {
  }

  /**
   * Approve, reject, revoke. An unknown request is not found. A call that would move no day answers
   * the actor's own retry as a success exactly if the request's last event is that very action of
   * theirs, and a conflict otherwise; neither writes. Any other call moves exactly those days.
   */
  lemma ActAnswer(env: Env, db: Db, now: Instant, req: nat, actor: UserId, action: OwnerAction, cause: Cause)
    requires CauseIs(action, cause)
    ensures var r := ActStep(env, db, now, req, actor, action);
            && (req >= |db.requests| ==> r == Result(db, Refused(RequestNotFound)))
            && (req < |db.requests| && (forall d :: !Moves(env, db, now, req, action, d)) ==>
                  r == Result(db, if LastWasTheirs(db, req, cause, actor) then LeaveReplay(req)
                                  else if action == ToRevoke then Refused(NotRevokable) else Refused(NotPending)))
            && (LeaveOk(db) && req < |db.requests| && (exists d :: Moves(env, db, now, req, action, d)) ==>
                  && r.reply.LeaveView? && r.reply.req == req
                  && (forall d :: d in r.reply.dates <==> Moves(env, db, now, req, action, d))
                  && Moved(db, r.db, req, r.reply.dates,
                           match action case ToApprove => Approved case ToReject => Rejected case ToRevoke => Revoked,
                           cause, actor, [env.employee]))
  {
    ActDatesAre(env, db, now, req, action);
    LastIff(db, req, cause, actor);
    var dates := ActionDates(env, db, now, req, action);
    hide ActionDates, Moves, LastEvent, LastWasTheirs;
    if req < |db.requests| && dates == {} {
      assert forall d :: d !in dates;
    } else if req < |db.requests| && LeaveOk(db) {
      hide LeaveOk, TransitionDays, MayMove;
      var d := Member(dates);
      ActForm(env, db, now, req, actor, action);
      WriteMoves(db, req, dates, MovesTo(action), cause, actor, [env.employee]);
    } else if req < |db.requests| {
      var d := Member(dates);
    }
  }

  /** The employee's cancel, in the same way. */
  lemma CancelAnswer(env: Env, db: Db, now: Instant, req: nat, admins: seq<UserId>)
    ensures var r := CancelStep(env, db, now, req, admins);
            && (req >= |db.requests| ==> r == Result(db, Refused(RequestNotFound)))
            && (req < |db.requests| && (forall d :: !CancelMoves(env, db, now, req, d)) ==>
                  r == Result(db, if LastWasTheirs(db, req, EmployeeCancel, env.employee) then LeaveReplay(req)
                                  else Refused(NotCancellable)))
            && (LeaveOk(db) && req < |db.requests| && (exists d :: CancelMoves(env, db, now, req, d)) ==>
                  && r.reply.LeaveView? && r.reply.req == req
                  && (forall d :: d in r.reply.dates <==> CancelMoves(env, db, now, req, d))
                  && Moved(db, r.db, req, r.reply.dates, Cancelled, EmployeeCancel, env.employee, admins))
  {
    CancelDatesAre(env, db, now, req);
    LastIff(db, req, EmployeeCancel, env.employee);
    var dates := CancelDates(env, db, now, req);
    hide CancelDates, CancelMoves, LastEvent, LastWasTheirs;
    if req < |db.requests| && dates == {} {
      assert forall d :: d !in dates;
    } else if req < |db.requests| && LeaveOk(db) {
      hide LeaveOk, TransitionDays, MayMove;
      var d := Member(dates);
      CancelForm(env, db, now, req, admins);
      WriteMoves(db, req, dates, Cancelled, EmployeeCancel, env.employee, admins);
    } else if req < |db.requests| {
      var d := Member(dates);
    }
  }
}
