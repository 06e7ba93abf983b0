// The single writer of leave day states: every change of a day goes through these functions,
// which append one audit event and the notifications of its cause.

module LeaveWriter {
  import opened Basics
  import opened Tables

  /** The state a cause moves its days to. */
  function Target(c: Cause): DayState {
    match c
    case Apply => Pending
    case ApplyOnBehalf => Approved
    case Approve => Approved
    case Reject => Rejected
    case OwnerRevoke => Revoked
    case EmployeeCancel => Cancelled
    case CheckinAutoCancel => Cancelled
    case Disable => Cancelled
  }

  function Notices(c: Cause, recipients: seq<UserId>, key: Key, tag: Option<Date>): set<NoticeKey> {
    set u | u in recipients :: LeaveNotice(c, u, key, tag)
  }

  /** The audit row and the notifications; an existing dedupe key makes its insert a no-op. */
  function Recorded(db: Db, e: Event, recipients: seq<UserId>, tag: Option<Date>): Db
    requires e.req < |db.requests|
  {
    db.(events := db.events + [e],
        notices := db.notices + Notices(e.cause, recipients, db.requests[e.req].key, tag))
  }

  function DayRows(req: nat, dates: set<Date>, state: DayState): map<DayKey, DayState> {
    map d | d in dates :: DayKey(req, d) := state
  }

  /** The day rows a fresh request starts with. */
  function OpenDays(db: Db, req: nat, dates: set<Date>, state: DayState, cause: Cause, actor: UserId,
                    recipients: seq<UserId>): Db
    requires req < |db.requests|
  {
    var db' := db.(days := db.days + DayRows(req, dates, state));
    Recorded(db', Event(req, cause, Some(actor), dates), recipients, None)
  }

  function WriteDays(db: Db, req: nat, dates: set<Date>, to: DayState, cause: Cause, actor: Option<UserId>,
                     recipients: seq<UserId>, tag: Option<Date>): Db
    requires req < |db.requests|
  {
    var db' := db.(days := map k | k in db.days :: if k.req == req && k.date in dates then to else db.days[k]);
    Recorded(db', Event(req, cause, actor, dates), recipients, tag)
  }

  /** The rows the guarded UPDATE returns. */
  function Matching(db: Db, req: nat, dates: set<Date>, from: set<DayState>): set<Date> {
    set d | d in dates && DayKey(req, d) in db.days && db.days[DayKey(req, d)] in from
  }

  /** The guarded transition: all requested dates or, on a row-count mismatch, nothing. */
  function TransitionDays(db: Db, req: nat, dates: set<Date>, from: set<DayState>, to: DayState, cause: Cause,
                          actor: Option<UserId>, recipients: seq<UserId>, tag: Option<Date>): Option<Db>
    requires req < |db.requests|
  {
    if dates == {} then Some(db)
    else if |Matching(db, req, dates, from)| != |dates| then None
    else Some(WriteDays(db, req, dates, to, cause, actor, recipients, tag))
  }

  lemma TransitionWrites(db: Db, req: nat, dates: set<Date>, from: set<DayState>)
    requires forall d :: d in dates ==> DayKey(req, d) in db.days && db.days[DayKey(req, d)] in from
    ensures Matching(db, req, dates, from) == dates
  {
  }

  // -------------------------------------------------------------------- reads

  /** The dates of one request whose day is in one of the given states. */
  function DatesIn(db: Db, req: nat, states: set<DayState>): set<Date> {
    set k | k in db.days && k.req == req && db.days[k] in states :: k.date
  }

  function ActiveLeaveAmong(db: Db, d: Date, n: nat): Option<nat> {
    if n == 0 then None
    else if DayKey(n - 1, d) in db.days && Active(db.days[DayKey(n - 1, d)]) then Some(n - 1)
    else ActiveLeaveAmong(db, d, n - 1)
  }

  /** A request with an active day on the date (`limit 1`). */
  function ActiveLeave(db: Db, d: Date): Option<nat> {
    ActiveLeaveAmong(db, d, |db.requests|)
  }

  lemma {:induction false} ActiveLeaveFound(db: Db, d: Date, n: nat)
    ensures var r := ActiveLeaveAmong(db, d, n);
            if r.Some? then r.value < n && DayKey(r.value, d) in db.days && Active(db.days[DayKey(r.value, d)])
            else forall i :: 0 <= i < n && DayKey(i, d) in db.days ==> !Active(db.days[DayKey(i, d)])
  {
    if n > 0 {
      ActiveLeaveFound(db, d, n - 1);
    }
  }

  function LastEvent(events: seq<Event>, req: nat): Option<Event> {
    if events == [] then None
    else if events[|events| - 1].req == req then Some(events[|events| - 1])
    else LastEvent(events[..|events| - 1], req)
  }

  /** The audit log read back: the state the last event naming a day left it in. */
  function StateAfter(events: seq<Event>, k: DayKey): Option<DayState> {
    if events == [] then None
    else
      var e := events[|events| - 1];
      if e.req == k.req && k.date in e.dates then Some(Target(e.cause))
      else StateAfter(events[..|events| - 1], k)
  }

  lemma StateAfterAppend(events: seq<Event>, e: Event, k: DayKey)
    ensures StateAfter(events + [e], k)
         == if e.req == k.req && k.date in e.dates then Some(Target(e.cause)) else StateAfter(events, k)
  {
    assert (events + [e])[..|events + [e]| - 1] == events;
  }
}
