// The OTP stores on a TTL cache: how long a code can be accepted, and how many codes can be sent.
// Calls on one key are taken one at a time, at the instant their clock reads.

module Otp {
  import opened Basics

  const SECOND: int := 1000
  const OTP_TTL: int := 300 * SECOND
  const SEND_WINDOW_SECONDS: int := 600
  const SEND_WINDOW: int := SEND_WINDOW_SECONDS * SECOND
  const SEND_MAX: nat := 5
  const OTP_MAX_ATTEMPTS: nat := 5

  /** A cached value is served until its expiry, the last millisecond included. */
  datatype Entry<+T> = Entry(value: T, until: Instant)

  predicate Alive<T>(e: Option<Entry<T>>, now: Instant) {
    e.Some? && now <= e.value.until
  }

  /** `Math.ceil(ms / 1000)` for a positive argument, and at least one. */
  function CeilSeconds(ms: int): (s: int)
    ensures s >= 1
    ensures ms <= s * SECOND && (ms > 0 ==> s * SECOND < ms + SECOND)
    ensures ms <= 0 ==> s == 1
  {
    if ms <= 0 then 1 else (ms + SECOND - 1) / SECOND
  }

  // ----------------------------------------------------------------- sessions

  datatype Session = Session(expiresAt: Instant, attempts: nat, locked: bool)

  datatype Checked = NoSession | Locked | WrongCode | Accepted

  class SessionStore {
    var entry: Option<Entry<Session>>

    constructor ()
      ensures entry == None
    {
      entry := None;
    }

    method Set(value: Session, ttlSeconds: int, now: Instant)
      modifies this
      ensures entry == Some(Entry(value, now + ttlSeconds * SECOND))
    {
      entry := Some(Entry(value, now + ttlSeconds * SECOND));
    }

    method Get(now: Instant) returns (s: Option<Session>)
      ensures s == if Alive(entry, now) then Some(entry.value.value) else None
    {
      s := if Alive(entry, now) then Some(entry.value.value) else None;
    }

    /** A new code opens a fresh session. */
    method Open(now: Instant)
      modifies this
      ensures entry == Opened(now)
    {
      Set(Session(now + OTP_TTL, 0, false), 300, now);
    }

    /** `valid`: the code matches the session's hash. A wrong code counts toward the lockout. */
    method CheckCode(now: Instant, valid: bool) returns (r: Checked)
      modifies this
      ensures (entry, r) == CheckStep(old(entry), now, valid)
    {
      var session := Get(now);
      if session.None? {
        return NoSession;
      }
      if session.value.locked {
        return Locked;
      }
      if !valid {
        var attempts := session.value.attempts + 1;
        var locked := session.value.locked;
        if attempts >= OTP_MAX_ATTEMPTS {
          locked := true;
        }
        var remaining := CeilSeconds(session.value.expiresAt - now);
        Set(Session(session.value.expiresAt, attempts, locked), remaining, now);
        return WrongCode;
      }
      r := Accepted;
    }

    method End()
      modifies this
      ensures entry == None
    {
      entry := None;
    }
  }

  function Opened(now: Instant): Option<Entry<Session>> {
    Some(Entry(Session(now + OTP_TTL, 0, false), now + OTP_TTL))
  }

  function CheckStep(e: Option<Entry<Session>>, now: Instant, valid: bool): (Option<Entry<Session>>, Checked) {
    if !Alive(e, now) then (e, NoSession)
    else if e.value.value.locked then (e, Locked)
    else if valid then (e, Accepted)
    else
      var s := e.value.value;
      (Some(Entry(Session(s.expiresAt, s.attempts + 1, s.attempts + 1 >= OTP_MAX_ATTEMPTS),
                  now + CeilSeconds(s.expiresAt - now) * SECOND)), WrongCode)
  }

  /**
   * One check of a code, written out: nothing after the entry's last millisecond; no answer to the
   * code once locked; a right code is accepted and leaves the session; a wrong one counts, locks at
   * the fifth, and is stored again for the whole seconds that cover what is left, at least one.
   */
  lemma CheckAnswer(e: Option<Entry<Session>>, now: Instant, valid: bool)
    ensures var r := CheckStep(e, now, valid);
            && (r.1 == NoSession <==> e.None? || now > e.value.until)
            && (r.1 == Locked <==> e.Some? && now <= e.value.until && e.value.value.locked)
            && (r.1 == Accepted <==> e.Some? && now <= e.value.until && !e.value.value.locked && valid)
            && (r.1 == WrongCode <==> e.Some? && now <= e.value.until && !e.value.value.locked && !valid)
            && (r.1 != WrongCode ==> r.0 == e)
            && (r.1 == WrongCode ==>
                  && r.0.Some?
                  && r.0.value.value == Session(e.value.value.expiresAt, e.value.value.attempts + 1,
                                                e.value.value.attempts + 1 >= 5)
                  && exists seconds :: StoredFor(r.0.value.until, now, e.value.value.expiresAt, seconds))
  {
    if CheckStep(e, now, valid).1 == WrongCode {
      var s := e.value.value;
      assert StoredFor(now + CeilSeconds(s.expiresAt - now) * SECOND, now, s.expiresAt, CeilSeconds(s.expiresAt - now));
    }
  }

  /** The least whole number of seconds, at least one, that reaches the expiry. */
  predicate StoredFor(until: Instant, now: Instant, expiresAt: Instant, seconds: int) {
    && until == now + 1000 * seconds && seconds >= 1 && until >= expiresAt
    && (seconds == 1 || until - 1000 < expiresAt)
  }

  /** A new code: five minutes, no wrong guess yet. */
  lemma OpenAnswer(now: Instant)
    ensures Opened(now) == Some(Entry(Session(now + 300_000, 0, false), now + 300_000))
  {
  }

  datatype SessionCall = Open | Check(valid: bool) | End

  datatype SessionTick = SessionTick(now: Instant, call: SessionCall)

  /** The cached session after a run of calls on one session id. */
  function SessionAfter(run: seq<SessionTick>): Option<Entry<Session>> {
    if run == [] then None
    else
      var e, last := SessionAfter(run[..|run| - 1]), run[|run| - 1];
      match last.call
      case Open => Opened(last.now)
      case Check(valid) => CheckStep(e, last.now, valid).0
      case End => None
  }

  ghost predicate SessionOk(e: Option<Entry<Session>>) {
    e.Some? ==>
      var s := e.value.value;
      && s.attempts <= OTP_MAX_ATTEMPTS && (s.locked <==> s.attempts == OTP_MAX_ATTEMPTS)
      && e.value.until <= s.expiresAt + SECOND * s.attempts
  }

  lemma {:induction false} RunSessionOk(run: seq<SessionTick>)
    ensures SessionOk(SessionAfter(run))
  {
    if run != [] {
      RunSessionOk(run[..|run| - 1]);
    }
  }

  /**
   * Whatever the pace of the guesses, a stored session outlives its advertised expiry by at most a
   * second per wrong guess; so a code is accepted at most four seconds late, and never on a
   * session with five wrong guesses behind it.
   */
  lemma AcceptedInTime(run: seq<SessionTick>, now: Instant)
    requires CheckStep(SessionAfter(run), now, true).1 == Accepted
    ensures var s := SessionAfter(run).value.value;
            now <= s.expiresAt + SECOND * s.attempts && s.attempts < OTP_MAX_ATTEMPTS
            && now <= s.expiresAt + 4 * SECOND
  {
    RunSessionOk(run);
  }

  /** A locked session is never accepted and never stored again: only a new code opens it. */
  lemma LockedStaysLocked(run: seq<SessionTick>, now: Instant, valid: bool)
    requires SessionAfter(run).Some? && SessionAfter(run).value.value.attempts == OTP_MAX_ATTEMPTS
    ensures var r := CheckStep(SessionAfter(run), now, valid);
            r.0 == SessionAfter(run) && (r.1 == Locked || r.1 == NoSession)
  {
    RunSessionOk(run);
  }

  // ------------------------------------------------------------- send counter

  datatype Counter = Counter(count: nat, expiresAt: Instant)

  class RateStore {
    var entry: Option<Entry<Counter>>

    constructor ()
      ensures entry == None
    {
      entry := None;
    }

    /** Counts one more call; the window's end stays where the first call put it. */
    method Increment(ttlSeconds: int, now: Instant) returns (count: nat, windowRemainingSeconds: int)
      requires ttlSeconds == SEND_WINDOW_SECONDS
      modifies this
      ensures entry == Counted(old(entry), now)
      ensures entry.Some? && count == entry.value.value.count
      ensures windowRemainingSeconds == CeilSeconds(entry.value.until - now)
    {
      if !Alive(entry, now) {
        entry := Some(Entry(Counter(1, now + ttlSeconds * SECOND), now + ttlSeconds * SECOND));
        return 1, ttlSeconds;
      }
      var existing := entry.value.value;
      var remainingMs := Max(1, existing.expiresAt - now);
      entry := Some(Entry(Counter(existing.count + 1, existing.expiresAt), now + remainingMs));
      return existing.count + 1, Max(1, CeilSeconds(remainingMs));
    }
  }

  function Counted(e: Option<Entry<Counter>>, now: Instant): (after: Option<Entry<Counter>>)
    ensures after.Some?
  {
    if !Alive(e, now) then Some(Entry(Counter(1, now + SEND_WINDOW), now + SEND_WINDOW))
    else
      var c := e.value.value;
      Some(Entry(Counter(c.count + 1, c.expiresAt), now + Max(1, c.expiresAt - now)))
  }

  /**
   * One more send, written out: past the entry's last millisecond a window of ten minutes opens with
   * a count of one; before, the count grows and the window's end stays, stored at least a millisecond.
   */
  lemma SendAnswer(e: Option<Entry<Counter>>, now: Instant)
    ensures Counted(e, now)
         == if e.None? || now > e.value.until then Some(Entry(Counter(1, now + 600_000), now + 600_000))
            else Some(Entry(Counter(e.value.value.count + 1, e.value.value.expiresAt),
                            if e.value.value.expiresAt > now then e.value.value.expiresAt else now + 1))
  {
  }

  function CounterAfter(times: seq<Instant>): Option<Entry<Counter>> {
    if times == [] then None else Counted(CounterAfter(times[..|times| - 1]), times[|times| - 1])
  }

  ghost predicate NotBack(times: seq<Instant>) {
    forall i, j :: 0 <= i < j < |times| ==> times[i] <= times[j]
  }

  predicate Inside(t: Instant, lo: Instant) {
    lo <= t < lo + SEND_WINDOW
  }

  /** Codes sent at an instant inside `[lo, lo + window)`. */
  function SentIn(times: seq<Instant>, lo: Instant): nat {
    if times == [] then 0
    else
      var n := |times| - 1;
      SentIn(times[..n], lo)
      + if Inside(times[n], lo) && CounterAfter(times).value.value.count <= SEND_MAX then 1 else 0
  }

  /** What the counter knows: it never outlives nor undercuts its window's end while that is ahead. */
  lemma {:induction false} CounterShape(times: seq<Instant>)
    requires times != [] && NotBack(times)
    ensures var e, now := CounterAfter(times).value, times[|times| - 1];
            && e.until >= e.value.expiresAt && e.value.count >= 1
            && e.value.expiresAt - SEND_WINDOW <= now <= e.until
  {
    if |times| > 1 {
      CounterShape(times[..|times| - 1]);
    }
  }

  lemma {:induction false} NoneSentBefore(times: seq<Instant>, lo: Instant)
    requires NotBack(times) && (times != [] ==> times[|times| - 1] < lo)
    ensures SentIn(times, lo) == 0
  {
    if times != [] {
      NoneSentBefore(times[..|times| - 1], lo);
    }
  }

  /** How many codes fell inside, by where the current window starts. */
  lemma {:induction false} SentByWindow(times: seq<Instant>, lo: Instant)
    requires times != [] && NotBack(times)
    ensures var c := CounterAfter(times).value.value;
            var start := c.expiresAt - SEND_WINDOW;
            SentIn(times, lo) <= if start < lo then Min(c.count, SEND_MAX)
                                 else if start < lo + SEND_WINDOW then SEND_MAX + Min(c.count, SEND_MAX)
                                 else 2 * SEND_MAX
  {
    var n := |times| - 1;
    CounterShape(times);
    if n > 0 {
      SentByWindow(times[..n], lo);
      CounterShape(times[..n]);
      if times[n] < lo {
        NoneSentBefore(times, lo);
      }
    }
  }

  /** However the calls are paced, at most ten codes go out in any 600 seconds. */
  lemma AtMostTenCodes(times: seq<Instant>, lo: Instant)
    requires NotBack(times)
    ensures SentIn(times, lo) <= 2 * SEND_MAX
  {
    if times != [] {
      SentByWindow(times, lo);
    }
  }

  /** The window's end never moves while it lasts; the next one ends at least a whole window later. */
  lemma WindowNeverMoves(times: seq<Instant>)
    requires |times| > 1 && NotBack(times)
    ensures var a, b := CounterAfter(times[..|times| - 1]).value.value, CounterAfter(times).value.value;
            || (b.expiresAt == a.expiresAt && b.count == a.count + 1)
            || (b.expiresAt > a.expiresAt + SEND_WINDOW && b.count == 1)
  {
    CounterShape(times[..|times| - 1]);
  }

  /** The codes sent in the window with the given end: its calls up to the fifth. */
  function SentInWindow(times: seq<Instant>, end: Instant): nat {
    if times == [] then 0
    else
      var c := CounterAfter(times).value.value;
      SentInWindow(times[..|times| - 1], end) + if c.expiresAt == end && c.count <= SEND_MAX then 1 else 0
  }

  /** The window still open has sent what its counter says, up to five; a later one has sent nothing. */
  lemma {:induction false} SentByNow(times: seq<Instant>, end: Instant)
    requires NotBack(times)
    ensures SentInWindow(times, end) <= SEND_MAX
    ensures times != [] ==>
              var c := CounterAfter(times).value.value;
              && (c.expiresAt == end ==> SentInWindow(times, end) == Min(c.count, SEND_MAX))
              && (c.expiresAt < end ==> SentInWindow(times, end) == 0)
  {
    if times != [] {
      SentByNow(times[..|times| - 1], end);
      if |times| > 1 {
        WindowNeverMoves(times);
      }
    }
  }

  /** No window sends more than five codes: exactly one per request up to the fifth. */
  lemma AtMostFivePerWindow(times: seq<Instant>, end: Instant)
    requires NotBack(times)
    ensures SentInWindow(times, end) <= SEND_MAX
    ensures times != [] && CounterAfter(times).value.value.expiresAt == end ==>
              SentInWindow(times, end) == Min(CounterAfter(times).value.value.count, SEND_MAX)
  {
    SentByNow(times, end);
  }

  /**
   * Waiting the reported seconds reaches a fresh window unless the remainder was a whole number of
   * seconds: the cache serves the entry's last millisecond, so the wait must be longer by one.
   */
  lemma WaitReachesFreshIff(times: seq<Instant>)
    requires times != [] && NotBack(times)
    ensures var e, now := CounterAfter(times), times[|times| - 1];
            var remaining := e.value.until - now;
            var later := now + CeilSeconds(remaining) * SECOND;
            && (Counted(e, later).value.value.count == 1 <==> remaining % SECOND != 0)
            && Counted(e, later + 1).value.value.count == 1
  {
    CounterShape(times);
    var e, now := CounterAfter(times), times[|times| - 1];
    var remaining := e.value.until - now;
    CeilExactIff(remaining);
    UntilAhead(times);
  }

  lemma UntilAhead(times: seq<Instant>)
    requires times != []
    ensures CounterAfter(times).value.until > times[|times| - 1]
  {
  }

  lemma CeilExactIff(ms: int)
    requires ms > 0
    ensures CeilSeconds(ms) * SECOND == ms <==> ms % SECOND == 0
  {
    assert ms == ms / SECOND * SECOND + ms % SECOND;
  }

  /** For one: after a first request, waiting exactly the reported 600 seconds still finds the old window. */
  lemma FirstWaitIsShort()
    ensures Counted(CounterAfter([0]), SEND_WINDOW_SECONDS * SECOND).value.value.count == 2
  {
    assert CounterAfter([0]) == Counted(CounterAfter([]), 0);
  }
}
