// The check-in/out transaction, step by step, proved against the decision and write functions.

module CheckInOutService {
  import opened Basics
  import opened Periods
  import opened Tables
  import opened LeaveWriter
  import opened CheckInOut
  import opened Transaction
  import opened LeaveTransition

  /** A committed state conflict: recorded, not counted. */
  method RejectCommitted(tx: Tx, env: Env, now: Instant, p: PunchCall, outcome: Outcome) returns (reply: Reply)
    requires !Counted(outcome) && FindKey(tx.attempts, p.key).None?
    modifies tx
    ensures tx.View() == if p.taken then old(tx.View()) else LogAttempt(env, old(tx.View()), now, p, outcome)
    ensures reply == if p.taken then DuplicateKey else Rejection(outcome)
  {
    var id := tx.InsertAttempt(Attempt(p.key, p.kind, outcome, now, None), p.taken);
    if id.None? {
      return DuplicateKey;
    }
    assert tx.notices + {} == tx.notices;
    reply := Rejection(outcome);
  }

  /** From the third mocked attempt of the month on, every admin is alerted; the dedupe key keeps one. */
  method MaybeAlertFakeLocation(tx: Tx, env: Env, now: Instant, admins: seq<UserId>)
    modifies tx
    ensures tx.View() == old(tx.View()).(notices := old(tx.notices) + Alerts(env, old(tx.attempts), now, Mocked, admins))
  {
    var count := MonthlyMocked(env, tx.attempts, now);
    if count < FAKE_LOCATION_ALERT_THRESHOLD {
      assert tx.notices + {} == tx.notices;
      return;
    }
    for i := 0 to |admins|
      invariant tx.View() == old(tx.View()).(notices := tx.notices)
      invariant tx.notices == old(tx.notices) + set u | u in admins[..i] :: FakeLocationAlert(u, env.month(now))
    {
      tx.InsertNotification(FakeLocationAlert(admins[i], env.month(now)));
      assert admins[..i + 1] == admins[..i] + [admins[i]];
    }
    assert admins[..|admins|] == admins;
  }

  /** A ladder rejection: the fifth counted one in the window arms the block on its own row. */
  method RejectWithLadder(tx: Tx, env: Env, now: Instant, p: PunchCall, outcome: Outcome) returns (reply: Reply)
    requires FindKey(tx.attempts, p.key).None?
    modifies tx
    ensures tx.View() == if p.taken then old(tx.View()) else LogAttempt(env, old(tx.View()), now, p, outcome)
    ensures reply == if p.taken then DuplicateKey else Rejection(outcome)
  {
    var blockedUntil := None;
    if Counted(outcome) {
      var counted := WindowCount(tx.attempts, now);
      if counted + 1 >= RATE_MAX_COUNTED {
        blockedUntil := Some(now + RATE_BLOCK);
      }
    }
    var id := tx.InsertAttempt(Attempt(p.key, p.kind, outcome, now, blockedUntil), p.taken);
    if id.None? {
      return DuplicateKey;
    }
    if outcome == Mocked {
      MaybeAlertFakeLocation(tx, env, now, p.admins);
    } else {
      assert tx.notices + {} == tx.notices;
    }
    reply := Rejection(outcome);
  }

  /** The accepted check-in: attempt, record, and the confirmed cancellation of today's leave. */
  method WriteCheckIn(tx: Tx, env: Env, now: Instant, p: PunchCall, office: OfficeId, gate: bool) returns (reply: Reply)
    requires FindKey(tx.attempts, p.key).None? && At(tx.assignments, env.today(now)) == Some(office)
    requires p.kind == CheckIn && gate == LeaveGate(env, tx.View(), env.today(now), CheckIn)
    modifies tx
    ensures p.taken ==> tx.View() == old(tx.View()) && reply == DuplicateKey
    ensures !p.taken ==> Result(tx.View(), reply) == AcceptCheckIn(env, old(tx.View()), now, p)
  {
    hide LeaveGate, FindKey, FindRecord, ActiveLeave, TransitionDays;
    var before, today := tx.View(), env.today(now);
    var id := tx.InsertAttempt(Attempt(p.key, p.kind, Ok, now, None), p.taken);
    if id.None? {
      return DuplicateKey;
    }
    tx.InsertRecord(Record(today, office, now, id.value, None));
    assert tx.View() == CheckInRows(env, before, now, p);
    if gate {
      var leave := ActiveLeave(tx.View(), today);
      var ok := AutoCancelLeaveForCheckIn(tx, env, today, p.admins);
      if leave.None? {
        return Broken(LeaveVanished);
      }
      if !ok {
        tx.Rollback(before);
        return Broken(DayCountMismatch);
      }
    }
    reply := ReadBack(tx, before, today, CheckIn);
  }

  /** The stored row is read back for the answer. */
  method ReadBack(tx: Tx, before: Db, today: Date, kind: Kind) returns (reply: Reply)
    modifies tx
    ensures Result(tx.View(), reply) == Answered(before, old(tx.View()), today, kind)
  {
    var stored := FindRecord(tx.records, today);
    if stored.None? {
      tx.Rollback(before);
      return Broken(ReadBackEmpty);
    }
    reply := RecordReply(tx.records[stored.value], kind);
  }

  method WriteCheckOut(tx: Tx, env: Env, now: Instant, p: PunchCall, record: nat) returns (reply: Reply)
    requires FindKey(tx.attempts, p.key).None? && p.kind == CheckOut
    requires FindRecord(tx.records, env.today(now)) == Some(record)
    modifies tx
    ensures p.taken ==> tx.View() == old(tx.View()) && reply == DuplicateKey
    ensures !p.taken ==> Result(tx.View(), reply) == AcceptCheckOut(env, old(tx.View()), now, p)
  {
    hide FindKey, FindRecord;
    var before := tx.View();
    var id := tx.InsertAttempt(Attempt(p.key, p.kind, Ok, now, None), p.taken);
    if id.None? {
      return DuplicateKey;
    }
    var ok := tx.UpdateRecordCheckout(record, CheckoutMark(now, id.value));
    if !ok {
      tx.Rollback(before);
      return Broken(CheckoutUnguarded);
    }
    reply := ReadBack(tx, before, env.today(now), CheckOut);
  }

  /** The whole call. */
  method Transact(tx: Tx, env: Env, now: Instant, p: PunchCall) returns (reply: Reply)
    modifies tx
    ensures Result(tx.View(), reply) == PunchStep(env, old(tx.View()), now, p)
  {
    hide LeaveGate, LogAttempt, AcceptCheckIn, AcceptCheckOut, ReplayReply, FindKey, Ladder;
    var today := env.today(now);
    var replay := FindKey(tx.attempts, p.key);
    if replay.Some? {
      return ReplayReply(env, tx.View(), now, replay.value, p.kind);
    }
    if Blocked(tx.attempts, now) {
      reply := RejectCommitted(tx, env, now, p, RateLimited);
      return;
    }
    if !Tracked(tx.View(), today, p.settings) {
      reply := RejectCommitted(tx, env, now, p, NotTracked);
      return;
    }
    var record := FindRecord(tx.records, today);
    if p.kind == CheckIn && record.Some? {
      reply := RejectCommitted(tx, env, now, p, AlreadyCheckedIn);
      return;
    }
    if p.kind == CheckOut && record.None? {
      reply := RejectCommitted(tx, env, now, p, NotCheckedIn);
      return;
    }
    if p.kind == CheckOut && tx.records[record.value].checkout.Some? {
      reply := RejectCommitted(tx, env, now, p, AlreadyCheckedOut);
      return;
    }
    var gate := LeaveGate(env, tx.View(), today, p.kind);
    if gate && !p.confirm {
      reply := RejectCommitted(tx, env, now, p, LeaveConfirmationRequired);
      return;
    }
    var office := At(tx.assignments, today);
    if office.None? {
      return Broken(OfficePinMissing);
    }
    var rejection := Judge(p.fix, p.radiusM);
    if rejection != Ok {
      reply := RejectWithLadder(tx, env, now, p, rejection);
      return;
    }
    if p.kind == CheckIn {
      reply := WriteCheckIn(tx, env, now, p, office.value, gate);
    } else {
      reply := WriteCheckOut(tx, env, now, p, record.value);
    }
  }

  /** The ladder: exactly one outcome wins. */
  method Judge(f: Fix, radiusM: real) returns (rejection: Outcome)
    ensures rejection == Ladder(f, radiusM)
    ensures rejection == Ok <==>
              f.fixAgeMs <= FIX_MAX_AGE_MS && f.accuracyM <= CHECKIN_MAX_ACCURACY_M && f.distanceM <= radiusM && !f.mocked
  {
    rejection := Ok;
    if f.fixAgeMs > FIX_MAX_AGE_MS {
      rejection := StaleFix;
    } else if f.accuracyM > CHECKIN_MAX_ACCURACY_M {
      rejection := LowAccuracy;
    } else if f.distanceM > radiusM {
      rejection := TooFar;
    } else if f.mocked {
      rejection := Mocked;
    }
  }
}
