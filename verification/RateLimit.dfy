// The attempts-table rate limit over whole runs.

module RateLimit {
  import opened Basics
  import opened Tables
  import opened CheckInOut
  import opened Machine
  import opened Frames

  /** Counted rejections with `lo <= at < hi`. */
  function CountIn(attempts: seq<Attempt>, lo: Instant, hi: Instant): nat {
    if attempts == [] then 0
    else
      var a := attempts[|attempts| - 1];
      CountIn(attempts[..|attempts| - 1], lo, hi) + if Counted(a.outcome) && lo <= a.at < hi then 1 else 0
  }

  /** Every row was written unblocked if it is counted, and arms a block exactly when it is the fifth. */
  ghost predicate Disciplined(attempts: seq<Attempt>) {
    forall i :: 0 <= i < |attempts| ==>
      && attempts[i].blockedUntil == BlockFor(attempts[..i], attempts[i].at, attempts[i].outcome)
      && (Counted(attempts[i].outcome) ==> !Blocked(attempts[..i], attempts[i].at))
  }

  lemma {:induction false} RunDisciplined(env: Env, run: seq<Tick>)
    ensures Disciplined(Run(env, run).attempts)
  {
    hide Step;
    if run != [] {
      var n := |run| - 1;
      RunDisciplined(env, run[..n]);
      var db := Run(env, run[..n]);
      var after := Run(env, run);
      RunStep(env, run);
      AttemptAppended(env, db, run[n].now, run[n].call);
      if after.attempts != db.attempts {
        forall i | 0 <= i < |db.attempts|
          ensures after.attempts[..i] == db.attempts[..i] && after.attempts[i] == db.attempts[i]
        {
          assert after.attempts[..|db.attempts|][..i] == after.attempts[..i];
        }
      }
    }
  }

  lemma {:induction false} WindowInside(attempts: seq<Attempt>, lo: Instant, at: Instant)
    requires lo <= at < lo + RATE_WINDOW
    ensures CountIn(attempts, lo, lo + RATE_WINDOW) <= WindowCount(attempts, at)
  {
    if attempts != [] {
      WindowInside(attempts[..|attempts| - 1], lo, at);
    }
  }

  /** The last row that counts in a window holding some: everything else counted came before it. */
  lemma {:induction false} LastCounted(attempts: seq<Attempt>, lo: Instant, hi: Instant) returns (k: nat)
    requires CountIn(attempts, lo, hi) > 0
    ensures k < |attempts| && Counted(attempts[k].outcome) && lo <= attempts[k].at < hi
    ensures CountIn(attempts[..k], lo, hi) + 1 == CountIn(attempts, lo, hi)
  {
    var n := |attempts| - 1;
    if Counted(attempts[n].outcome) && lo <= attempts[n].at < hi {
      k := n;
    } else {
      k := LastCounted(attempts[..n], lo, hi);
      assert attempts[..n][..k] == attempts[..k];
    }
  }

  /** If five rows already count in a window, a block armed there covers the rest of it. */
  lemma FifthBlocks(attempts: seq<Attempt>, lo: Instant, at: Instant)
    requires Disciplined(attempts)
    requires CountIn(attempts, lo, lo + RATE_WINDOW) >= RATE_MAX_COUNTED
    requires lo <= at < lo + RATE_WINDOW
    ensures Blocked(attempts, at)
  {
    var k := LastCounted(attempts, lo, lo + RATE_WINDOW);
    WindowInside(attempts[..k], lo, attempts[k].at);
    assert attempts[k].blockedUntil == Some(attempts[k].at + RATE_BLOCK);
  }

  lemma {:induction false} DisciplinedBounds(attempts: seq<Attempt>, lo: Instant)
    requires Disciplined(attempts)
    ensures CountIn(attempts, lo, lo + RATE_WINDOW) <= RATE_MAX_COUNTED
  {
    if attempts != [] {
      var n := |attempts| - 1;
      var rest := attempts[..n];
      forall i | 0 <= i < n
        ensures rest[..i] == attempts[..i]
      {
      }
      DisciplinedBounds(rest, lo);
      if Counted(attempts[n].outcome) && lo <= attempts[n].at < lo + RATE_WINDOW
         && CountIn(rest, lo, lo + RATE_WINDOW) >= RATE_MAX_COUNTED {
        FifthBlocks(rest, lo, attempts[n].at);
      }
    }
  }

  /**
   * In every run - whatever the order of its clock readings - any ten minutes hold at most five
   * counted rejections.
   */
  lemma AtMostFivePerWindow(env: Env, run: seq<Tick>, h: History, n: nat, lo: Instant)
    requires IsHistory(env, run, h) && n <= |run|
    ensures CountIn(h.states[n].attempts, lo, lo + RATE_WINDOW) <= RATE_MAX_COUNTED
  {
    hide Step, Run;
    HistoryIsRun(env, run, h, n);
    RunDisciplined(env, run[..n]);
    DisciplinedBounds(h.states[n].attempts, lo);
  }

  // ------------------------------------------------------- after a block ends

  ghost predicate Ordered(attempts: seq<Attempt>) {
    forall i, j :: 0 <= i < j < |attempts| ==> attempts[i].at <= attempts[j].at
  }

  ghost predicate NotAfter(attempts: seq<Attempt>, now: Instant) {
    forall a :: a in attempts ==> a.at <= now
  }

  lemma {:induction false} RunOrdered(env: Env, run: seq<Tick>, now: Instant)
    requires Monotone(run) && (run != [] ==> run[|run| - 1].now <= now)
    ensures Ordered(Run(env, run).attempts) && NotAfter(Run(env, run).attempts, now)
  {
    hide Step;
    if run != [] {
      var n := |run| - 1;
      RunOrdered(env, run[..n], run[n].now);
      var db := Run(env, run[..n]);
      RunStep(env, run);
      AttemptAppended(env, db, run[n].now, run[n].call);
      var after := Run(env, run).attempts;
      if after != db.attempts {
        assert after == db.attempts + [after[|db.attempts|]];
      }
    }
  }

  lemma {:induction false} NoneRecent(attempts: seq<Attempt>, now: Instant)
    requires forall a :: a in attempts && Counted(a.outcome) ==> a.at <= now - RATE_WINDOW
    ensures WindowCount(attempts, now) == 0
  {
    if attempts != [] {
      assert attempts[|attempts| - 1] in attempts;
      NoneRecent(attempts[..|attempts| - 1], now);
    }
  }

  /** Once a block has ended, a rejection in the window was recorded after its end. */
  lemma WindowStartsAfresh(attempts: seq<Attempt>, i: nat, j: nat, now: Instant)
    requires Disciplined(attempts) && Ordered(attempts)
    requires i < |attempts| && attempts[i].blockedUntil.Some? && attempts[i].blockedUntil.value <= now
    requires j < |attempts| && Counted(attempts[j].outcome) && attempts[j].at > now - RATE_WINDOW
    ensures attempts[j].at >= attempts[i].blockedUntil.value
  {
    if i < j {
      assert attempts[..j][i] == attempts[i];
    }
  }

  /**
   * The moment a block ends the window count is zero: with no attempt since its end, the whole
   * budget of five is back.
   */
  lemma BudgetIsBack(env: Env, run: seq<Tick>, h: History, n: nat, i: nat, now: Instant)
    requires IsHistory(env, run, h) && Monotone(run) && n <= |run|
    requires var attempts := h.states[n].attempts;
             && i < |attempts| && attempts[i].blockedUntil.Some?
             && attempts[i].blockedUntil.value <= now
             && (forall a :: a in attempts ==> a.at < attempts[i].blockedUntil.value)
    ensures WindowCount(h.states[n].attempts, now) == 0
    ensures BlockFor(h.states[n].attempts, now, TooFar).None?
  {
    hide Step, Run;
    var attempts := h.states[n].attempts;
    HistoryIsRun(env, run, h, n);
    RunDisciplined(env, run[..n]);
    RunOrdered(env, run[..n], if n == 0 then now else run[n - 1].now);
    forall a | a in attempts && Counted(a.outcome)
      ensures a.at <= now - RATE_WINDOW
    {
      var j :| 0 <= j < |attempts| && attempts[j] == a;
      if a.at > now - RATE_WINDOW {
        WindowStartsAfresh(attempts, i, j, now);
      }
    }
    NoneRecent(attempts, now);
  }
}
