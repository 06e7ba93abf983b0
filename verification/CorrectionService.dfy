// Putting and removing a correction.

module CorrectionService {
  import opened Basics
  import opened Tables
  import opened CheckInOut
  import opened Corrections
  import opened Transaction

  method Put(tx: Tx, env: Env, now: Instant, p: PutCall) returns (reply: Reply)
    modifies tx
    ensures Result(tx.View(), reply) == PutStep(env, old(tx.View()), now, p)
  {
    if !p.employeeExists {
      return Refused(EmployeeNotFound);
    }
    if !p.noteOk {
      return Refused(NoteInvalid);
    }
    if p.workDate > env.today(now) {
      return Refused(FutureDate);
    }
    if !p.tracked {
      return Refused(DateNotTracked);
    }
    var hasStatus := p.status.Some?;
    var hasTimes := p.checkinAt.Some? || p.checkoutAt.Some?;
    if hasStatus == hasTimes {
      return Refused(ValueInvalid);
    }
    if !hasStatus && p.checkinAt.None? {
      return Refused(ValueInvalid);
    }
    if !hasStatus && !InstantsOk(env, now, p) {
      return Refused(InstantInvalid);
    }
    var row := Override(p.status, p.checkinAt, p.checkoutAt, false);
    var oldValue := OldValue(env, tx.View(), p.workDate, p.grade);
    tx.UpsertOverride(p.workDate, row);
    tx.InsertCorrection(Correction(p.workDate, p.actor, oldValue, ShownOf(env, row)));
    reply := Corrected(ShownOf(env, row));
  }

  method Remove(tx: Tx, env: Env, now: Instant, d: Date, actor: UserId, employeeExists: bool, tracked: bool)
    returns (reply: Reply)
    modifies tx
    ensures Result(tx.View(), reply) == RemoveStep(env, old(tx.View()), now, d, actor, employeeExists, tracked)
  {
    if !employeeExists {
      return Refused(EmployeeNotFound);
    }
    if !tracked {
      return Refused(DateNotTracked);
    }
    var o := ActiveOverride(tx.View(), d);
    if o.None? || d > env.today(now) {
      return Removed(false);
    }
    var count := tx.SoftDeleteOverride(d);
    if count > 0 {
      tx.InsertCorrection(Correction(d, actor, ShownOf(env, o.value), EMPTY_SHOWN));
    }
    reply := Removed(count > 0);
  }
}
