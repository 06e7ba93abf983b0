// Owner corrections of a past or current day: one override row per date, one audit row per
// correction or removal.

module Corrections {
  import opened Basics
  import opened Tables
  import opened CheckInOut

  const EMPTY_SHOWN := Shown(None, None, None)

  function TextOf(env: Env, at: Option<Instant>): Option<int> {
    if at.Some? then Some(env.text(at.value)) else None
  }

  function ShownOf(env: Env, o: Override): Shown {
    Shown(o.status, TextOf(env, o.checkinAt), TextOf(env, o.checkoutAt))
  }

  function ActiveOverride(db: Db, d: Date): Option<Override> {
    if d in db.overrides && !db.overrides[d].deleted then Some(db.overrides[d]) else None
  }

  /** The day's value before a correction: the override, else the graded record, else empty. */
  function OldValue(env: Env, db: Db, d: Date, grade: DayGrade): Shown {
    var o := ActiveOverride(db, d);
    var r := FindRecord(db.records, d);
    if o.Some? then ShownOf(env, o.value)
    else if r.Some? then
      var row := db.records[r.value];
      Shown(Some(grade), Some(env.text(row.checkinAt)),
            if row.checkout.Some? then Some(env.text(row.checkout.value.at)) else None)
    else EMPTY_SHOWN
  }

  /** Instants fall on the work date (check-out may fall on the next), not in the future, in order. */
  predicate InstantsOk(env: Env, now: Instant, p: PutCall) {
    && (p.checkinAt.Some? ==> env.today(p.checkinAt.value) == p.workDate && p.checkinAt.value <= now)
    && (p.checkoutAt.Some? ==>
          && (env.today(p.checkoutAt.value) == p.workDate || env.today(p.checkoutAt.value) == p.workDate + 1)
          && p.checkoutAt.value <= now)
    && (p.checkinAt.Some? && p.checkoutAt.Some? ==> p.checkoutAt.value > p.checkinAt.value)
  }

  function PutRefusal(env: Env, now: Instant, p: PutCall): Option<Refusal> {
    var hasTimes := p.checkinAt.Some? || p.checkoutAt.Some?;
    if !p.employeeExists then Some(EmployeeNotFound)
    else if !p.noteOk then Some(NoteInvalid)
    else if p.workDate > env.today(now) then Some(FutureDate)
    else if !p.tracked then Some(DateNotTracked)
    else if p.status.Some? == hasTimes then Some(ValueInvalid)
    else if p.status.None? && p.checkinAt.None? then Some(ValueInvalid)
    else if p.status.None? && !InstantsOk(env, now, p) then Some(InstantInvalid)
    else None
  }

  function PutStep(env: Env, db: Db, now: Instant, p: PutCall): Result {
    if PutRefusal(env, now, p).Some? then Result(db, Refused(PutRefusal(env, now, p).value))
    else
      var row := Override(p.status, p.checkinAt, p.checkoutAt, false);
      var entry := Correction(p.workDate, p.actor, OldValue(env, db, p.workDate, p.grade), ShownOf(env, row));
      Result(db.(overrides := db.overrides[p.workDate := row], corrections := db.corrections + [entry]),
             Corrected(ShownOf(env, row)))
  }

  function RemoveStep(env: Env, db: Db, now: Instant, d: Date, actor: UserId, employeeExists: bool,
                      tracked: bool): Result {
    var o := ActiveOverride(db, d);
    if !employeeExists then Result(db, Refused(EmployeeNotFound))
    else if !tracked then Result(db, Refused(DateNotTracked))
    else if o.None? || d > env.today(now) then Result(db, Removed(false))
    else
      var entry := Correction(d, actor, ShownOf(env, o.value), EMPTY_SHOWN);
      Result(db.(overrides := db.overrides[d := o.value.(deleted := true)], corrections := db.corrections + [entry]),
             Removed(true))
  }

  /** The last audit entry of a date. */
  function LastCorrection(log: seq<Correction>, d: Date): Option<Correction> {
    if log == [] then None
    else if log[|log| - 1].workDate == d then Some(log[|log| - 1])
    else LastCorrection(log[..|log| - 1], d)
  }
}
