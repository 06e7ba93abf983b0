// Which answer a correction or a removal gets, and what it leaves, said on the rows of the tables.

module CorrectionAnswers {
  import opened Basics
  import opened Tables
  import opened CheckInOut
  import opened Corrections
  import opened PunchAnswers

  // ------------------------------------------------------------------ the gates

  /** On the work date, the check-out possibly on the next; not in the future; in order. */
  ghost predicate InstantsFit(env: Env, now: Instant, p: PutCall) {
    && (forall t :: p.checkinAt == Some(t) ==> env.today(t) == p.workDate && t <= now)
    && (forall t :: p.checkoutAt == Some(t) ==> env.today(t) in {p.workDate, p.workDate + 1} && t <= now)
    && (forall t, u :: p.checkinAt == Some(t) && p.checkoutAt == Some(u) ==> t < u)
  }

  /** A status alone, or instants with a check-in. */
  predicate OneValue(p: PutCall) {
    (p.status.Some? && p.checkinAt.None? && p.checkoutAt.None?) || (p.status.None? && p.checkinAt.Some?)
  }

  /** Past the employee, the note, the date and its tracking. */
  ghost predicate Open(env: Env, now: Instant, p: PutCall) {
    p.employeeExists && p.noteOk && p.workDate <= env.today(now) && p.tracked
  }

  ghost predicate Accepted(env: Env, now: Instant, p: PutCall) {
    Open(env, now, p) && OneValue(p) && (p.status.None? ==> InstantsFit(env, now, p))
  }

  /** Which refusal a correction gets, in reporting order; a refused one writes nothing. */
  lemma PutRefusedIff(env: Env, db: Db, now: Instant, p: PutCall, why: Refusal)
    ensures PutStep(env, db, now, p) == Result(db, Refused(why)) <==>
              match why
              case EmployeeNotFound => !p.employeeExists
              case NoteInvalid => p.employeeExists && !p.noteOk
              case FutureDate => p.employeeExists && p.noteOk && p.workDate > env.today(now)
              case DateNotTracked => p.employeeExists && p.noteOk && p.workDate <= env.today(now) && !p.tracked
              case ValueInvalid => Open(env, now, p) && !OneValue(p)
              case InstantInvalid => Open(env, now, p) && OneValue(p) && p.status.None? && !InstantsFit(env, now, p)
              case _ => false
    ensures PutStep(env, db, now, p).reply.Refused? <==> !Accepted(env, now, p)
    ensures !Accepted(env, now, p) ==> PutStep(env, db, now, p).db == db
  {
    InstantsIff(env, now, p);
    hide InstantsOk, InstantsFit, OldValue;
  }

  lemma InstantsIff(env: Env, now: Instant, p: PutCall)
    ensures InstantsOk(env, now, p) <==> InstantsFit(env, now, p)
  {
    if InstantsFit(env, now, p) {
      assert p.checkinAt.Some? ==> p.checkinAt == Some(p.checkinAt.value);
      assert p.checkoutAt.Some? ==> p.checkoutAt == Some(p.checkoutAt.value);
    }
  }

  // -------------------------------------------------------------------- values

  predicate ActiveOn(db: Db, d: Date) {
    d in db.overrides && !db.overrides[d].deleted
  }

  /** An instant is shown as its text; nothing as nothing. */
  predicate ShowsInstant(env: Env, shown: Option<int>, at: Option<Instant>) {
    match at
    case None => shown == None
    case Some(t) => shown == Some(env.text(t))
  }

  /** A row's status and its two instants. */
  predicate Shows(env: Env, shown: Shown, o: Override) {
    && shown.status == o.status && ShowsInstant(env, shown.checkin, o.checkinAt)
    && ShowsInstant(env, shown.checkout, o.checkoutAt)
  }

  /** The active override's value, else the record's grade and its two instants, else nothing. */
  ghost predicate ValueBefore(env: Env, db: Db, d: Date, grade: DayGrade, shown: Shown) {
    if ActiveOn(db, d) then Shows(env, shown, db.overrides[d])
    else if RecordedOn(db, d) then forall i: nat :: FirstOn(db, d, i) ==>
      && shown.status == Some(grade) && shown.checkin == Some(env.text(db.records[i].checkinAt))
      && ShowsInstant(env, shown.checkout,
                      if db.records[i].checkout.Some? then Some(db.records[i].checkout.value.at) else None)
    else shown == Shown(None, None, None)
  }

  lemma OldValueIs(env: Env, db: Db, d: Date, grade: DayGrade)
    ensures ValueBefore(env, db, d, grade, OldValue(env, db, d, grade))
  {
    RecordIff(db, d);
    hide FindRecord, RecordedOn, FirstOn, ClosedOn;
  }

  /** Exactly one entry more in the log. */
  ghost predicate Appends(before: seq<Correction>, after: seq<Correction>, d: Date, actor: UserId) {
    && |after| == |before| + 1 && after[..|before|] == before
    && after[|before|].workDate == d && after[|before|].actor == actor
  }

  /**
   * An accepted correction is the date's active override, every other override stays, and one entry
   * by its actor goes from the value before to the value it is answered with.
   */
  lemma PutAnswer(env: Env, db: Db, now: Instant, p: PutCall)
    requires Accepted(env, now, p)
    ensures var r := PutStep(env, db, now, p);
            && r.db == db.(overrides := r.db.overrides, corrections := r.db.corrections)
            && r.db.overrides.Keys == db.overrides.Keys + {p.workDate}
            && r.db.overrides[p.workDate] == Override(p.status, p.checkinAt, p.checkoutAt, false)
            && (forall e :: e in db.overrides && e != p.workDate ==> r.db.overrides[e] == db.overrides[e])
            && Appends(db.corrections, r.db.corrections, p.workDate, p.actor)
            && (var c := r.db.corrections[|db.corrections|];
                && ValueBefore(env, db, p.workDate, p.grade, c.oldValue)
                && Shows(env, c.newValue, Override(p.status, p.checkinAt, p.checkoutAt, false))
                && r.reply == Corrected(c.newValue))
  {
    PutRefusedIff(env, db, now, p, EmployeeNotFound);
    OldValueIs(env, db, p.workDate, p.grade);
    hide OldValue, ValueBefore, PutRefusal;
  }

  /** A removal is refused for an unknown employee, or an untracked date, and then writes nothing. */
  lemma RemoveRefusedIff(env: Env, db: Db, now: Instant, d: Date, actor: UserId, exists_: bool, tracked: bool,
                         why: Refusal)
    ensures RemoveStep(env, db, now, d, actor, exists_, tracked) == Result(db, Refused(why)) <==>
              (why == EmployeeNotFound && !exists_) || (why == DateNotTracked && exists_ && !tracked)
  {
  }

  /**
   * A removal past those removes exactly an active override of a date that has come: the row stays
   * with its values and is marked deleted, every other override stays, and one entry goes from its
   * value to nothing. Otherwise it answers false and writes nothing.
   */
  lemma RemoveAnswer(env: Env, db: Db, now: Instant, d: Date, actor: UserId)
    ensures var r := RemoveStep(env, db, now, d, actor, true, true);
            if ActiveOn(db, d) && d <= env.today(now) then
              && r.reply == Removed(true)
              && r.db == db.(overrides := r.db.overrides, corrections := r.db.corrections)
              && r.db.overrides.Keys == db.overrides.Keys
              && r.db.overrides[d] == Override(db.overrides[d].status, db.overrides[d].checkinAt,
                                               db.overrides[d].checkoutAt, true)
              && (forall e :: e in db.overrides && e != d ==> r.db.overrides[e] == db.overrides[e])
              && Appends(db.corrections, r.db.corrections, d, actor)
              && Shows(env, r.db.corrections[|db.corrections|].oldValue, db.overrides[d])
              && r.db.corrections[|db.corrections|].newValue == Shown(None, None, None)
            else r == Result(db, Removed(false))
  {
  }
}
