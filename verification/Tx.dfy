// One open transaction on one employee's rows: the SQL statements the services run, each a
// method on the tables it writes.

module Transaction {
  import opened Basics
  import opened Periods
  import opened Tables
  import opened LeaveWriter
  import opened CheckInOut

  class Tx {
    var attempts: seq<Attempt>
    var records: seq<Record>
    var requests: seq<Request>
    var days: map<DayKey, DayState>
    var events: seq<Event>
    var notices: set<NoticeKey>
    var enrolments: seq<Period<()>>
    var assignments: seq<Period<OfficeId>>
    var nextId: nat
    var overrides: map<Date, Override>
    var corrections: seq<Correction>

    /** Everything a read in this transaction can see. */
    function View(): Db
      reads this
    {
      Db(attempts, records, requests, days, events, notices, enrolments, assignments, nextId, overrides, corrections)
    }

    constructor ()
      ensures View() == EMPTY
    {
      attempts, records, requests, days, events := [], [], [], map[], [];
      notices, enrolments, assignments, nextId := {}, [], [], 0;
      overrides, corrections := map[], [];
    }

    /** A thrown error undoes every statement of the transaction. */
    method Rollback(to: Db)
      modifies this
      ensures View() == to
    {
      attempts, records, requests, days, events := to.attempts, to.records, to.requests, to.days, to.events;
      notices, enrolments, assignments, nextId := to.notices, to.enrolments, to.assignments, to.nextId;
      overrides, corrections := to.overrides, to.corrections;
    }

    // ---------------------------------------------------------- check-in/out

    /** A key already in the tenant violates its unique index; that error is caught and no id returned. */
    method InsertAttempt(a: Attempt, taken: bool) returns (id: Option<nat>)
      modifies this`attempts
      ensures id.None? <==> taken || exists b :: b in old(attempts) && b.key == a.key
      ensures id.Some? ==> id.value == |old(attempts)| && attempts == old(attempts) + [a]
      ensures id.None? ==> attempts == old(attempts)
    {
      if taken || FindKey(attempts, a.key).Some? {
        return None;
      }
      id := Some(|attempts|);
      attempts := attempts + [a];
    }

    /** A notification whose dedupe key exists is not inserted again. */
    method InsertNotification(n: NoticeKey)
      modifies this`notices
      ensures notices == old(notices) + {n}
    {
      notices := notices + {n};
    }

    method InsertRecord(r: Record)
      modifies this`records
      ensures records == old(records) + [r]
    {
      records := records + [r];
    }

    /** The guarded update: it changes a row only while its check-out is unset. */
    method UpdateRecordCheckout(record: nat, mark: CheckoutMark) returns (ok: bool)
      requires record < |records|
      modifies this`records
      ensures ok <==> old(records[record].checkout.None?)
      ensures records == if ok then old(records[record := records[record].(checkout := Some(mark))]) else old(records)
    {
      ok := records[record].checkout.None?;
      if ok {
        records := records[record := records[record].(checkout := Some(mark))];
      }
    }

    // ----------------------------------------------------------------- leave

    /** A key another request holds inserts nothing. */
    method InsertLeaveRequest(r: Request, elsewhere: bool) returns (id: Option<nat>)
      modifies this`requests
      ensures id.None? <==> elsewhere || exists q :: q in old(requests) && q.key == r.key
      ensures id.Some? ==> id.value == |old(requests)| && requests == old(requests) + [r]
      ensures id.None? ==> requests == old(requests)
    {
      if elsewhere || exists q :: q in requests && q.key == r.key {
        return None;
      }
      id := Some(|requests|);
      requests := requests + [r];
    }

    /** The bulk insert of day rows, refused by the partial unique index on active days. */
    method InsertDays(req: nat, dates: seq<Date>, state: DayState) returns (ok: bool)
      modifies this`days
      ensures ok <==> !exists k :: k in old(days) && k.date in dates && Active(old(days)[k])
      ensures days == if ok then old(days) + DayRows(req, SetOf(dates), state) else old(days)
    {
      ok := !exists k :: k in days && k.date in dates && Active(days[k]);
      if ok {
        days := days + DayRows(req, SetOf(dates), state);
      }
    }

    /** The guarded update of day states; returns how many rows it moved. */
    method UpdateDays(req: nat, dates: seq<Date>, from: set<DayState>, to: DayState) returns (count: nat)
      modifies this`days
      ensures count == |Matching(old(View()), req, SetOf(dates), from)|
      ensures days == map k | k in old(days) ::
                        if k.req == req && k.date in dates && old(days)[k] in from then to else old(days)[k]
    {
      count := |Matching(View(), req, SetOf(dates), from)|;
      days := map k | k in days :: if k.req == req && k.date in dates && days[k] in from then to else days[k];
    }

    method InsertEvent(e: Event)
      modifies this`events
      ensures events == old(events) + [e]
    {
      events := events + [e];
    }

    // ------------------------------------------------------------- enrolment

    method InsertEnrolment(start: Date)
      modifies this`enrolments, this`nextId
      ensures enrolments == old(enrolments) + [Period(old(nextId), start, None, ())] && nextId == old(nextId) + 1
    {
      enrolments := enrolments + [Period(nextId, start, None, ())];
      nextId := nextId + 1;
    }

    method InsertAssignment(start: Date, office: OfficeId)
      modifies this`assignments, this`nextId
      ensures assignments == old(assignments) + [Period(old(nextId), start, None, office)] && nextId == old(nextId) + 1
    {
      assignments := assignments + [Period(nextId, start, None, office)];
      nextId := nextId + 1;
    }

    // ----------------------------------------------------------- corrections

    method UpsertOverride(d: Date, o: Override)
      modifies this`overrides
      ensures overrides == old(overrides)[d := o]
    {
      overrides := overrides[d := o];
    }

    /** Returns the number of rows that were active and are deleted now. */
    method SoftDeleteOverride(d: Date) returns (count: nat)
      modifies this`overrides
      ensures count == if d in old(overrides) && !old(overrides)[d].deleted then 1 else 0
      ensures overrides == if count == 0 then old(overrides)
                           else old(overrides)[d := old(overrides)[d].(deleted := true)]
    {
      count := 0;
      if d in overrides && !overrides[d].deleted {
        overrides := overrides[d := overrides[d].(deleted := true)];
        count := 1;
      }
    }

    method InsertCorrection(c: Correction)
      modifies this`corrections
      ensures corrections == old(corrections) + [c]
    {
      corrections := corrections + [c];
    }
  }
}
