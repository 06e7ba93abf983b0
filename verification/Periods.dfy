// Effective-dated rows: half-open date ranges `[start, end)`, `end == None` meaning
// unbounded, and the AD-8 change (delete the future, clip the covering row, insert).

module Periods {
  import opened Basics

  /** One row of an effective-dated table; `load` is what the row says (an office, or nothing). */
  datatype Period<+T> = Period(id: nat, start: Date, end: Option<Date>, load: T)

  predicate Contains<T>(p: Period<T>, d: Date) {
    p.start <= d && (p.end.None? || d < p.end.value)
  }

  predicate NonEmpty<T>(p: Period<T>) {
    p.end.Some? ==> p.start < p.end.value
  }

  predicate Apart<T>(p: Period<T>, q: Period<T>) {
    || (p.end.Some? && p.end.value <= q.start)
    || (q.end.Some? && q.end.value <= p.start)
  }

  /** The rows have distinct ids and are non-empty and pairwise disjoint. */
  predicate Tidy<T(==)>(rows: seq<Period<T>>) {
    rows == [] ||
    (&& NonEmpty(rows[0])
     && (forall q :: q in rows[1..] ==> q.id != rows[0].id && Apart(rows[0], q))
     && Tidy(rows[1..]))
  }

  /** What the table says about one date: the load of the row that contains it. */
  function At<T>(rows: seq<Period<T>>, d: Date): Option<T> {
    if rows == [] then None
    else if Contains(rows[0], d) then Some(rows[0].load)
    else At(rows[1..], d)
  }

  ghost predicate IdsBelow<T>(rows: seq<Period<T>>, bound: nat) {
    forall p :: p in rows ==> p.id < bound
  }

  // ---------------------------------------------------------------- the plan

  datatype Plan = Plan(deleteIds: seq<nat>, clipId: Option<nat>, clipEnd: Option<Date>, insertStart: Option<Date>)

  /** Ids of the rows that start on or after `from`, in row order. */
  function IdsStartingFrom<T>(rows: seq<Period<T>>, from: Date): seq<nat> {
    if rows == [] then []
    else (if rows[0].start >= from then [rows[0].id] else []) + IdsStartingFrom(rows[1..], from)
  }

  /** The first row that survives the delete and still covers `from`. */
  function FindCovering<T>(rows: seq<Period<T>>, deleteIds: seq<nat>, from: Date): Option<Period<T>> {
    if rows == [] then None
    else if rows[0].id !in deleteIds && rows[0].start < from && (rows[0].end.None? || rows[0].end.value > from)
    then Some(rows[0])
    else FindCovering(rows[1..], deleteIds, from)
  }

  function PlanAd8Change<T>(rows: seq<Period<T>>, from: Date, insert: bool): Plan {
    var deleteIds := IdsStartingFrom(rows, from);
    var covering := FindCovering(rows, deleteIds, from);
    Plan(deleteIds,
         if covering.Some? then Some(covering.value.id) else None,
         if covering.Some? then Some(from) else None,
         if insert then Some(from) else None)
  }

  // ------------------------------------------------- the three SQL statements

  function DeleteRanges<T>(rows: seq<Period<T>>, ids: seq<nat>): seq<Period<T>> {
    if rows == [] then []
    else (if rows[0].id in ids then [] else [rows[0]]) + DeleteRanges(rows[1..], ids)
  }

  function ClipRangeEnd<T>(rows: seq<Period<T>>, id: nat, end: Date): seq<Period<T>> {
    if rows == [] then []
    else [if rows[0].id == id then rows[0].(end := Some(end)) else rows[0]] + ClipRangeEnd(rows[1..], id, end)
  }

  function Cut<T>(rows: seq<Period<T>>, plan: Plan): seq<Period<T>> {
    var kept := DeleteRanges(rows, plan.deleteIds);
    if plan.clipId.Some? && plan.clipEnd.Some? then ClipRangeEnd(kept, plan.clipId.value, plan.clipEnd.value) else kept
  }

  function ApplyPlan<T>(rows: seq<Period<T>>, plan: Plan, newId: nat, load: T): seq<Period<T>> {
    Cut(rows, plan) + if plan.insertStart.Some? then [Period(newId, plan.insertStart.value, None, load)] else []
  }

  /** The whole AD-8 change on one table. */
  function Change<T>(rows: seq<Period<T>>, from: Date, insert: bool, newId: nat, load: T): seq<Period<T>> {
    ApplyPlan(rows, PlanAd8Change(rows, from, insert), newId, load)
  }

  // ------------------------------------------------------------ its meaning

  /** The history a change keeps: every row's part before `from`. */
  function Before<T>(rows: seq<Period<T>>, from: Date): seq<Period<T>> {
    if rows == [] then []
    else (if rows[0].start < from then [Trim(rows[0], from)] else []) + Before(rows[1..], from)
  }

  function Trim<T>(p: Period<T>, from: Date): Period<T> {
    if Contains(p, from) then p.(end := Some(from)) else p
  }

  lemma {:induction false} AtRow<T>(rows: seq<Period<T>>, p: Period<T>, d: Date)
    requires Tidy(rows) && p in rows && Contains(p, d)
    ensures At(rows, d) == Some(p.load)
  {
    if p != rows[0] {
      AtRow(rows[1..], p, d);
      assert Apart(rows[0], p);
    }
  }

  lemma {:induction false} AtWitness<T>(rows: seq<Period<T>>, d: Date) returns (p: Period<T>)
    requires At(rows, d).Some?
    ensures p in rows && Contains(p, d) && p.load == At(rows, d).value
  {
    if Contains(rows[0], d) {
      p := rows[0];
    } else {
      p := AtWitness(rows[1..], d);
    }
  }

  lemma {:induction false} TidyPair<T>(rows: seq<Period<T>>, p: Period<T>, q: Period<T>)
    requires Tidy(rows) && p in rows && q in rows && p != q
    ensures p.id != q.id && Apart(p, q)
  {
    if p != rows[0] && q != rows[0] {
      TidyPair(rows[1..], p, q);
    }
  }

  lemma {:induction false} TidyRow<T>(rows: seq<Period<T>>, p: Period<T>)
    requires Tidy(rows) && p in rows
    ensures NonEmpty(p)
  {
    if p != rows[0] {
      TidyRow(rows[1..], p);
    }
  }

  // The plan deletes exactly the rows that start on or after `from`.

  lemma {:induction false} IdsAreStarters<T>(rows: seq<Period<T>>, from: Date, id: nat)
    requires id in IdsStartingFrom(rows, from)
    ensures exists p :: p in rows && p.id == id && p.start >= from
  {
    if rows[0].start >= from && rows[0].id == id {
      assert rows[0] in rows;
    } else {
      IdsAreStarters(rows[1..], from, id);
      var p :| p in rows[1..] && p.id == id && p.start >= from;
      assert p in rows;
    }
  }

  lemma {:induction false} StartersAreListed<T>(rows: seq<Period<T>>, from: Date, p: Period<T>)
    requires p in rows && p.start >= from
    ensures p.id in IdsStartingFrom(rows, from)
  {
    if p != rows[0] {
      StartersAreListed(rows[1..], from, p);
    }
  }

  lemma DeletedIffStartsLater<T>(rows: seq<Period<T>>, from: Date, p: Period<T>)
    requires Tidy(rows) && p in rows
    ensures p.id in IdsStartingFrom(rows, from) <==> p.start >= from
  {
    if p.start >= from {
      StartersAreListed(rows, from, p);
    } else if p.id in IdsStartingFrom(rows, from) {
      IdsAreStarters(rows, from, p.id);
      var q :| q in rows && q.id == p.id && q.start >= from;
      TidyPair(rows, p, q);
    }
  }

  lemma {:induction false} FoundCovers<T>(rows: seq<Period<T>>, ids: seq<nat>, from: Date)
    ensures var c := FindCovering(rows, ids, from);
            && (c.Some? ==> c.value in rows && c.value.start < from && Contains(c.value, from))
            && (c.None? ==> forall p :: p in rows && p.id !in ids && p.start < from ==> !Contains(p, from))
  {
    if rows != [] {
      FoundCovers(rows[1..], ids, from);
    }
  }

  /** Deleting and clipping a suffix by the whole table's plan is taking the part before `from`. */
  lemma {:induction false} CutIsBefore<T>(all: seq<Period<T>>, rows: seq<Period<T>>, from: Date, insert: bool)
    requires Tidy(all) && forall p :: p in rows ==> p in all
    ensures Cut(rows, PlanAd8Change(all, from, insert)) == Before(rows, from)
  {
    if rows != [] {
      var plan := PlanAd8Change(all, from, insert);
      var p, rest := rows[0], DeleteRanges(rows[1..], plan.deleteIds);
      FoundCovers(all, plan.deleteIds, from);
      assert p in rows;
      DeletedIffStartsLater(all, from, p);
      CutIsBefore(all, rows[1..], from, insert);
      if p.start < from {
        var c := FindCovering(all, plan.deleteIds, from);
        if c.Some? && p != c.value {
          TidyPair(all, p, c.value);
        }
        assert DeleteRanges(rows, plan.deleteIds) == [p] + rest;
        assert ([p] + rest)[1..] == rest;
      } else {
        assert DeleteRanges(rows, plan.deleteIds) == rest;
      }
    }
  }

  /** The change in closed form: the part before `from`, then the new open-ended row. */
  lemma ChangeIsBefore<T>(rows: seq<Period<T>>, from: Date, insert: bool, newId: nat, load: T)
    requires Tidy(rows)
    ensures Change(rows, from, insert, newId, load)
         == Before(rows, from) + if insert then [Period(newId, from, None, load)] else []
  {
    CutIsBefore(rows, rows, from, insert);
  }

  lemma {:induction false} BeforeTidy<T>(rows: seq<Period<T>>, from: Date)
    requires Tidy(rows)
    ensures Tidy(Before(rows, from))
    ensures forall q :: q in Before(rows, from) ==>
      exists p :: p in rows && p.start < from && q == Trim(p, from)
  {
    if rows != [] {
      BeforeTidy(rows[1..], from);
      var rest := Before(rows[1..], from);
      forall q | q in rest
        ensures q.id != rows[0].id && Apart(Trim(rows[0], from), q)
      {
        var p :| p in rows[1..] && p.start < from && q == Trim(p, from);
        assert Apart(rows[0], p);
      }
      forall q | q in Before(rows, from)
        ensures exists p :: p in rows && p.start < from && q == Trim(p, from)
      {
        if q in rest {
          var p :| p in rows[1..] && p.start < from && q == Trim(p, from);
          assert p in rows;
        } else {
          assert q == Trim(rows[0], from);
        }
      }
      if rows[0].start < from {
        assert Before(rows, from)[1..] == rest;
      } else {
        assert Before(rows, from) == rest;
      }
    }
  }

  lemma {:induction false} BeforeKeeps<T>(rows: seq<Period<T>>, from: Date, p: Period<T>)
    requires p in rows && p.start < from
    ensures Trim(p, from) in Before(rows, from)
  {
    if p != rows[0] {
      BeforeKeeps(rows[1..], from, p);
    }
  }

  lemma {:induction false} BeforeAt<T>(rows: seq<Period<T>>, from: Date, d: Date)
    ensures At(Before(rows, from), d) == if d < from then At(rows, d) else None
  {
    if rows != [] {
      BeforeAt(rows[1..], from, d);
      if rows[0].start < from {
        assert Before(rows, from)[1..] == Before(rows[1..], from);
      } else {
        assert Before(rows, from) == Before(rows[1..], from);
      }
    }
  }

  lemma {:induction false} AppendTidy<T>(rows: seq<Period<T>>, p: Period<T>)
    requires Tidy(rows) && NonEmpty(p)
    requires forall q :: q in rows ==> q.id != p.id && Apart(q, p)
    ensures Tidy(rows + [p])
  {
    if rows != [] {
      AppendTidy(rows[1..], p);
      assert (rows + [p])[1..] == rows[1..] + [p];
    }
  }

  lemma {:induction false} AtAppend<T>(rows: seq<Period<T>>, p: Period<T>, d: Date)
    ensures At(rows + [p], d) == if At(rows, d).Some? then At(rows, d) else if Contains(p, d) then Some(p.load) else None
  {
    if rows != [] {
      AtAppend(rows[1..], p, d);
      assert (rows + [p])[1..] == rows[1..] + [p];
    } else {
      assert (rows + [p])[1..] == [];
    }
  }

  /**
   * The AD-8 change refines "from this date on, this load (or nothing)": the rows stay tidy,
   * the past reads as before, and from `from` on every date reads the new load, or nothing.
   */
  lemma ChangeRefines<T>(rows: seq<Period<T>>, from: Date, insert: bool, newId: nat, load: T)
    requires Tidy(rows) && IdsBelow(rows, newId)
    ensures var after := Change(rows, from, insert, newId, load);
            && Tidy(after)
            && IdsBelow(after, newId + 1)
            && (forall d :: At(after, d) == if d < from then At(rows, d) else if insert then Some(load) else None)
  {
    ChangeIsBefore(rows, from, insert, newId, load);
    BeforeTidy(rows, from);
    var kept := Before(rows, from);
    forall q | q in kept
      ensures q.id < newId && (q.end.Some? && q.end.value <= from)
    {
      var p :| p in rows && p.start < from && q == Trim(p, from);
    }
    var added := Period(newId, from, None, load);
    if insert {
      AppendTidy(kept, added);
    } else {
      assert kept + [] == kept;
    }
    forall d
      ensures At(Change(rows, from, insert, newId, load), d)
           == if d < from then At(rows, d) else if insert then Some(load) else None
    {
      BeforeAt(rows, from, d);
      AtAppend(kept, added, d);
    }
  }

  /** A row that ended by `from` stays as it is; the row covering `from` is clipped there. */
  lemma ChangeKeepsPast<T>(rows: seq<Period<T>>, from: Date, insert: bool, newId: nat, load: T, p: Period<T>)
    requires Tidy(rows) && p in rows
    ensures p.end.Some? && p.end.value <= from ==> p in Change(rows, from, insert, newId, load)
    ensures p.start < from && Contains(p, from) ==> p.(end := Some(from)) in Change(rows, from, insert, newId, load)
  {
    ChangeIsBefore(rows, from, insert, newId, load);
    TidyRow(rows, p);
    if p.start < from {
      BeforeKeeps(rows, from, p);
    }
  }

  /** Nothing else is left: an old past row, the one clipped row, or the inserted row. */
  lemma ChangeLeavesNoOther<T>(rows: seq<Period<T>>, from: Date, insert: bool, newId: nat, load: T, q: Period<T>)
    requires Tidy(rows) && q in Change(rows, from, insert, newId, load)
    ensures || (q in rows && q.end.Some? && q.end.value <= from)
            || (exists p :: p in rows && p.start < from && Contains(p, from) && q == p.(end := Some(from)))
            || (insert && q == Period(newId, from, None, load))
  {
    ChangeIsBefore(rows, from, insert, newId, load);
    BeforeTidy(rows, from);
    if q in Before(rows, from) {
      var p :| p in rows && p.start < from && q == Trim(p, from);
    }
  }

  /** At most one row is clipped. */
  lemma OneRowCovers<T>(rows: seq<Period<T>>, p: Period<T>, q: Period<T>, d: Date)
    requires Tidy(rows) && p in rows && q in rows && Contains(p, d) && Contains(q, d)
    ensures p == q
  {
    if p != q {
      TidyPair(rows, p, q);
    }
  }
}
