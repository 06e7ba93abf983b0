// The weekly-off views: the selection in force and the next change of it.

module WeeklyOffs {
  import opened Basics
  import opened OffRows

  /** The exclusion constraint and the non-empty check on the table. */
  ghost predicate Disjoint(rows: seq<OffRow>) {
    && (forall r :: r in rows ==> r.to.None? || r.from < r.to.value)
    && forall r, q, d: Date :: r in rows && q in rows && Covers(r, d) && Covers(q, d) ==> r == q
  }

  /** The selection in force on a date; no row means every day is worked. */
  function SelectionOn(rows: seq<OffRow>, d: Date): set<nat> {
    var r := FindCovering(rows, d);
    if r.Some? then r.value.days else {}
  }

  /** What is selected on a date: the days of the first row in force (under the constraint: of the only one). */
  lemma SelectionIs(rows: seq<OffRow>, d: Date, x: nat)
    ensures x in SelectionOn(rows, d) <==>
              exists i: nat :: && i < |rows| && Holds(rows[i], d) && (forall j :: 0 <= j < i ==> !Holds(rows[j], d))
                               && x in rows[i].days
  {
    assert rows[0..] == rows;
    FirstHolds(rows, 0, rows, d);
    hide FindCovering, Holds;
  }

  predicate Holds(r: OffRow, d: Date) {
    r.from <= d && (r.to.None? || d < r.to.value)
  }

  lemma {:induction false} FirstHolds(all: seq<OffRow>, k: nat, rows: seq<OffRow>, d: Date)
    requires k <= |all| && rows == all[k..] && forall j :: 0 <= j < k ==> !Holds(all[j], d)
    ensures var r := FindCovering(rows, d);
            && (r.None? <==> forall j :: 0 <= j < |all| ==> !Holds(all[j], d))
            && (r.Some? ==> exists i :: && 0 <= i < |all| && all[i] == r.value && Holds(all[i], d)
                                        && forall j :: 0 <= j < i ==> !Holds(all[j], d))
    decreases |rows|
  {
    if rows != [] {
      assert rows[0] == all[k];
      if !Holds(all[k], d) {
        FirstHolds(all, k + 1, rows[1..], d);
      }
    }
  }

  /** The earliest range starting after today: the head of the filtered rows sorted by start. */
  function PickNext(rows: seq<OffRow>, today: Date): (r: Option<OffRow>)
    ensures r.Some? ==> r.value in rows && r.value.from > today
    ensures r.Some? ==> forall q :: q in rows && q.from > today ==> r.value.from <= q.from
    ensures r.None? ==> forall q :: q in rows ==> q.from <= today
  {
    if rows == [] then None
    else
      var rest := PickNext(rows[1..], today);
      if rows[0].from <= today then rest
      else if rest.Some? && rest.value.from < rows[0].from then rest
      else Some(rows[0])
  }

  predicate StartsAt(rows: seq<OffRow>, d: Date) {
    exists r :: r in rows && r.from == d
  }

  /** A range that ends after today with nothing starting there: the clear it stands for is queued. */
  predicate EndsInClear(rows: seq<OffRow>, r: OffRow, today: Date) {
    r in rows && r.to.Some? && r.to.value > today && !StartsAt(rows, r.to.value)
  }

  /** The stand-in for a queued clear: no days from the range's end on. */
  function ClearAfter(r: OffRow): OffRow
    requires r.to.Some?
  {
    r.(from := r.to.value, to := None, days := {})
  }

  /** The row ends after today and no row starts there: its clear is queued. */
  predicate QueuedAt(rows: seq<OffRow>, i: nat, today: Date) {
    i < |rows| && rows[i].to.Some? && rows[i].to.value > today && forall q :: q in rows ==> q.from != rows[i].to.value
  }

  /** The places in order, each once. */
  ghost predicate Ascending(places: seq<nat>) {
    forall j, k :: 0 <= j < k < |places| ==> places[j] < places[k]
  }

  /**
   * The rows, followed by one stand-in with no days for every row whose clear is queued: the
   * stand-in at `j` is the one of the row at `places[j]`.
   */
  method WithQueuedClears(rows: seq<OffRow>, today: Date) returns (all: seq<OffRow>, ghost places: seq<nat>)
    ensures |all| == |rows| + |places| && all[..|rows|] == rows
    ensures Ascending(places) && forall i: nat :: i in places <==> QueuedAt(rows, i, today)
    ensures forall j :: 0 <= j < |places| ==>
              && QueuedAt(rows, places[j], today)
              && all[|rows| + j] == OffRow(rows[places[j]].employee, rows[places[j]].to.value, None, {})
    ensures ShownRows(rows, today, all)
  {
    var starts := set r | r in rows :: r.from;
    var clears: seq<OffRow> := [];
    places := [];
    for i := 0 to |rows|
      invariant |clears| == |places| && Ascending(places)
      invariant forall k: nat :: k in places <==> k < i && QueuedAt(rows, k, today)
      invariant forall j :: 0 <= j < |places| ==>
                  QueuedAt(rows, places[j], today) && clears[j] == ClearAfter(rows[places[j]])
    {
      var row := rows[i];
      if row.to.Some? && row.to.value > today && row.to.value !in starts {
        assert QueuedAt(rows, i, today);
        assert forall j :: 0 <= j < |places| ==> places[j] in places;
        clears := clears + [ClearAfter(row)];
        places := places + [i];
      }
    }
    all := rows + clears;
    PlacesShow(rows, today, all, places);
  }

  lemma PlacesShow(rows: seq<OffRow>, today: Date, all: seq<OffRow>, places: seq<nat>)
    requires |all| == |rows| + |places| && all[..|rows|] == rows
    requires forall i: nat :: i in places <==> QueuedAt(rows, i, today)
    requires forall j :: 0 <= j < |places| ==>
               QueuedAt(rows, places[j], today) && all[|rows| + j] == ClearAfter(rows[places[j]])
    ensures ShownRows(rows, today, all)
  {
    forall c
      ensures c in all <==> c in rows || exists r :: EndsInClear(rows, r, today) && c == ClearAfter(r)
    {
      if c in all && c !in rows {
        var k :| 0 <= k < |all| && all[k] == c;
        assert all == rows + all[|rows|..];
        assert all[|rows| + (k - |rows|)] == ClearAfter(rows[places[k - |rows|]]);
      }
      if c in rows {
        assert c in all[..|rows|];
      }
      if exists r :: EndsInClear(rows, r, today) && c == ClearAfter(r) {
        var r :| EndsInClear(rows, r, today) && c == ClearAfter(r);
        var i: nat :| i < |rows| && rows[i] == r;
        assert QueuedAt(rows, i, today) && i in places;
        var j :| 0 <= j < |places| && places[j] == i;
        assert all[|rows| + j] == c;
      }
    }
  }

  /** The rows as the views show them, stated without the loop. */
  ghost predicate ShownRows(rows: seq<OffRow>, today: Date, all: seq<OffRow>) {
    forall c :: c in all <==> c in rows || exists r :: EndsInClear(rows, r, today) && c == ClearAfter(r)
  }

  /** Before the next shown start nothing starts and nothing ends: the same row, or none, is in force. */
  lemma SameRowUntil(rows: seq<OffRow>, all: seq<OffRow>, today: Date, d: Date)
    requires Disjoint(rows) && ShownRows(rows, today, all) && today <= d
    requires PickNext(all, today).Some? ==> d < PickNext(all, today).value.from
    ensures FindCovering(rows, d) == FindCovering(rows, today)
  {
    var now, later := FindCovering(rows, today), FindCovering(rows, d);
    if now.Some? && !Covers(now.value, d) {
      EndIsShown(rows, all, today, now.value);
      assert false;
    }
    if later.Some? && !Covers(later.value, today) {
      assert false;
    }
  }

  /** Where a range in force ends, the views show a start. */
  lemma EndIsShown(rows: seq<OffRow>, all: seq<OffRow>, today: Date, r: OffRow)
    requires ShownRows(rows, today, all) && r in rows && r.to.Some? && r.to.value > today
    ensures exists c :: c in all && c.from == r.to.value
  {
    if StartsAt(rows, r.to.value) {
      var q :| q in rows && q.from == r.to.value;
      assert q in all;
    } else {
      assert EndsInClear(rows, r, today);
      assert ClearAfter(r) in all;
    }
  }

  /** No row is in force where a queued clear stands. */
  lemma ClearIsEmpty(rows: seq<OffRow>, today: Date, r: OffRow)
    requires Disjoint(rows) && EndsInClear(rows, r, today)
    ensures FindCovering(rows, r.to.value).None?
  {
    var q := FindCovering(rows, r.to.value);
    if q.Some? {
      assert q.value.from < r.to.value;
      assert Covers(q.value, Max(q.value.from, r.from)) && Covers(r, Max(q.value.from, r.from));
    }
  }

  /**
   * The next change the views show is the first one after today: the selection stays what it is
   * today up to it, is the shown days on it, and never changes again when none is shown.
   */
  lemma NextIsTheFirstChange(rows: seq<OffRow>, all: seq<OffRow>, today: Date, d: Date)
    requires Disjoint(rows) && ShownRows(rows, today, all) && today <= d
    ensures var next := PickNext(all, today);
            && (next.None? ==> SelectionOn(rows, d) == SelectionOn(rows, today))
            && (next.Some? && d < next.value.from ==> SelectionOn(rows, d) == SelectionOn(rows, today))
            && (next.Some? ==> SelectionOn(rows, next.value.from) == next.value.days)
  {
    var next := PickNext(all, today);
    if next.None? || d < next.value.from {
      SameRowUntil(rows, all, today, d);
    }
    if next.Some? {
      if next.value in rows {
        assert Covers(next.value, next.value.from);
      } else {
        var r :| EndsInClear(rows, r, today) && next.value == ClearAfter(r);
        ClearIsEmpty(rows, today, r);
      }
    }
  }
}
