// Shared vocabulary. Calendar dates are day numbers (CalendarDates shows why that is
// sound for the `YYYY-MM-DD` strings); instants are milliseconds on the database clock.

module Basics {
  datatype Option<+T> = None | Some(value: T)

  type Date = int
  type Instant = int
  type UserId = nat
  type Key = nat
  type OfficeId = nat

  const MINUTE: int := 60_000

  function Max(a: int, b: int): int {
    if a < b then b else a
  }

  function Min(a: int, b: int): int {
    if a < b then a else b
  }

  /** Two finite sets, one inside the other, of the same size are the same set. */
  lemma SameSizeSubset<T>(a: set<T>, b: set<T>)
    requires a <= b && |a| == |b|
    ensures a == b
  {
    if x :| x in b && x !in a {
      assert a <= b - {x};
      SubsetSize(a, b - {x});
    }
  }

  lemma {:induction false} SubsetSize<T>(a: set<T>, b: set<T>)
    requires a <= b
    ensures |a| <= |b|
    decreases |a|
  {
    if x :| x in a {
      SubsetSize(a - {x}, b - {x});
    }
  }

  // ------------------------------------------------------- ordered date lists

  function SetOf(dates: seq<Date>): set<Date> {
    set d | d in dates
  }

  /** Strictly ascending: what `order by` gives for distinct dates. */
  predicate Ascends(dates: seq<Date>) {
    forall i, j :: 0 <= i < j < |dates| ==> dates[i] < dates[j]
  }

  lemma AppendAscends(dates: seq<Date>, d: Date)
    requires Ascends(dates) && forall x :: x in dates ==> x < d
    ensures Ascends(dates + [d])
  {
    assert forall i :: 0 <= i < |dates| ==> dates[i] in dates;
  }

  lemma Member<T>(s: set<T>) returns (x: T)
    requires s != {}
    ensures x in s
  {
    x :| x in s;
  }

  lemma {:induction false} MinExists(s: set<Date>)
    requires s != {}
    ensures exists m :: m in s && forall x :: x in s ==> m <= x
    decreases |s|
  {
    var x := Member(s);
    var rest := s - {x};
    if rest == {} {
      assert s == {x};
    } else {
      MinExists(rest);
      var m :| m in rest && forall y :: y in rest ==> m <= y;
      var least := Min(m, x);
      assert forall y :: y in s ==> y == x || y in rest;
      assert least in s && forall y :: y in s ==> least <= y;
    }
  }

  /** The dates of a set in ascending order (`select ... order by`). */
  function Ascending(s: set<Date>): (dates: seq<Date>)
    ensures Ascends(dates)
    ensures forall d :: d in dates <==> d in s
    decreases |s|
  {
    if s == {} then []
    else
      MinExists(s);
      var m :| m in s && forall x :: x in s ==> m <= x;
      [m] + Ascending(s - {m})
  }

  lemma {:induction false} AscendingSize(dates: seq<Date>)
    requires Ascends(dates)
    ensures |SetOf(dates)| == |dates|
  {
    if dates != [] {
      var n := |dates| - 1;
      AscendingSize(dates[..n]);
      assert SetOf(dates) == SetOf(dates[..n]) + {dates[n]};
    }
  }
}
