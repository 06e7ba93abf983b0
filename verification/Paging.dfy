// Keyset paging over (created_at desc, id desc): following nextCursor reads every row once.

module Paging {
  import opened Basics

  datatype Row = Row(created: int, id: nat)

  /** Strictly after in the list order: older, or as old with a smaller id. */
  predicate After(r: Row, c: Row) {
    r.created < c.created || (r.created == c.created && r.id < c.id)
  }

  ghost predicate Descending(rows: seq<Row>) {
    forall i, j :: 0 <= i < j < |rows| ==> After(rows[j], rows[i])
  }

  lemma {:induction false} FirstExists(s: set<Row>)
    requires s != {}
    ensures exists m :: m in s && forall x :: x in s && x != m ==> After(x, m)
    decreases |s|
  {
    var x := Member(s);
    var rest := s - {x};
    if rest == {} {
      assert s == {x};
    } else {
      FirstExists(rest);
      var m :| m in rest && forall y :: y in rest && y != m ==> After(y, m);
      var first := if After(x, m) then m else x;
      forall y | y in s && y != first
        ensures After(y, first)
      {
        assert y == x || y in rest;
      }
    }
  }

  /** The matching rows in list order (`order by created_at desc, id desc`). */
  function Listed(s: set<Row>): (rows: seq<Row>)
    ensures Descending(rows)
    ensures forall r :: r in rows <==> r in s
    decreases |s|
  {
    if s == {} then []
    else
      FirstExists(s);
      var m :| m in s && forall x :: x in s && x != m ==> After(x, m);
      var rest := Listed(s - {m});
      assert forall r :: r in rest ==> r in s - {m};
      [m] + rest
  }

  function Beyond(s: set<Row>, cursor: Option<Row>): (r: set<Row>)
    ensures r <= s
  {
    set x | x in s && (cursor.None? || After(x, cursor.value))
  }

  datatype Page = Page(items: seq<Row>, nextCursor: Option<Row>)

  /** One page: one row more than asked for tells whether there is a next one. */
  function FetchPage(s: set<Row>, cursor: Option<Row>, size: nat): Page
    requires size > 0
  {
    var all := Listed(Beyond(s, cursor));
    var rows := if |all| > size + 1 then all[..size + 1] else all;
    var hasMore := |rows| > size;
    var items := if hasMore then rows[..size] else rows;
    Page(items, if hasMore then Some(items[|items| - 1]) else None)
  }

  lemma HasMember(rows: seq<Row>)
    ensures rows != [] ==> exists r :: r in rows
  {
    if rows != [] {
      assert rows[0] in rows;
    }
  }

  /** Two descending listings of the same rows are the same. */
  lemma {:induction false} SameListing(a: seq<Row>, b: seq<Row>)
    requires Descending(a) && Descending(b) && forall r :: r in a <==> r in b
    ensures a == b
    decreases |a|
  {
    if a == [] {
      HasMember(b);
    } else {
      assert a[0] in b && b != [];
      assert b[0] in a;
      assert a[0] == b[0];
      forall r
        ensures r in a[1..] <==> r in b[1..]
      {
        assert r in a[1..] ==> r in a && r != a[0];
        assert r in b[1..] ==> r in b && r != b[0];
        assert r in a && r != a[0] ==> r in a[1..];
        assert r in b && r != b[0] ==> r in b[1..];
      }
      SameListing(a[1..], b[1..]);
    }
  }

  /** The rows beyond a listed row are the rest of the listing. */
  lemma RestOfListing(s: set<Row>, cursor: Option<Row>, k: nat)
    requires k < |Listed(Beyond(s, cursor))|
    ensures var all := Listed(Beyond(s, cursor));
            Listed(Beyond(s, Some(all[k]))) == all[k + 1..]
  {
    var all := Listed(Beyond(s, cursor));
    assert all[k] in Beyond(s, cursor);
    forall r | r in all[k + 1..]
      ensures r in Beyond(s, Some(all[k]))
    {
      assert r in Beyond(s, cursor);
    }
    forall r | r in Beyond(s, Some(all[k]))
      ensures r in all[k + 1..]
    {
      assert r in Beyond(s, cursor);
      var i :| 0 <= i < |all| && all[i] == r;
    }
    SameListing(Listed(Beyond(s, Some(all[k]))), all[k + 1..]);
  }

  /** A page is the listing's head; its cursor is the last item, given just when more rows follow. */
  lemma PageIsHead(s: set<Row>, cursor: Option<Row>, size: nat)
    requires size > 0
    ensures var all, page := Listed(Beyond(s, cursor)), FetchPage(s, cursor, size);
            if |all| > size then page == Page(all[..size], Some(all[size - 1])) else page == Page(all, None)
  {
    hide Listed, Beyond;
    var all := Listed(Beyond(s, cursor));
    if |all| > size + 1 {
      assert all[..size + 1][..size] == all[..size];
    }
  }

  /** Newer, or as new with a larger id. */
  predicate Before(r: Row, c: Row) {
    r.created > c.created || (r.created == c.created && r.id > c.id)
  }

  /**
   * A page, without the listing: at most `size` matching rows beyond the cursor, newest first, and
   * none left out before its last one; the cursor is that one, given exactly when a row follows it.
   */
  lemma PageIs(s: set<Row>, cursor: Option<Row>, size: nat)
    requires size > 0
    ensures var page := FetchPage(s, cursor, size);
            && |page.items| <= size && (page.nextCursor.Some? ==> |page.items| == size)
            && (forall i, j :: 0 <= i < j < |page.items| ==> Before(page.items[i], page.items[j]))
            && (forall r :: r in page.items ==> r in s && (cursor.Some? ==> Before(cursor.value, r)))
            && (forall r :: r in s && (cursor.Some? ==> Before(cursor.value, r)) && r !in page.items ==>
                  page.nextCursor.Some? && Before(page.nextCursor.value, r))
            && (page.nextCursor.Some? ==>
                  && page.nextCursor.value == page.items[size - 1]
                  && exists r :: r in s && Before(page.nextCursor.value, r))
  {
    hide Listed, Beyond, FetchPage, After;
    var all := Listed(Beyond(s, cursor));
    PageIsHead(s, cursor, size);
    forall r
      ensures r in all <==> r in s && (cursor.Some? ==> Before(cursor.value, r))
    {
      BeyondIs(s, cursor, r);
    }
    if |all| > size {
      HeadIs(all, size);
    } else {
      AfterIsBefore(all);
    }
  }

  lemma BeyondIs(s: set<Row>, cursor: Option<Row>, r: Row)
    ensures r in Beyond(s, cursor) <==> r in s && (cursor.Some? ==> Before(cursor.value, r))
  {
  }

  lemma AfterIsBefore(rows: seq<Row>)
    requires Descending(rows)
    ensures forall i, j :: 0 <= i < j < |rows| ==> Before(rows[i], rows[j])
  {
  }

  /** The first rows of a longer listing: those left follow the last of them. */
  lemma HeadIs(all: seq<Row>, size: nat)
    requires 0 < size < |all| && Descending(all)
    ensures forall i, j :: 0 <= i < j < size ==> Before(all[..size][i], all[..size][j])
    ensures forall r :: r in all[..size] ==> r in all
    ensures forall r :: r in all && r !in all[..size] ==> Before(all[size - 1], r)
    ensures all[size] in all && Before(all[size - 1], all[size])
  {
    AfterIsBefore(all);
    forall r | r in all && r !in all[..size]
      ensures Before(all[size - 1], r)
    {
      var k :| 0 <= k < |all| && all[k] == r;
      assert all == all[..size] + all[size..];
    }
  }

  /** Every item read by following nextCursor from a cursor on. */
  function FollowAll(s: set<Row>, cursor: Option<Row>, size: nat): seq<Row>
    requires size > 0
    decreases |Listed(Beyond(s, cursor))|
  {
    var page := FetchPage(s, cursor, size);
    if page.nextCursor.None? then page.items
    else
      PageIsHead(s, cursor, size);
      RestOfListing(s, cursor, size - 1);
      page.items + FollowAll(s, page.nextCursor, size)
  }

  /** Following the cursors terminates and reads exactly the rest of the listing. */
  lemma {:induction false} FollowReadsRest(s: set<Row>, cursor: Option<Row>, size: nat)
    requires size > 0
    ensures FollowAll(s, cursor, size) == Listed(Beyond(s, cursor))
    decreases |Listed(Beyond(s, cursor))|
  {
    hide Listed, Beyond, FetchPage;
    var page := FetchPage(s, cursor, size);
    PageIsHead(s, cursor, size);
    if page.nextCursor.Some? {
      RestOfListing(s, cursor, size - 1);
      FollowReadsRest(s, page.nextCursor, size);
    }
  }

  /** From the first page on, every matching row is read exactly once, in list order, for any page size. */
  lemma EveryRowOnce(s: set<Row>, size: nat)
    requires size > 0
    ensures var read := FollowAll(s, None, size);
            && (forall i, j :: 0 <= i < j < |read| ==>
                  || read[i].created > read[j].created
                  || (read[i].created == read[j].created && read[i].id > read[j].id))
            && (forall r :: r in read <==> r in s)
            && forall i, j :: 0 <= i < j < |read| ==> read[i] != read[j]
  {
    FollowReadsRest(s, None, size);
    assert Beyond(s, None) == s;
  }
}
