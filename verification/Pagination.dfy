/** Keyset pagination of the message list: newest first, undated last, ids breaking ties, while the table
    and the page size change between requests. */
module Pagination {
  import opened Prelude

  /** A matching row's sort key. The order, not the clock, matters: dates are points on a line. */
  datatype Row = Row(id: nat, date: Option<int>)

  /** `ORDER BY date_sent DESC, id DESC`, where the database orders NULL below every date. */
  predicate Before(a: Row, b: Row) {
    match (a.date, b.date)
    case (Some(x), Some(y)) => x > y || (x == y && a.id > b.id)
    case (Some(_), None) => true
    case (None, Some(_)) => false
    case (None, None) => a.id > b.id
  }

  /** The `WHERE` clause a cursor adds. */
  predicate PastCursor(cursor: Row, row: Row) {
    match cursor.date
    case None => row.date.None? && row.id < cursor.id
    case Some(d) =>
      || (row.date.Some? && row.date.value < d)
      || row.date.None?
      || (row.date == Some(d) && row.id < cursor.id)
  }

  lemma BeforeIsATotalOrder(a: Row, b: Row, c: Row)
    ensures a != b ==> (Before(a, b) <==> !Before(b, a))
    ensures !Before(a, a)
    ensures Before(a, b) && Before(b, c) ==> Before(a, c)
  {
  }

  /** The cursor clause selects exactly what the order puts after the cursor's row. */
  lemma CursorIsKeyset(cursor: Row, row: Row)
    ensures PastCursor(cursor, row) <==> Before(cursor, row)
  {
  }

  ghost predicate InOrder(rows: seq<Row>) {
    forall i, j :: 0 <= i < j < |rows| ==> Before(rows[i], rows[j])
  }

  lemma {:induction false} FindFirst(rows: set<Row>) returns (first: Row)
    requires rows != {}
    ensures first in rows && forall r :: r in rows && r != first ==> Before(first, r)
    decreases |rows|
  {
    first :| first in rows;
    var rest := rows - {first};
    assert forall r :: r in rows && r != first ==> r in rest;
    if rest != {} {
      var candidate := first;
      var other := FindFirst(rest);
      first := if Before(candidate, other) then candidate else other;
      forall r | r in rows && r != first ensures Before(first, r) {
        assert r == candidate || r in rest;
        BeforeIsATotalOrder(candidate, other, r);
      }
    }
  }

  lemma HasFirst(rows: set<Row>)
    requires rows != {}
    ensures exists first :: first in rows && forall r :: r in rows && r != first ==> Before(first, r)
  {
    var first := FindFirst(rows);
  }

  ghost function First(rows: set<Row>): (first: Row)
    requires rows != {}
    ensures first in rows && forall r :: r in rows && r != first ==> Before(first, r)
  {
    HasFirst(rows);
    var first :| first in rows && forall r :: r in rows && r != first ==> Before(first, r);
    first
  }

  /** The whole query result, in order. */
  ghost function Listing(rows: set<Row>): (r: seq<Row>)
    ensures |r| == |rows|
    ensures forall x :: x in r <==> x in rows
    decreases |rows|
  {
    if rows == {} then [] else [First(rows)] + Listing(rows - {First(rows)})
  }

  lemma {:induction false} ListingIsOrdered(rows: set<Row>)
    ensures InOrder(Listing(rows))
    decreases |rows|
  {
    hide Before;
    if rows != {} {
      var first := First(rows);
      var rest := Listing(rows - {first});
      ListingIsOrdered(rows - {first});
      hide InOrder;
      InOrderCons(first, rest);
    }
  }

  lemma InOrderCons(first: Row, rest: seq<Row>)
    requires InOrder(rest) && forall r :: r in rest ==> Before(first, r)
    ensures InOrder([first] + rest)
  {
    hide Before;
  }

  function Beyond(table: set<Row>, cursor: Option<Row>): set<Row> {
    set r | r in table && (cursor.Some? ==> PastCursor(cursor.value, r))
  }

  datatype Page = Page(items: seq<Row>, next: Option<Row>)

  /** `list_messages`: fetch one row more than asked for, to know whether there is another page. */
  ghost function ListMessages(table: set<Row>, cursor: Option<Row>, limit: nat): Page {
    var listing := Listing(Beyond(table, cursor));
    var rows := listing[..Min(limit + 1, |listing|)];
    var hasMore := |rows| > limit;
    var items := rows[..Min(limit, |rows|)];
    Page(items, if hasMore && items != [] then Some(items[|items| - 1]) else None)
  }

  /** One request of a client that follows `next_cursor`: the rows matching then, and the page size it asks for. */
  datatype Request = Request(table: set<Row>, limit: nat)

  /** A page size is at least one. */
  predicate Allowed(requests: seq<Request>) {
    forall r :: r in requests ==> 1 <= r.limit
  }

  ghost function Follow(requests: seq<Request>, cursor: Option<Row>): seq<Row>
    decreases |requests|
  {
    if requests == [] then []
    else
      var page := ListMessages(requests[0].table, cursor, requests[0].limit);
      page.items + if page.next.Some? then Follow(requests[1..], page.next) else []
  }

  /** The last page was reached. */
  ghost predicate Completed(requests: seq<Request>, cursor: Option<Row>)
    decreases |requests|
  {
    requests != [] &&
    var page := ListMessages(requests[0].table, cursor, requests[0].limit);
    page.next.Some? ==> Completed(requests[1..], page.next)
  }

  /** What one page is: the first rows past the cursor; with a next cursor, its last row. */
  lemma PageIsPrefix(table: set<Row>, cursor: Option<Row>, limit: nat)
    requires 1 <= limit
    ensures var page, listing := ListMessages(table, cursor, limit), Listing(Beyond(table, cursor));
      && page.items == listing[..Min(limit, |listing|)]
      && (page.next.None? ==> page.items == listing)
      && (page.next.Some? ==> page.items != [] && page.next.value == page.items[|page.items| - 1] && |page.items| == limit < |listing|)
  {
  }

  lemma OnPage(table: set<Row>, cursor: Option<Row>, limit: nat)
    requires 1 <= limit
    ensures var items := ListMessages(table, cursor, limit).items;
      InOrder(items) && forall r :: r in items ==> r in table && (cursor.Some? ==> Before(cursor.value, r))
  {
    var page, listing := ListMessages(table, cursor, limit), Listing(Beyond(table, cursor));
    PageIsPrefix(table, cursor, limit);
    ListingIsOrdered(Beyond(table, cursor));
    forall r | r in page.items ensures r in table && (cursor.Some? ==> Before(cursor.value, r)) {
      assert r in listing;
      if cursor.Some? {
        CursorIsKeyset(cursor.value, r);
      }
    }
  }

  lemma InOrderJoins(a: seq<Row>, b: seq<Row>)
    requires InOrder(a) && InOrder(b)
    requires b == [] || (a != [] && forall r :: r in b ==> Before(a[|a| - 1], r))
    ensures InOrder(a + b)
  {
    forall i, j | 0 <= i < j < |a + b| ensures Before((a + b)[i], (a + b)[j]) {
      if i < |a| <= j {
        assert (a + b)[j] in b;
        BeforeIsATotalOrder(a[i], a[|a| - 1], (a + b)[j]);
      }
    }
  }

  lemma PastThePast(a: Row, b: Row, rest: seq<Row>)
    requires Before(a, b) && forall r :: r in rest ==> Before(b, r)
    ensures forall r :: r in rest ==> Before(a, r)
  {
    forall r | r in rest ensures Before(a, r) {
      BeforeIsATotalOrder(a, b, r);
    }
  }

  ghost predicate AllPast(cursor: Option<Row>, rows: seq<Row>) {
    cursor.Some? ==> forall r :: r in rows ==> Before(cursor.value, r)
  }

  lemma AllPastJoins(cursor: Option<Row>, a: seq<Row>, b: seq<Row>)
    requires AllPast(cursor, a) && AllPast(cursor, b)
    ensures AllPast(cursor, a + b)
  {
    hide Before;
  }

  lemma FollowUnfolds(requests: seq<Request>, cursor: Option<Row>)
    requires requests != []
    ensures
      var page := ListMessages(requests[0].table, cursor, requests[0].limit);
      Follow(requests, cursor) == if page.next.Some? then page.items + Follow(requests[1..], page.next) else page.items
  {
    hide ListMessages;
    var page := ListMessages(requests[0].table, cursor, requests[0].limit);
    assert page.items + [] == page.items;
  }

  lemma {:induction false} FollowPastCursor(requests: seq<Request>, cursor: Option<Row>)
    requires Allowed(requests)
    ensures InOrder(Follow(requests, cursor)) && AllPast(cursor, Follow(requests, cursor))
    decreases |requests|
  {
    if requests != [] {
      var table, limit := requests[0].table, requests[0].limit;
      var page := ListMessages(table, cursor, limit);
      FollowUnfolds(requests, cursor);
      PageIsPrefix(table, cursor, limit);
      OnPage(table, cursor, limit);
      hide ListMessages;
      hide Follow;
      hide Listing;
      hide InOrder;
      hide Before;
      if page.next.Some? {
        var rest := Follow(requests[1..], page.next);
        FollowPastCursor(requests[1..], page.next);
        InOrderJoins(page.items, rest);
        assert page.next.value in page.items;
        if cursor.Some? {
          PastThePast(cursor.value, page.next.value, rest);
        }
        AllPastJoins(cursor, page.items, rest);
      }
    }
  }

  /** A message keeps its date for as long as a client pages. */
  ghost predicate DatesStay(requests: seq<Request>) {
    forall p, q, r, s :: p in requests && q in requests && r in p.table && s in q.table && r.id == s.id ==> r == s
  }

  /** However rows come, go, start or stop matching between pages, no message is returned twice. */
  lemma NoMessageTwice(requests: seq<Request>, i: nat, j: nat)
    requires Allowed(requests) && DatesStay(requests)
    requires i < j < |Follow(requests, None)|
    ensures Follow(requests, None)[i].id != Follow(requests, None)[j].id
  {
    var all := Follow(requests, None);
    FollowPastCursor(requests, None);
    FollowStaysInTables(requests, None);
    assert all[i] in all && all[j] in all;
    BeforeIsATotalOrder(all[i], all[j], all[j]);
  }

  lemma {:induction false} FollowCollects(requests: seq<Request>, cursor: Option<Row>, row: Row)
    requires Allowed(requests) && Completed(requests, cursor)
    requires forall q :: q in requests ==> row in q.table
    requires cursor.Some? ==> Before(cursor.value, row)
    ensures row in Follow(requests, cursor)
    decreases |requests|
  {
    var table, limit := requests[0].table, requests[0].limit;
    var page, listing := ListMessages(table, cursor, limit), Listing(Beyond(table, cursor));
    PageIsPrefix(table, cursor, limit);
    if cursor.Some? {
      CursorIsKeyset(cursor.value, row);
    }
    assert row in listing;
    ListingIsOrdered(Beyond(table, cursor));
    hide ListMessages;
    var k :| 0 <= k < |listing| && listing[k] == row;
    if k < |page.items| {
      assert page.items[k] == row;
    } else {
      assert Before(listing[limit - 1], listing[k]);
      FollowCollects(requests[1..], page.next, row);
    }
  }

  /** A message that matches throughout is returned, exactly once, by the time the last page is reached. */
  lemma EveryLastingMessageOnce(requests: seq<Request>, row: Row)
    requires Allowed(requests) && Completed(requests, None)
    requires forall q :: q in requests ==> row in q.table
    ensures exists k :: 0 <= k < |Follow(requests, None)| && Follow(requests, None)[k] == row
    ensures forall i, j :: 0 <= i < j < |Follow(requests, None)| ==>
      !(Follow(requests, None)[i] == row && Follow(requests, None)[j] == row)
  {
    FollowCollects(requests, None, row);
    FollowPastCursor(requests, None);
    BeforeIsATotalOrder(row, row, row);
  }

  lemma FirstIsIn<T>(s: seq<T>)
    ensures s != [] ==> s[0] in s && (forall x :: x in s <==> x == s[0] || x in s[1..]) && s == [s[0]] + s[1..]
  {
  }

  lemma {:induction false} SameContentsSameOrder(a: seq<Row>, b: seq<Row>)
    requires InOrder(a) && InOrder(b) && forall r :: r in a <==> r in b
    ensures a == b
    decreases |a|
  {
    FirstIsIn(a);
    FirstIsIn(b);
    if a != [] {
      var i :| 0 <= i < |b| && b[i] == a[0];
      var j :| 0 <= j < |a| && a[j] == b[0];
      BeforeIsATotalOrder(a[0], b[0], a[0]);
      assert a[0] == b[0];
      BeforeIsATotalOrder(a[0], a[0], a[0]);
      assert a[0] !in a[1..] && a[0] !in b[1..];
      SameContentsSameOrder(a[1..], b[1..]);
    }
  }

  lemma {:induction false} FollowStaysInTables(requests: seq<Request>, cursor: Option<Row>)
    requires Allowed(requests)
    ensures forall r :: r in Follow(requests, cursor) ==> exists q :: q in requests && r in q.table
    decreases |requests|
  {
    if requests != [] {
      var page := ListMessages(requests[0].table, cursor, requests[0].limit);
      OnPage(requests[0].table, cursor, requests[0].limit);
      FollowStaysInTables(requests[1..], page.next);
    }
  }

  /** On an unchanging table the pages, put together, are the sorted result, whatever their sizes. */
  lemma PagesConcatenateToListing(requests: seq<Request>, table: set<Row>)
    requires Allowed(requests) && Completed(requests, None)
    requires forall q :: q in requests ==> q.table == table
    ensures Follow(requests, None) == Listing(table)
  {
    var all := Follow(requests, None);
    FollowPastCursor(requests, None);
    ListingIsOrdered(table);
    forall row | row in table ensures row in all {
      FollowCollects(requests, None, row);
    }
    FollowStaysInTables(requests, None);
    SameContentsSameOrder(all, Listing(table));
  }

  /** On an unchanging table the last page comes after at most as many requests as there are rows to return. */
  lemma {:induction false} WalkReachesTheEnd(requests: seq<Request>, cursor: Option<Row>, table: set<Row>)
    requires Allowed(requests) && requests != []
    requires forall q :: q in requests ==> q.table == table
    requires |Beyond(table, cursor)| <= |requests|
    ensures Completed(requests, cursor)
    decreases |requests|
  {
    var page, listing := ListMessages(table, cursor, requests[0].limit), Listing(Beyond(table, cursor));
    PageIsPrefix(table, cursor, requests[0].limit);
    if page.next.Some? {
      var last := page.next.value;
      OnPage(table, cursor, requests[0].limit);
      assert last in page.items;
      forall r | r in Beyond(table, page.next) ensures r in Beyond(table, cursor) && r != last {
        CursorIsKeyset(last, r);
        BeforeIsATotalOrder(last, r, r);
        if cursor.Some? {
          BeforeIsATotalOrder(cursor.value, last, r);
          CursorIsKeyset(cursor.value, r);
        }
      }
      assert last in listing;
      Subset(Beyond(table, page.next), Beyond(table, cursor) - {last});
      WalkReachesTheEnd(requests[1..], page.next, table);
    }
  }

  lemma {:induction false} Subset<T>(a: set<T>, b: set<T>)
    requires a <= b
    ensures |a| <= |b|
    decreases |a|
  {
    if a != {} {
      var x :| x in a;
      Subset(a - {x}, b - {x});
    }
  }
}
