/**
  The audit log: rows inserted under unique ids, listed page by page with a cursor.

  Ids stand for their rank in the order of the id column. The listing is a filter and a sort of
  the table; what a client gets by following the cursors is proved for a table that stands still
  and for one that grows between two pages.
 */
module AuditPages {
  import opened Seqs

  const DEFAULT_LIMIT: nat := 50
  const MAX_LIMIT: nat := 200

  datatype Entry = Entry(timestamp: int, action: string, resourceName: string, detail: string, userIdentity: string)
  datatype Row = Row(id: int, resourceType: string, namespace: string, entry: Entry)
  datatype Query = Query(resourceType: Option<string>, namespace: Option<string>, limit: Option<nat>)
  datatype Response = Response(items: seq<Row>, nextCursor: Option<int>)

  // ------------------------------------------------------------ the listing

  predicate Accepts(wanted: Option<string>, actual: string) {
    wanted.None? || wanted.value == actual
  }

  predicate Selects(q: Query, cursor: Option<int>, r: Row) {
    && (cursor.None? || cursor.value < r.id)
    && Accepts(q.resourceType, r.resourceType)
    && Accepts(q.namespace, r.namespace)
  }

  function Select(rows: seq<Row>, q: Query, cursor: Option<int>): (s: seq<Row>)
    ensures forall r :: r in s <==> r in rows && Selects(q, cursor, r)
  {
    if rows == [] then []
    else
      var rest := Select(rows[1..], q, cursor);
      assert forall r :: r in rows <==> r == rows[0] || r in rows[1..];
      if Selects(q, cursor, rows[0]) then [rows[0]] + rest else rest
  }

  function InsertById(r: Row, sorted: seq<Row>): (s: seq<Row>)
    ensures forall x :: x in s <==> x == r || x in sorted
    ensures |s| == |sorted| + 1
  {
    if sorted == [] || r.id <= sorted[0].id then [r] + sorted
    else
      assert sorted == [sorted[0]] + sorted[1..];
      [sorted[0]] + InsertById(r, sorted[1..])
  }

  function SortById(rows: seq<Row>): (s: seq<Row>)
    ensures forall r :: r in s <==> r in rows
  {
    if rows == [] then []
    else
      assert rows == [rows[0]] + rows[1..];
      InsertById(rows[0], SortById(rows[1..]))
  }

  /** The rows a query asks for, in ascending id order. */
  function Listing(rows: seq<Row>, q: Query, cursor: Option<int>): (s: seq<Row>)
    ensures forall r :: r in s <==> r in rows && Selects(q, cursor, r)
  {
    SortById(Select(rows, q, cursor))
  }

  ghost predicate UniqueIds(rows: seq<Row>) {
    forall p, q :: 0 <= p < q < |rows| ==> rows[p].id != rows[q].id
  }

  ghost predicate AscendingIds(rows: seq<Row>) {
    forall p, q :: 0 <= p < q < |rows| ==> rows[p].id < rows[q].id
  }

  lemma {:induction false} InsertKeepsAscending(r: Row, sorted: seq<Row>)
    requires AscendingIds(sorted) && forall x :: x in sorted ==> x.id != r.id
    ensures AscendingIds(InsertById(r, sorted))
  {
    if sorted != [] && r.id > sorted[0].id {
      var tail := InsertById(r, sorted[1..]);
      InsertKeepsAscending(r, sorted[1..]);
      forall k | 0 <= k < |tail| ensures sorted[0].id < tail[k].id {
        assert tail[k] in tail;
      }
    }
  }

  lemma {:induction false} SortIsAscending(rows: seq<Row>)
    requires UniqueIds(rows)
    ensures AscendingIds(SortById(rows))
  {
    if rows == [] {
    } else {
      SortIsAscending(rows[1..]);
      InsertKeepsAscending(rows[0], SortById(rows[1..]));
    }
  }

  lemma {:induction false} SelectKeepsUnique(rows: seq<Row>, q: Query, cursor: Option<int>)
    requires UniqueIds(rows)
    ensures UniqueIds(Select(rows, q, cursor))
  {
    if rows == [] {
    } else {
      SelectKeepsUnique(rows[1..], q, cursor);
      var rest := Select(rows[1..], q, cursor);
      forall k | 0 <= k < |rest| ensures rows[0].id != rest[k].id {
        assert rest[k] in rows[1..];
      }
    }
  }

  lemma ListingIsAscending(rows: seq<Row>, q: Query, cursor: Option<int>)
    requires UniqueIds(rows)
    ensures AscendingIds(Listing(rows, q, cursor))
  {
    SelectKeepsUnique(rows, q, cursor);
    SortIsAscending(Select(rows, q, cursor));
  }

  /** Rows in ascending id order are determined by which rows they are. */
  lemma {:induction false} AscendingIsDetermined(a: seq<Row>, b: seq<Row>)
    requires AscendingIds(a) && AscendingIds(b) && forall r :: r in a <==> r in b
    ensures a == b
  {
    SameElementsSameLength(a, b);
    if a == [] {
    } else {
      assert a[0] in b;
      assert b[0] in a;
      assert a[0] == b[0];
      forall r ensures r in a[1..] <==> r in b[1..] {
        assert r in a <==> r == a[0] || r in a[1..];
        assert r in b <==> r == b[0] || r in b[1..];
      }
      AscendingIsDetermined(a[1..], b[1..]);
    }
  }

  // ------------------------------------------------------------ one page

  function Limit(q: Query): nat {
    var asked := if q.limit.Some? then q.limit.value else DEFAULT_LIMIT;
    if asked < MAX_LIMIT then asked else MAX_LIMIT
  }

  function Take(rows: seq<Row>, n: nat): seq<Row> {
    if n < |rows| then rows[..n] else rows
  }

  /** A page: the first rows of the listing, and a cursor exactly when rows are left after a last one. */
  function Page(rows: seq<Row>, q: Query, cursor: Option<int>): Response {
    var all := Listing(rows, q, cursor);
    var items := Take(all, Limit(q));
    Response(items, if |items| < |all| && items != [] then Some(items[|items| - 1].id) else None)
  }

  class AuditLog {
    var rows: seq<Row>

    ghost predicate Valid()
      reads this
    {
      UniqueIds(rows)
    }

    constructor ()
      ensures Valid() && rows == []
    {
      rows := [];
    }

    /** Inserts a row; the table refuses an id that is taken. */
    method LogAction(row: Row) returns (ok: bool)
      requires Valid()
      modifies this
      ensures Valid()
      ensures ok <==> forall r :: r in old(rows) ==> r.id != row.id
      ensures rows == if ok then old(rows) + [row] else old(rows)
    {
      ok := true;
      for k := 0 to |rows|
        invariant ok <==> forall j :: 0 <= j < k ==> rows[j].id != row.id
      {
        ok := ok && rows[k].id != row.id;
      }
      if ok {
        rows := rows + [row];
      }
    }

    /** Fetches one row more than the page holds to learn whether there is another page. */
    method ListAuditLogs(q: Query, cursor: Option<int>) returns (response: Response)
      requires Valid()
      ensures response == Page(rows, q, cursor)
    {
      var limit := Limit(q);
      var fetched := Take(Listing(rows, q, cursor), limit + 1);
      var hasMore := |fetched| > limit;
      var items := Take(fetched, limit);
      var nextCursor := None;
      if hasMore && items != [] {
        nextCursor := Some(items[|items| - 1].id);
      }
      assert items == Take(Listing(rows, q, cursor), limit);
      response := Response(items, nextCursor);
    }
  }

  // ------------------------------------------------------------ following the cursors

  /** In an ascending listing, the rows from position n on are those past the id before it. */
  lemma RowsPast(all: seq<Row>, n: nat, r: Row)
    requires AscendingIds(all) && 0 < n <= |all|
    ensures r in all[n..] <==> r in all && r.id > all[n - 1].id
  {
    var left := all[n..];
    if r in left {
      var k :| 0 <= k < |left| && left[k] == r;
      assert all[n + k] == r;
    }
    if r in all && r.id > all[n - 1].id {
      var k :| 0 <= k < |all| && all[k] == r;
      assert left[k - n] == r;
    }
  }

  /** The page after a cursor continues the listing where the page before stopped. */
  lemma NextPageContinues(rows: seq<Row>, q: Query, cursor: Option<int>)
    requires UniqueIds(rows) && Page(rows, q, cursor).nextCursor.Some?
    ensures Limit(q) > 0 && Limit(q) < |Listing(rows, q, cursor)|
    ensures Listing(rows, q, Page(rows, q, cursor).nextCursor) == Listing(rows, q, cursor)[Limit(q)..]
  {
    var all := Listing(rows, q, cursor);
    var next := Page(rows, q, cursor).nextCursor;
    ListingIsAscending(rows, q, cursor);
    ListingIsAscending(rows, q, next);
    CursorContinues(rows, q, cursor, Limit(q), next);
  }

  lemma CursorContinues(rows: seq<Row>, q: Query, cursor: Option<int>, n: nat, next: Option<int>)
    requires var all := Listing(rows, q, cursor);
             AscendingIds(all) && 0 < n <= |all| && next == Some(all[n - 1].id)
    requires AscendingIds(Listing(rows, q, next))
    ensures Listing(rows, q, next) == Listing(rows, q, cursor)[n..]
  {
    var all := Listing(rows, q, cursor);
    assert all[n - 1] in all;
    assert cursor.Some? ==> cursor.value < next.value;
    forall r ensures r in all[n..] <==> r in Listing(rows, q, next) {
      RowsPast(all, n, r);
    }
    AscendingIsDetermined(all[n..], Listing(rows, q, next));
  }

  /** The pages a client receives that starts at `cursor` and follows every next cursor. */
  ghost function Walk(rows: seq<Row>, q: Query, cursor: Option<int>): (pages: seq<seq<Row>>)
    requires UniqueIds(rows)
    ensures |pages| >= 1
    decreases |Listing(rows, q, cursor)|
  {
    var page := Page(rows, q, cursor);
    if page.nextCursor.None? then [page.items]
    else
      NextPageContinues(rows, q, cursor);
      [page.items] + Walk(rows, q, page.nextCursor)
  }

  /** Over a still table nothing is lost, repeated or reordered, unless the limit is 0 and there are rows. */
  lemma {:induction false} WalkIsTheListing(rows: seq<Row>, q: Query, cursor: Option<int>)
    requires UniqueIds(rows)
    ensures Flatten(Walk(rows, q, cursor)) == Listing(rows, q, cursor)
       <==> Limit(q) > 0 || Listing(rows, q, cursor) == []
    decreases |Listing(rows, q, cursor)|
  {
    var all := Listing(rows, q, cursor);
    var page := Page(rows, q, cursor);
    if page.nextCursor.None? {
      assert Flatten([page.items]) == page.items + Flatten([]) == page.items;
    } else {
      NextPageContinues(rows, q, cursor);
      WalkIsTheListing(rows, q, page.nextCursor);
      assert Walk(rows, q, cursor)[1..] == Walk(rows, q, page.nextCursor);
      assert all == all[..Limit(q)] + all[Limit(q)..];
    }
  }

  /** The number of pages: one for an empty listing, else the rows divided by the limit, rounded up. */
  predicate IsPageCount(pages: nat, m: nat, limit: nat) {
    if m == 0 then pages == 1 else pages >= 1 && (pages - 1) * limit < m <= pages * limit
  }

  lemma {:induction false} WalkLength(rows: seq<Row>, q: Query, cursor: Option<int>)
    requires UniqueIds(rows) && Limit(q) > 0
    ensures IsPageCount(|Walk(rows, q, cursor)|, |Listing(rows, q, cursor)|, Limit(q))
    ensures forall k :: 0 <= k < |Walk(rows, q, cursor)| - 1 ==> |Walk(rows, q, cursor)[k]| == Limit(q)
    decreases |Listing(rows, q, cursor)|
  {
    var page := Page(rows, q, cursor);
    if page.nextCursor.Some? {
      NextPageContinues(rows, q, cursor);
      WalkLength(rows, q, page.nextCursor);
      OneMorePage(|Walk(rows, q, page.nextCursor)|, |Listing(rows, q, cursor)|, Limit(q));
    }
  }

  lemma OneMorePage(pages: nat, m: nat, limit: nat)
    requires 0 < limit < m && IsPageCount(pages, m - limit, limit)
    ensures IsPageCount(pages + 1, m, limit)
  {
    assert (pages + 1) * limit == pages * limit + limit;
    assert pages * limit == (pages - 1) * limit + limit;
  }

  // ------------------------------------------------------------ a table that grows between pages

  /** Each table holds at least the rows of the one before. */
  ghost predicate OnlyGrows(tables: seq<seq<Row>>) {
    tables == [] ||
    (&& UniqueIds(tables[0])
     && (|tables| > 1 ==> forall r :: r in tables[0] ==> r in tables[1])
     && OnlyGrows(tables[1..]))
  }

  /** Everything received when page k is taken from the k-th table. */
  ghost function Received(tables: seq<seq<Row>>, q: Query, cursor: Option<int>): seq<Row> {
    if tables == [] then []
    else
      var page := Page(tables[0], q, cursor);
      page.items + if page.nextCursor.None? then [] else Received(tables[1..], q, page.nextCursor)
  }

  /** The walk came to a page without a cursor. */
  ghost predicate Finished(tables: seq<seq<Row>>, q: Query, cursor: Option<int>) {
    tables != [] &&
    var next := Page(tables[0], q, cursor).nextCursor;
    next.None? || Finished(tables[1..], q, next)
  }

  lemma PageSplitsListing(rows: seq<Row>, q: Query, cursor: Option<int>)
    requires UniqueIds(rows) && Limit(q) > 0
    ensures var page := Page(rows, q, cursor);
            && AscendingIds(page.items)
            && (forall r :: r in page.items ==> r in rows && Selects(q, cursor, r))
            && (forall r :: r in page.items && page.nextCursor.Some? ==> r.id <= page.nextCursor.value)
            && (forall r :: r in rows && Selects(q, cursor, r) ==>
                  r in page.items || (page.nextCursor.Some? && Selects(q, page.nextCursor, r)))
            && (page.nextCursor.Some? && cursor.Some? ==> cursor.value < page.nextCursor.value)
  {
    var all := Listing(rows, q, cursor);
    var page := Page(rows, q, cursor);
    ListingIsAscending(rows, q, cursor);
    if page.nextCursor.Some? {
      NextPageContinues(rows, q, cursor);
      assert page.items[|page.items| - 1] in all;
      forall r | r in all ensures r in page.items || r in all[Limit(q)..] {
        assert all == all[..Limit(q)] + all[Limit(q)..];
      }
    }
  }

  lemma {:induction false} ReceivedIsAfterCursor(tables: seq<seq<Row>>, q: Query, cursor: Option<int>)
    requires OnlyGrows(tables) && Limit(q) > 0
    ensures AscendingIds(Received(tables, q, cursor))
    ensures forall r :: r in Received(tables, q, cursor) ==> Selects(q, cursor, r)
  {
    if tables == [] {
    } else {
      var page := Page(tables[0], q, cursor);
      PageSplitsListing(tables[0], q, cursor);
      if page.nextCursor.Some? {
        var rest := Received(tables[1..], q, page.nextCursor);
        ReceivedIsAfterCursor(tables[1..], q, page.nextCursor);
        AscendingAppend(page.items, rest, page.nextCursor.value);
      }
    }
  }

  lemma AscendingAppend(a: seq<Row>, b: seq<Row>, between: int)
    requires AscendingIds(a) && AscendingIds(b)
    requires forall r :: r in a ==> r.id <= between
    requires forall r :: r in b ==> between < r.id
    ensures AscendingIds(a + b)
  {
    assert forall k :: 0 <= k < |a| ==> a[k] in a;
    assert forall k :: 0 <= k < |b| ==> b[k] in b;
  }

  /**
    Rows inserted between two pages disturb nothing: no row is received twice, each one received
    is a selected row of the final table, and every selected row that was there at the start is received.
   */
  lemma {:induction false} GrowthDisturbsNothing(tables: seq<seq<Row>>, q: Query, cursor: Option<int>)
    requires OnlyGrows(tables) && Limit(q) > 0 && Finished(tables, q, cursor)
    ensures AscendingIds(Received(tables, q, cursor))
    ensures forall r :: r in Received(tables, q, cursor) ==> r in tables[|tables| - 1] && Selects(q, cursor, r)
    ensures forall r :: r in tables[0] && Selects(q, cursor, r) ==> r in Received(tables, q, cursor)
  {
    ReceivedIsAfterCursor(tables, q, cursor);
    var page := Page(tables[0], q, cursor);
    PageSplitsListing(tables[0], q, cursor);
    forall r | r in tables[0] ensures r in tables[|tables| - 1] {
      StaysInTable(tables, r);
    }
    if page.nextCursor.Some? {
      GrowthDisturbsNothing(tables[1..], q, page.nextCursor);
    }
  }

  /** The cursor that page k is asked for with; None if the walk has ended before. */
  ghost function CursorAt(tables: seq<seq<Row>>, q: Query, cursor: Option<int>, k: nat): Option<Option<int>>
    requires k < |tables|
    decreases k
  {
    if k == 0 then Some(cursor)
    else
      var next := Page(tables[0], q, cursor).nextCursor;
      if next.None? then None else CursorAt(tables[1..], q, next, k - 1)
  }

  /**
    A row that is first there for page k is received if and only if page k is asked for and its cursor
    has not passed the row: a row inserted behind the cursor is never seen by this walk.
   */
  lemma {:induction false} LateRowReceivedIff(tables: seq<seq<Row>>, q: Query, cursor: Option<int>, k: nat, r: Row)
    requires OnlyGrows(tables) && Limit(q) > 0 && Finished(tables, q, cursor)
    requires k < |tables| && r in tables[k] && forall j :: 0 <= j < k ==> r !in tables[j]
    ensures r in Received(tables, q, cursor)
       <==> CursorAt(tables, q, cursor, k).Some? && Selects(q, CursorAt(tables, q, cursor, k).value, r)
    decreases k
  {
    var page := Page(tables[0], q, cursor);
    if k == 0 {
      GrowthDisturbsNothing(tables, q, cursor);
    } else {
      PageSplitsListing(tables[0], q, cursor);
      assert r !in page.items;
      if page.nextCursor.Some? {
        assert forall j :: 0 <= j < k - 1 ==> r !in tables[j + 1] && tables[1..][j] == tables[j + 1];
        LateRowReceivedIff(tables[1..], q, page.nextCursor, k - 1, r);
      }
    }
  }

  lemma {:induction false} StaysInTable(tables: seq<seq<Row>>, r: Row)
    requires OnlyGrows(tables) && tables != [] && r in tables[0]
    ensures r in tables[|tables| - 1]
  {
    if |tables| > 1 {
      StaysInTable(tables[1..], r);
    }
  }

  // ------------------------------------------------------------ the query in its own terms

  /** What a client who follows the cursors gets: the rows the filters ask for, and at least one row a page. */
  lemma WalkReturnsExactly(rows: seq<Row>, q: Query, r: Row)
    requires UniqueIds(rows) && q.limit != Some(0)
    ensures r in Flatten(Walk(rows, q, None))
       <==> && r in rows
            && (q.resourceType.Some? ==> r.resourceType == q.resourceType.value)
            && (q.namespace.Some? ==> r.namespace == q.namespace.value)
  {
    WalkIsTheListing(rows, q, None);
  }

  /** One page: the rows past the cursor that the filters ask for, up to the limit, 50 by default and 200 at most. */
  lemma PageHoldsUpTo(rows: seq<Row>, q: Query, cursor: Option<int>)
    requires UniqueIds(rows)
    ensures var limit := if q.limit.None? then 50 else if q.limit.value <= 200 then q.limit.value else 200;
      var items := Page(rows, q, cursor).items;
      && |items| <= limit && AscendingIds(items)
      && (forall r :: r in items ==> IsAskedFor(rows, q, cursor, r))
      && (forall r :: IsAskedFor(rows, q, cursor, r) && r !in items ==>
            |items| == limit && forall x :: x in items ==> x.id < r.id)
  {
    var all, items := Listing(rows, q, cursor), Page(rows, q, cursor).items;
    ListingIsAscending(rows, q, cursor);
    assert forall r :: IsAskedFor(rows, q, cursor, r) <==> r in all;
    assert forall k :: 0 <= k < |items| ==> items[k] == all[k] && all[k] in all;
  }

  ghost predicate IsAskedFor(rows: seq<Row>, q: Query, cursor: Option<int>, r: Row) {
    && r in rows && (cursor.Some? ==> cursor.value < r.id)
    && (q.resourceType.Some? ==> r.resourceType == q.resourceType.value)
    && (q.namespace.Some? ==> r.namespace == q.namespace.value)
  }
}
