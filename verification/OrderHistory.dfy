/** Order history: keyset pagination, newest first, through the opaque cursor. */
module OrderHistory {
  import opened Common
  import opened Cursor
  import opened Sorting

  datatype Row = Row(account: string, broker: string, key: Key)

  /** The window of one request. */
  datatype Query = Query(account: string, broker: string, since: int, until: int)

  /** The collation of order ids: any strict total order. */
  ghost predicate TotalOrder(less: (string, string) -> bool) {
    && (forall a :: !less(a, a))
    && (forall a, b :: less(a, b) || less(b, a) || a == b)
    && (forall a, b, c :: less(a, b) && less(b, c) ==> less(a, c))
  }

  function KeyLess(less: (string, string) -> bool, a: Key, b: Key): bool {
    a.createdAt.instant < b.createdAt.instant || (a.createdAt.instant == b.createdAt.instant && less(a.id, b.id))
  }

  function Newer(less: (string, string) -> bool): (Row, Row) -> bool {
    (a: Row, b: Row) => KeyLess(less, b.key, a.key)
  }

  // ---------------------------------------------------------------- the query

  predicate InWindow(r: Row, q: Query) {
    r.account == q.account && r.broker == q.broker && q.since <= r.key.createdAt.instant < q.until
  }

  predicate Below(less: (string, string) -> bool, r: Row, before: Option<Key>) {
    before.Some? ==> KeyLess(less, r.key, before.value)
  }

  function Matching(less: (string, string) -> bool, table: seq<Row>, q: Query, before: Option<Key>): seq<Row> {
    if table == [] then []
    else
      var rest := Matching(less, table[..|table| - 1], q, before);
      var r := table[|table| - 1];
      if InWindow(r, q) && Below(less, r, before) then rest + [r] else rest
  }

  /** Everything the query would return without its limit. */
  function Listing(less: (string, string) -> bool, table: seq<Row>, q: Query, before: Option<Key>): seq<Row> {
    Sort(Matching(less, table, q, before), Newer(less))
  }

  function Take(rows: seq<Row>, n: nat): seq<Row> {
    if |rows| <= n then rows else rows[..n]
  }

  // ---------------------------------------------------------------- one page

  datatype Page = Page(orders: seq<Row>, next: Option<string>)

  /** `rows` was fetched with one row to spare, which only tells that there is more. */
  function PageOf(cal: Calendar, rows: seq<Row>, limit: nat): Page {
    var page := Take(rows, limit);
    Page(page, if |rows| > limit && page != [] then Some(EncodeCursor(cal, page[|page| - 1].key)) else None)
  }

  datatype Fill = Fill(brokerFillId: string, price: real, quantity: int, execTs: int)

  datatype Body = Body(row: Row, fills: seq<Fill>)

  /** The response body: each order of the page with its own fills, and where to go on. */
  method AssemblePage(cal: Calendar, rows: seq<Row>, fills: map<string, seq<Fill>>, limit: nat)
    returns (orders: seq<Body>, next: Option<string>)
    ensures Page(seq(|orders|, k requires 0 <= k < |orders| => orders[k].row), next) == PageOf(cal, rows, limit)
    ensures forall k :: 0 <= k < |orders| ==>
              orders[k].fills == if orders[k].row.key.id in fills then fills[orders[k].row.key.id] else []
  {
    var page := Take(rows, limit);
    var more := |rows| > limit;
    orders := [];
    for i := 0 to |page|
      invariant |orders| == i
      invariant forall k :: 0 <= k < i ==>
        orders[k] == Body(page[k], if page[k].key.id in fills then fills[page[k].key.id] else [])
    {
      var id := page[i].key.id;
      orders := orders + [Body(page[i], if id in fills then fills[id] else [])];
    }
    next := if more && page != [] then Some(EncodeCursor(cal, page[|page| - 1].key)) else None;
    assert seq(|orders|, k requires 0 <= k < |orders| => orders[k].row) == page;
  }

  datatype Response = Served(page: Page) | Refused

  function GetHistory(
    cal: Calendar, less: (string, string) -> bool, table: seq<Row>, q: Query, cursor: Option<string>, limit: nat
  ): Response {
    match ParseCursor(cal, cursor)
    case Malformed => Refused
    case FirstPage => Served(PageOf(cal, Take(Listing(less, table, q, None), limit + 1), limit))
    case From(key) => Served(PageOf(cal, Take(Listing(less, table, q, Some(key)), limit + 1), limit))
  }

  // ---------------------------------------------------------------- a listing is the window, in order

  /** One row per id. */
  ghost predicate OneRowPerId(rows: seq<Row>) {
    forall i, j :: 0 <= i < j < |rows| ==> rows[i].key.id != rows[j].key.id
  }

  /** What the store guarantees of its rows: zoned timestamps and no empty id. */
  ghost predicate Stored(rows: seq<Row>) {
    forall r :: r in rows ==> r.key.createdAt.aware && r.key.id != ""
  }

  ghost predicate Descending(less: (string, string) -> bool, rows: seq<Row>) {
    forall i, j :: 0 <= i < j < |rows| ==> KeyLess(less, rows[j].key, rows[i].key)
  }

  lemma KeyOrder(less: (string, string) -> bool)
    requires TotalOrder(less)
    ensures WeakOrder(Newer(less))
    ensures forall a, b: Key :: KeyLess(less, a, b) ==> !KeyLess(less, b, a)
    ensures forall a, b: Key ::
              || KeyLess(less, a, b) || KeyLess(less, b, a)
              || (a.id == b.id && a.createdAt.instant == b.createdAt.instant)
  {
  }

  lemma {:induction false} MatchingIs(less: (string, string) -> bool, table: seq<Row>, q: Query, before: Option<Key>)
    ensures var m := Matching(less, table, q, before);
            forall r :: r in m <==> r in table && InWindow(r, q) && Below(less, r, before)
  {
    hide InWindow, Below;
    if table != [] {
      var rest, r := table[..|table| - 1], table[|table| - 1];
      MatchingIs(less, rest, q, before);
      assert table == rest + [r];
    }
  }

  lemma {:induction false} MatchingDistinct(
    less: (string, string) -> bool, table: seq<Row>, q: Query, before: Option<Key>
  )
    requires OneRowPerId(table)
    ensures OneRowPerId(Matching(less, table, q, before))
  {
    hide InWindow, Below;
    if table != [] {
      var rest, last := table[..|table| - 1], table[|table| - 1];
      MatchingDistinct(less, rest, q, before);
      MatchingIs(less, rest, q, before);
      var m := Matching(less, rest, q, before);
      forall i | 0 <= i < |m| ensures m[i].key.id != last.key.id {
        assert m[i] in rest;
      }
    }
  }

  lemma {:induction false} DistinctOnce(rows: seq<Row>)
    requires OneRowPerId(rows)
    ensures forall r :: r in rows ==> multiset(rows)[r] == 1
  {
    if rows != [] {
      var rest, last := rows[..|rows| - 1], rows[|rows| - 1];
      DistinctOnce(rest);
      assert rows == rest + [last];
      assert last !in rest;
    }
  }

  lemma TwicePresent(s: seq<Row>, i: int, j: int)
    requires 0 <= i < j < |s| && s[i] == s[j]
    ensures multiset(s)[s[i]] >= 2
  {
    assert s == s[..j] + s[j..];
    assert s[i] in s[..j] && s[j] in s[j..];
  }

  /** Rearranging rows keeps them distinct. */
  lemma PermutedDistinct(m: seq<Row>, s: seq<Row>)
    requires OneRowPerId(m) && multiset(m) == multiset(s)
    ensures OneRowPerId(s)
  {
    DistinctOnce(m);
    forall i, j | 0 <= i < j < |s| ensures s[i].key.id != s[j].key.id {
      assert s[i] in multiset(m) && s[j] in multiset(m);
      if s[i] == s[j] {
        TwicePresent(s, i, j);
      }
    }
  }

  /** The row is of the account, the broker and the half-open window. */
  predicate Asked(r: Row, q: Query) {
    && r.account == q.account && r.broker == q.broker
    && r.key.createdAt.instant >= q.since && !(r.key.createdAt.instant >= q.until)
  }

  lemma InWindowIs(r: Row, q: Query)
    ensures InWindow(r, q) <==> Asked(r, q)
  {
  }

  /** Rows in order, no two of one id, descend strictly. */
  lemma OrderedDescends(less: (string, string) -> bool, s: seq<Row>)
    requires TotalOrder(less) && OneRowPerId(s) && Ordered(s, Newer(less))
    ensures Descending(less, s)
  {
    KeyOrder(less);
    hide TotalOrder, WeakOrder, KeyLess;
    forall i, j | 0 <= i < j < |s| ensures KeyLess(less, s[j].key, s[i].key) {
      assert !Newer(less)(s[j], s[i]);
    }
  }

  /** The listing holds exactly the matching rows, each once, strictly newest first. */
  lemma ListingIsWindow(less: (string, string) -> bool, table: seq<Row>, q: Query, before: Option<Key>)
    requires TotalOrder(less) && OneRowPerId(table)
    ensures var s := Listing(less, table, q, before);
            && Descending(less, s)
            && (forall r :: r in s <==> r in table && InWindow(r, q) && Below(less, r, before))
            && (forall r :: r in s ==> Asked(r, q))
  {
    forall r ensures InWindow(r, q) <==> Asked(r, q) { InWindowIs(r, q); }
    hide InWindow, Below, Matching, Sort, Asked, Descending, TotalOrder, OneRowPerId, Ordered;
    var m := Matching(less, table, q, before);
    var s := Listing(less, table, q, before);
    KeyOrder(less);
    MatchingIs(less, table, q, before);
    MatchingDistinct(less, table, q, before);
    SortSorts(m, Newer(less));
    hide WeakOrder;
    PermutedDistinct(m, s);
    OrderedDescends(less, s);
    assert forall r :: r in s <==> r in multiset(s);
    assert forall r :: r in m <==> r in multiset(m);
  }

  /** Strictly descending rows are determined by which rows they are. */
  lemma {:induction false} DescendingUnique(less: (string, string) -> bool, a: seq<Row>, b: seq<Row>)
    requires TotalOrder(less) && Descending(less, a) && Descending(less, b)
    requires forall r :: r in a <==> r in b
    ensures a == b
  {
    KeyOrder(less);
    hide KeyLess;
    assert a != [] ==> a[0] in b;
    assert b != [] ==> b[0] in a;
    if a != [] {
      assert a[0] == b[0];
      TailElements(less, a);
      TailElements(less, b);
      DescendingUnique(less, a[1..], b[1..]);
    }
  }

  lemma TailElements(less: (string, string) -> bool, a: seq<Row>)
    requires TotalOrder(less) && Descending(less, a) && a != []
    ensures forall r :: r in a[1..] <==> r in a && r != a[0]
  {
  }
}
