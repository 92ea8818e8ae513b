/** Following `next_cursor` to its end, while the store goes on taking orders. */
module PageWalk {
  import opened Common
  import opened Bytes
  import opened Base64Url
  import opened Cursor
  import opened OrderHistory

  /** The store and the window as one request finds them; an open window ends at the current time. */
  datatype View = View(table: seq<Row>, query: Query)

  /** How a client reads on, one request per view, until a page has no cursor. */
  function Walk(
    cal: Calendar, less: (string, string) -> bool, views: seq<View>, cursor: Option<string>, limit: nat
  ): seq<Response> {
    if views == [] then []
    else
      var r := GetHistory(cal, less, views[0].table, views[0].query, cursor, limit);
      if r.Served? && r.page.next.Some? then [r] + Walk(cal, less, views[1..], r.page.next, limit) else [r]
  }

  function Orders(pages: seq<Response>): seq<Row> {
    if pages == [] then []
    else (if pages[0].Served? then pages[0].page.orders else []) + Orders(pages[1..])
  }

  function History(less: (string, string) -> bool, v: View): seq<Row> {
    Listing(less, v.table, v.query, None)
  }

  ghost predicate ValidView(v: View) {
    OneRowPerId(v.table) && Stored(v.table)
  }

  /**
    `later` still holds every row of `first`, its window may end later, and what was inserted
    since is newer than everything `first` showed.
   */
  ghost predicate Extends(less: (string, string) -> bool, first: View, later: View) {
    && later.query.(until := first.query.until) == first.query
    && first.query.until <= later.query.until
    && (forall r :: r in first.table ==> r in later.table)
    && (forall r, s :: r in later.table && r !in first.table && s in first.table && InWindow(s, first.query) ==>
          KeyLess(less, s.key, r.key))
  }

  /** Below the k-th row of the first view, a later view lists exactly the rows not yet seen. */
  lemma UnseenIsSuffix(less: (string, string) -> bool, first: View, later: View, k: nat)
    requires TotalOrder(less) && ValidView(first) && ValidView(later) && Extends(less, first, later)
    requires 0 < k <= |History(less, first)|
    ensures Listing(less, later.table, later.query, Some(History(less, first)[k - 1].key)) == History(less, first)[k..]
  {
    hide Listing;
    var all := History(less, first);
    var before := Some(all[k - 1].key);
    var unseen := Listing(less, later.table, later.query, before);
    ListingIsWindow(less, first.table, first.query, None);
    ListingIsWindow(less, later.table, later.query, before);
    KeyOrder(less);
    assert all[k - 1] in all;
    forall r ensures r in unseen <==> r in all[k..] {
      SuffixIsBelow(less, all, k, r);
      if KeyLess(less, r.key, all[k - 1].key) {
        StillInWindow(less, first, later, all[k - 1], r);
      }
    }
    DescendingUnique(less, unseen, all[k..]);
  }

  /** Of descending rows, those below the k-th are those behind it. */
  lemma SuffixIsBelow(less: (string, string) -> bool, all: seq<Row>, k: nat, r: Row)
    requires TotalOrder(less) && Descending(less, all) && 0 < k <= |all|
    ensures r in all[k..] <==> r in all && KeyLess(less, r.key, all[k - 1].key)
  {
  }

  /** Below a row that was shown at first, both views show the same rows. */
  lemma StillInWindow(less: (string, string) -> bool, first: View, later: View, shown: Row, r: Row)
    requires TotalOrder(less) && Extends(less, first, later)
    requires shown in first.table && InWindow(shown, first.query) && KeyLess(less, r.key, shown.key)
    ensures r in later.table && InWindow(r, later.query) <==> r in first.table && InWindow(r, first.query)
  {
  }

  /**
    A request is refused exactly when it carries a cursor that does not decode to a position;
    without one it lists from the top.
   */
  lemma MalformedIsRefused(
    cal: Calendar, less: (string, string) -> bool, table: seq<Row>, q: Query, cursor: Option<string>, limit: nat
  )
    ensures GetHistory(cal, less, table, q, cursor, limit) == Refused <==>
            && cursor != None && cursor.value != ""
            && var raw := DecodeUnpadded(cursor.value);
               raw == None || Utf8Decode(raw.value) == None || ReadKey(cal, Utf8Decode(raw.value).value) == Malformed
    ensures cursor == None || cursor.value == "" ==>
              GetHistory(cal, less, table, q, cursor, limit) ==
              Served(PageOf(cal, Take(Listing(less, table, q, None), limit + 1), limit))
  {
    hide DecodeUnpadded, Utf8Decode, ReadKey, Listing, PageOf, Take;
    ReadKeyIsNoFirstPage(cal);
  }

  lemma ReadKeyIsNoFirstPage(cal: Calendar)
    ensures forall text :: ReadKey(cal, text) != FirstPage
  {
  }

  // ---------------------------------------------------------------- the whole walk

  function PagesNeeded(n: nat, limit: nat): (p: nat)
    requires limit > 0
    ensures p >= 1
  {
    if n <= limit then 1 else 1 + PagesNeeded(n - limit, limit)
  }

  /** The cursor that continues behind the first `k` rows; `first` itself is read without one. */
  ghost predicate ContinuesAt(
    cal: Calendar, less: (string, string) -> bool, first: View, now: View, cursor: Option<string>, k: nat
  ) {
    var all := History(less, first);
    && k <= |all|
    && if k == 0 then now == first && cursor == None else cursor == Some(EncodeCursor(cal, all[k - 1].key))
  }

  /** The rows a request finds behind its cursor are those the first view showed there. */
  lemma RowsFrom(
    cal: Calendar, less: (string, string) -> bool, first: View, now: View, cursor: Option<string>, k: nat, limit: nat
  )
    requires Faithful(cal) && TotalOrder(less) && ValidView(first) && ValidView(now) && Extends(less, first, now)
    requires ContinuesAt(cal, less, first, now, cursor, k)
    ensures GetHistory(cal, less, now.table, now.query, cursor, limit) ==
            Served(PageOf(cal, Take(History(less, first)[k..], limit + 1), limit))
  {
    var all := History(less, first);
    if k == 0 {
      assert all[0..] == all;
    } else {
      ListingIsWindow(less, first.table, first.query, None);
      assert all[k - 1] in all;
      CursorRoundTrip(cal, all[k - 1].key);
      UnseenIsSuffix(less, first, now, k);
      hide ParseCursor, EncodeCursor, Listing, PageOf, Take, Faithful, TotalOrder, Extends, ValidView;
    }
  }

  lemma PageOfRows(cal: Calendar, rows: seq<Row>, limit: nat)
    requires limit > 0
    ensures PageOf(cal, Take(rows, limit + 1), limit) ==
            if |rows| > limit then Page(rows[..limit], Some(EncodeCursor(cal, rows[limit - 1].key)))
            else Page(rows, None)
  {
    hide EncodeCursor;
    assert |rows| > limit ==> rows[..limit + 1][..limit] == rows[..limit];
  }

  /** `w` is a finished walk over `rows`: full pages, and only the last without a cursor. */
  ghost predicate Reads(w: seq<Response>, rows: seq<Row>, limit: nat)
    requires limit > 0
  {
    && |w| == PagesNeeded(|rows|, limit)
    && Orders(w) == rows
    && (forall i :: 0 <= i < |w| ==> w[i].Served? && (w[i].page.next == None <==> i == |w| - 1))
    && (forall i :: 0 <= i < |w| - 1 ==> |w[i].page.orders| == limit)
  }

  lemma ReadsMore(r: Response, w: seq<Response>, rows: seq<Row>, limit: nat)
    requires 0 < limit < |rows| && Reads(w, rows[limit..], limit)
    requires r.Served? && r.page.orders == rows[..limit] && r.page.next.Some?
    ensures Reads([r] + w, rows, limit)
  {
  }

  lemma ReadsLast(r: Response, rows: seq<Row>, limit: nat)
    requires 0 < limit && |rows| <= limit && r == Served(Page(rows, None))
    ensures Reads([r], rows, limit)
  {
  }

  /** The cursor stands where `rest` is what the first view showed behind it. */
  ghost predicate Awaits(
    cal: Calendar, less: (string, string) -> bool, first: View, now: View, cursor: Option<string>, rest: seq<Row>
  ) {
    var all := History(less, first);
    && |rest| <= |all| && rest == all[|all| - |rest|..]
    && ContinuesAt(cal, less, first, now, cursor, |all| - |rest|)
  }

  /** One request serves the next rows that the first view showed, and says where to go on. */
  lemma PageStep(
    cal: Calendar, less: (string, string) -> bool, first: View, now: View, cursor: Option<string>,
    rest: seq<Row>, limit: nat, next: View
  )
    requires Faithful(cal) && TotalOrder(less) && ValidView(first) && ValidView(now) && Extends(less, first, now)
    requires limit > 0 && Awaits(cal, less, first, now, cursor, rest)
    ensures var r := GetHistory(cal, less, now.table, now.query, cursor, limit);
            && r.Served?
            && if |rest| > limit
               then
                 && r.page.orders == rest[..limit] && r.page.next.Some?
                 && Awaits(cal, less, first, next, r.page.next, rest[limit..])
               else r.page == Page(rest, None)
  {
    hide GetHistory, EncodeCursor, History, Faithful, TotalOrder, Extends, ValidView, PageOf, Take;
    var all := History(less, first);
    RowsFrom(cal, less, first, now, cursor, |all| - |rest|, limit);
    PageOfRows(cal, rest, limit);
    if |rest| > limit {
      SuffixOfSuffix(all, rest, limit);
    }
  }

  lemma SuffixOfSuffix(all: seq<Row>, rest: seq<Row>, n: nat)
    requires 0 < n < |rest| <= |all| && rest == all[|all| - |rest|..]
    ensures |rest[n..]| == |rest| - n && rest[n..] == all[|all| - |rest[n..]|..]
            && rest[n - 1] == all[|all| - |rest[n..]| - 1]
  {
  }

  /** Every view is valid and extends the first. */
  ghost predicate AllExtend(less: (string, string) -> bool, first: View, views: seq<View>) {
    forall v :: v in views ==> ValidView(v) && Extends(less, first, v)
  }

  lemma TailExtends(less: (string, string) -> bool, first: View, views: seq<View>)
    requires AllExtend(less, first, views) && views != []
    ensures ValidView(views[0]) && Extends(less, first, views[0]) && AllExtend(less, first, views[1..])
  {
    hide ValidView, Extends;
  }

  lemma WalkOn(cal: Calendar, less: (string, string) -> bool, views: seq<View>, cursor: Option<string>, limit: nat)
    requires views != []
    ensures var r := GetHistory(cal, less, views[0].table, views[0].query, cursor, limit);
            Walk(cal, less, views, cursor, limit) ==
            if r.Served? && r.page.next.Some? then [r] + Walk(cal, less, views[1..], r.page.next, limit) else [r]
  {
    hide GetHistory;
  }

  /** A walk reads in order what its cursor awaits. */
  lemma {:induction false} WalkFrom(
    cal: Calendar, less: (string, string) -> bool, first: View, views: seq<View>, cursor: Option<string>,
    rest: seq<Row>, limit: nat
  )
    requires Faithful(cal) && TotalOrder(less) && ValidView(first) && AllExtend(less, first, views)
    requires limit > 0 && views != [] && Awaits(cal, less, first, views[0], cursor, rest)
    requires |views| >= PagesNeeded(|rest|, limit)
    ensures Reads(Walk(cal, less, views, cursor, limit), rest, limit)
    decreases |views|
  {
    assert |rest| > limit ==> |views| >= 1 + PagesNeeded(|rest| - limit, limit);
    hide GetHistory, Faithful, TotalOrder, Extends, ValidView, Reads, PagesNeeded, Awaits, AllExtend, Walk;
    TailExtends(less, first, views);
    WalkOn(cal, less, views, cursor, limit);
    var r := GetHistory(cal, less, views[0].table, views[0].query, cursor, limit);
    if |rest| > limit {
      PageStep(cal, less, first, views[0], cursor, rest, limit, views[1]);
      WalkFrom(cal, less, first, views[1..], r.page.next, rest[limit..], limit);
      ReadsMore(r, Walk(cal, less, views[1..], r.page.next, limit), rest, limit);
    } else {
      PageStep(cal, less, first, views[0], cursor, rest, limit, first);
      ReadsLast(r, rest, limit);
    }
  }

  /**
    Pagination is complete: read to its end, a walk serves every order of the window exactly
    once, strictly newest first, in as few pages as the limit allows, whatever newer orders
    are inserted between its requests.
   */
  lemma WalkVisitsAll(cal: Calendar, less: (string, string) -> bool, views: seq<View>, limit: nat)
    requires Faithful(cal) && TotalOrder(less) && limit > 0 && views != [] && AllExtend(less, views[0], views)
    requires |views| >= PagesNeeded(|History(less, views[0])|, limit)
    ensures var w, first := Walk(cal, less, views, None, limit), views[0];
            && Reads(w, History(less, first), limit)
            && Descending(less, Orders(w))
            && (forall r :: r in Orders(w) <==> r in first.table && InWindow(r, first.query))
  {
    hide AllExtend, Walk, PagesNeeded, History, Descending, InWindow, Faithful, TotalOrder, Awaits, ValidView, Extends;
    var first := views[0];
    TailExtends(less, first, views);
    HistoryIsWindow(less, first);
    AwaitsAll(cal, less, first);
    WalkFrom(cal, less, first, views, None, History(less, first), limit);
  }

  lemma HistoryIsWindow(less: (string, string) -> bool, v: View)
    requires TotalOrder(less) && ValidView(v)
    ensures Descending(less, History(less, v))
    ensures forall r :: r in History(less, v) <==> r in v.table && InWindow(r, v.query)
  {
    hide Listing;
    ListingIsWindow(less, v.table, v.query, None);
  }

  /** Before the first request, the whole history is awaited. */
  lemma AwaitsAll(cal: Calendar, less: (string, string) -> bool, first: View)
    ensures Awaits(cal, less, first, first, None, History(less, first))
  {
    hide History;
    var all := History(less, first);
    assert all[0..] == all;
  }

  /** The number of pages is the least positive one that has room for every row. */
  lemma {:induction false} PagesNeededIsCeiling(n: nat, limit: nat)
    requires limit > 0
    ensures var p := PagesNeeded(n, limit);
            && n <= p * limit
            && (p == 1 || (p - 1) * limit < n)
  {
    if n > limit {
      PagesNeededIsCeiling(n - limit, limit);
      var p := PagesNeeded(n - limit, limit);
      assert (p + 1) * limit == p * limit + limit && p * limit == (p - 1) * limit + limit;
    }
  }
}
