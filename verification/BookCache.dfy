/** The order-book cache: an LRU list refined against a history of publishes and reads. */
module BookCache {
  import opened Common
  import opened Sequences

  type Key = (string, Market)

  datatype Book = Book(symbol: string, market: Market, receivedAt: int, version: nat)

  function KeyOf(b: Book): Key {
    (b.symbol, b.market)
  }

  /** Keys oldest first, as the ordered dictionary keeps them, with their books. */
  datatype Cache = Cache(order: seq<Key>, books: map<Key, Book>)

  predicate IsFresh(b: Book, now: int, maxAge: int) {
    now - b.receivedAt <= maxAge
  }

  // ---------------------------------------------------------------- sequences of keys

  function Remove(s: seq<Key>, k: Key): seq<Key> {
    if s == [] then []
    else Remove(s[..|s| - 1], k) + (if s[|s| - 1] == k then [] else [s[|s| - 1]])
  }

  /** The last `n` elements. */
  function Newest(s: seq<Key>, n: nat): seq<Key> {
    if |s| <= n then s else s[|s| - n..]
  }

  function Touch(s: seq<Key>, k: Key): seq<Key> {
    Remove(s, k) + [k]
  }

  lemma {:induction false} RemoveIs(s: seq<Key>, k: Key)
    requires Distinct(s)
    ensures Distinct(Remove(s, k))
    ensures forall x :: x in Remove(s, k) <==> x in s && x != k
    ensures |Remove(s, k)| == if k in s then |s| - 1 else |s|
  {
    if s != [] {
      var init, last := s[..|s| - 1], s[|s| - 1];
      assert s == init + [last];
      assert last !in init;
      RemoveIs(init, k);
    }
  }

  lemma {:induction false} RemoveConcat(a: seq<Key>, b: seq<Key>, k: Key)
    ensures Remove(a + b, k) == Remove(a, k) + Remove(b, k)
  {
    if b == [] {
      assert a + b == a;
    } else {
      var init, last := b[..|b| - 1], b[|b| - 1];
      RemoveConcat(a, init, k);
      assert (a + b)[..|a + b| - 1] == a + init && (a + b)[|a + b| - 1] == last;
      var tail := if last == k then [] else [last];
      assert Remove(b, k) == Remove(init, k) + tail;
      assert Remove(a + b, k) == Remove(a + init, k) + tail;
    }
  }

  lemma NewestDistinct(s: seq<Key>, n: nat)
    requires Distinct(s)
    ensures Distinct(Newest(s, n)) && forall x :: x in Newest(s, n) ==> x in s
  {
  }

  lemma NewestSuffix(a: seq<Key>, b: seq<Key>, n: nat)
    requires n <= |b|
    ensures Newest(a + b, n) == Newest(b, n)
  {
  }

  /** Touching a key and cutting to size commutes with having cut to size before. */
  lemma TouchNewest(s: seq<Key>, k: Key, n: nat)
    requires Distinct(s)
    ensures Newest(Touch(s, k), n) == Newest(Touch(Newest(s, n), k), n)
  {
    if |s| > n {
      var a, b := s[..|s| - n], Newest(s, n);
      assert s == a + b;
      NewestDistinct(s, n);
      RemoveConcat(a, b, k);
      RemoveIs(b, k);
      assert Touch(s, k) == Remove(a, k) + Touch(b, k);
      NewestSuffix(Remove(a, k), Touch(b, k), n);
    }
  }

  // ---------------------------------------------------------------- the cache operations

  function Restrict(books: map<Key, Book>, order: seq<Key>): map<Key, Book> {
    map k | k in books && k in order :: books[k]
  }

  lemma SuffixDistinct(s: seq<Key>, n: nat)
    requires Distinct(s) && n <= |s|
    ensures Distinct(s[n..]) && forall k :: k in s[n..] ==> k in s
  {
  }

  lemma DropFirst(books: map<Key, Book>, s: seq<Key>, n: nat)
    requires Distinct(s) && n < |s|
    ensures Restrict(books, s[n..]) - {s[n]} == Restrict(books, s[n..][1..])
  {
  }

  function Published(c: Cache, b: Book, maxSymbols: nat): Cache {
    var order := Newest(Touch(c.order, KeyOf(b)), maxSymbols);
    Cache(order, Restrict(c.books[KeyOf(b) := b], order))
  }

  function Lookup(c: Cache, k: Key, now: int, maxAge: int): Option<Book> {
    if k in c.books && IsFresh(c.books[k], now, maxAge) then Some(c.books[k]) else None
  }

  function AfterGet(c: Cache, k: Key, now: int, maxAge: int): Cache {
    if Lookup(c, k, now, maxAge).Some? then c.(order := Touch(c.order, k)) else c
  }

  class OrderBookService {
    const maxSymbols: nat
    const maxAge: int
    var order: seq<Key>
    var books: map<Key, Book>

    constructor (maxSymbols: nat, maxAge: int)
      ensures this.maxSymbols == maxSymbols && this.maxAge == maxAge && State() == Cache([], map[])
    {
      this.maxSymbols, this.maxAge := maxSymbols, maxAge;
      order, books := [], map[];
    }

    function State(): Cache
      reads this
    {
      Cache(order, books)
    }

    /** Every key of the dictionary is listed once. */
    ghost predicate Valid()
      reads this
    {
      Distinct(order) && forall k :: k in books <==> k in order
    }

    method MoveToEnd(k: Key)
      modifies this`order
      ensures order == Touch(old(order), k)
    {
      order := Remove(order, k) + [k];
    }

    /** Store the book as the most recent key, then evict from the old end while over capacity. */
    method Publish(b: Book)
      requires Valid()
      modifies this
      ensures Valid() && State() == Published(old(State()), b, maxSymbols)
    {
      RemoveIs(order, KeyOf(b));
      books := books[KeyOf(b) := b];
      MoveToEnd(KeyOf(b));
      Evict();
    }

    method Evict()
      requires Valid()
      modifies this
      ensures Valid() && order == Newest(old(order), maxSymbols) && books == Restrict(old(books), order)
    {
      hide Distinct;
      ghost var was, full := order, books;
      ghost var n := 0;
      assert Restrict(full, order) == full;
      while |order| > maxSymbols
        invariant n <= |was| && order == was[n..] && (n > 0 ==> |order| >= maxSymbols)
        invariant books == Restrict(full, order)
        decreases |order|
      {
        DropFirst(full, was, n);
        books := books - {order[0]};
        order := order[1..];
        n := n + 1;
      }
      SuffixDistinct(was, n);
    }

    /** A stale entry reads as absent and is not touched. */
    method Get(k: Key, now: int) returns (b: Option<Book>)
      requires Valid()
      modifies this`order
      ensures Valid() && b == Lookup(old(State()), k, now, maxAge) && State() == AfterGet(old(State()), k, now, maxAge)
    {
      if k !in books {
        return None;
      }
      if now - books[k].receivedAt > maxAge {
        return None;
      }
      RemoveIs(order, k);
      MoveToEnd(k);
      return Some(books[k]);
    }
  }

  // ---------------------------------------------------------------- the history specification

  datatype Use = Pub(book: Book) | Look(key: Key, now: int)

  function Run(uses: seq<Use>, maxSymbols: nat, maxAge: int): Cache {
    if uses == [] then Cache([], map[])
    else
      var before := Run(uses[..|uses| - 1], maxSymbols, maxAge);
      match uses[|uses| - 1]
      case Pub(b) => Published(before, b, maxSymbols)
      case Look(k, now) => AfterGet(before, k, now, maxAge)
  }

  /** The book last published under a key. */
  function LastBook(uses: seq<Use>, k: Key): Option<Book> {
    if uses == [] then None
    else
      var u := uses[|uses| - 1];
      if u.Pub? && KeyOf(u.book) == k then Some(u.book) else LastBook(uses[..|uses| - 1], k)
  }

  /** A read that counts as a touch: the key is among the most recent ones and its book is fresh. */
  predicate Hit(uses: seq<Use>, k: Key, now: int, maxSymbols: nat, maxAge: int)
    decreases |uses|, 1
  {
    && k in Newest(Recency(uses, maxSymbols, maxAge), maxSymbols)
    && LastBook(uses, k).Some? && now <= LastBook(uses, k).value.receivedAt + maxAge
  }

  predicate Touches(uses: seq<Use>, u: Use, k: Key, maxSymbols: nat, maxAge: int)
  {
    match u
    case Pub(b) => KeyOf(b) == k
    case Look(q, now) => q == k && Hit(uses, k, now, maxSymbols, maxAge)
  }

  /** Every key ever published, by its last touch, with no bound on their number. */
  function Recency(uses: seq<Use>, maxSymbols: nat, maxAge: int): seq<Key>
    decreases |uses|, 0
  {
    if uses == [] then []
    else
      var before := Recency(uses[..|uses| - 1], maxSymbols, maxAge);
      match uses[|uses| - 1]
      case Pub(b) => Touch(before, KeyOf(b))
      case Look(k, now) =>
        if Hit(uses[..|uses| - 1], k, now, maxSymbols, maxAge) then Touch(before, k) else before
  }

  /** When a key was last touched; -1 for never. */
  function LastTouch(uses: seq<Use>, k: Key, maxSymbols: nat, maxAge: int): int {
    if uses == [] then -1
    else if Touches(uses[..|uses| - 1], uses[|uses| - 1], k, maxSymbols, maxAge) then |uses| - 1
    else LastTouch(uses[..|uses| - 1], k, maxSymbols, maxAge)
  }

  lemma TouchIs(s: seq<Key>, k: Key)
    requires Distinct(s)
    ensures Distinct(Touch(s, k)) && forall x :: x in Touch(s, k) <==> x in s || x == k
  {
    RemoveIs(s, k);
  }

  /** The unbounded list holds each published key once. */
  lemma {:induction false} RecencyIs(uses: seq<Use>, maxSymbols: nat, maxAge: int)
    ensures var u := Recency(uses, maxSymbols, maxAge);
            Distinct(u) && forall k :: k in u <==> LastBook(uses, k).Some?
  {
    hide Distinct, IsFresh, Newest, Touch;
    if uses == [] {
      EmptyDistinct<Key>();
    } else {
      var init := uses[..|uses| - 1];
      RecencyIs(init, maxSymbols, maxAge);
      var u := uses[|uses| - 1];
      TouchIs(Recency(init, maxSymbols, maxAge), if u.Pub? then KeyOf(u.book) else u.key);
      if u.Look? && Hit(init, u.key, u.now, maxSymbols, maxAge) {
        assert u.key in Recency(init, maxSymbols, maxAge);
      }
    }
  }

  /** The cache matches the specification: the newest keys of the unbounded list, each with its last book. */
  ghost predicate Refines(c: Cache, uses: seq<Use>, maxSymbols: nat, maxAge: int) {
    && c.order == Newest(Recency(uses, maxSymbols, maxAge), maxSymbols)
    && (forall k :: k in c.books <==> k in c.order)
    && (forall k :: k in c.order ==> k in c.books && LastBook(uses, k) == Some(c.books[k]))
  }

  lemma AfterPub(init: seq<Use>, b: Book, maxSymbols: nat, maxAge: int)
    ensures Recency(init + [Pub(b)], maxSymbols, maxAge) == Touch(Recency(init, maxSymbols, maxAge), KeyOf(b))
    ensures forall k :: LastBook(init + [Pub(b)], k) == if k == KeyOf(b) then Some(b) else LastBook(init, k)
  {
  }

  lemma AfterLook(init: seq<Use>, q: Key, now: int, maxSymbols: nat, maxAge: int)
    ensures var u := Recency(init, maxSymbols, maxAge);
            Recency(init + [Look(q, now)], maxSymbols, maxAge) ==
            if Hit(init, q, now, maxSymbols, maxAge) then Touch(u, q) else u
    ensures forall k :: LastBook(init + [Look(q, now)], k) == LastBook(init, k)
  {
  }

  lemma RestrictIs(books: map<Key, Book>, order: seq<Key>)
    ensures var r := Restrict(books, order);
            forall k :: (k in r <==> k in books && k in order) && (k in r ==> r[k] == books[k])
  {
  }

  lemma PubRefines(c: Cache, init: seq<Use>, b: Book, maxSymbols: nat, maxAge: int)
    requires Refines(c, init, maxSymbols, maxAge)
    ensures Refines(Published(c, b, maxSymbols), init + [Pub(b)], maxSymbols, maxAge)
  {
    hide Distinct, Recency, LastBook, Newest, Touch, Restrict;
    AfterPub(init, b, maxSymbols, maxAge);
    RecencyIs(init, maxSymbols, maxAge);
    var u := Recency(init, maxSymbols, maxAge);
    TouchNewest(u, KeyOf(b), maxSymbols);
    NewestDistinct(u, maxSymbols);
    TouchedDistinct(c.order, KeyOf(b), maxSymbols);
    RestrictIs(c.books[KeyOf(b) := b], Newest(Touch(c.order, KeyOf(b)), maxSymbols));
  }

  lemma TouchedDistinct(s: seq<Key>, k: Key, n: nat)
    requires Distinct(s)
    ensures forall x :: x in Newest(Touch(s, k), n) ==> x in s || x == k
  {
    TouchIs(s, k);
    NewestDistinct(Touch(s, k), n);
  }

  lemma LookRefines(c: Cache, init: seq<Use>, k: Key, now: int, maxSymbols: nat, maxAge: int)
    requires Refines(c, init, maxSymbols, maxAge)
    ensures Refines(AfterGet(c, k, now, maxAge), init + [Look(k, now)], maxSymbols, maxAge)
    ensures Lookup(c, k, now, maxAge) == if Hit(init, k, now, maxSymbols, maxAge) then LastBook(init, k) else None
  {
    hide Distinct, Recency, LastBook, Newest, Touch;
    AfterLook(init, k, now, maxSymbols, maxAge);
    RecencyIs(init, maxSymbols, maxAge);
    var u := Recency(init, maxSymbols, maxAge);
    TouchNewest(u, k, maxSymbols);
    NewestDistinct(u, maxSymbols);
    TouchIs(c.order, k);
    TouchSize(c.order, k);
    NewestShort(u, k, maxSymbols);
  }

  /** Touching a listed key needs no eviction. */
  lemma NewestShort(u: seq<Key>, k: Key, n: nat)
    requires Distinct(u)
    ensures k in Newest(u, n) ==> Newest(Touch(Newest(u, n), k), n) == Touch(Newest(u, n), k)
  {
    NewestDistinct(u, n);
    TouchSize(Newest(u, n), k);
  }

  lemma TouchSize(s: seq<Key>, k: Key)
    requires Distinct(s)
    ensures k in s ==> |Touch(s, k)| == |s|
  {
    RemoveIs(s, k);
  }

  /**
    Refinement: after any history of publishes and reads the cache is the specification's, so a
    read returns the last published book of a recent key if it is fresh, and nothing otherwise.
   */
  lemma {:induction false} CacheRefinesHistory(uses: seq<Use>, maxSymbols: nat, maxAge: int)
    ensures Refines(Run(uses, maxSymbols, maxAge), uses, maxSymbols, maxAge)
    ensures forall k: Key, now: int ::
              Lookup(Run(uses, maxSymbols, maxAge), k, now, maxAge) ==
              if Hit(uses, k, now, maxSymbols, maxAge) then LastBook(uses, k) else None
  {
    hide Published, AfterGet, Refines, Hit, Lookup;
    if uses == [] {
      EmptyRefines(maxSymbols, maxAge);
    } else {
      var init, u := uses[..|uses| - 1], uses[|uses| - 1];
      CacheRefinesHistory(init, maxSymbols, maxAge);
      assert uses == init + [u];
      match u
      case Pub(b) => PubRefines(Run(init, maxSymbols, maxAge), init, b, maxSymbols, maxAge);
      case Look(k, now) => LookRefines(Run(init, maxSymbols, maxAge), init, k, now, maxSymbols, maxAge);
    }
    forall k: Key, now: int
      ensures Lookup(Run(uses, maxSymbols, maxAge), k, now, maxAge) ==
              if Hit(uses, k, now, maxSymbols, maxAge) then LastBook(uses, k) else None
    {
      LookRefines(Run(uses, maxSymbols, maxAge), uses, k, now, maxSymbols, maxAge);
    }
  }

  lemma EmptyRefines(maxSymbols: nat, maxAge: int)
    ensures Refines(Cache([], map[]), [], maxSymbols, maxAge)
  {
  }

  // ---------------------------------------------------------------- most recently touched

  ghost predicate ByTouch(s: seq<Key>, uses: seq<Use>, maxSymbols: nat, maxAge: int) {
    forall i, j :: 0 <= i < j < |s| ==>
      LastTouch(uses, s[i], maxSymbols, maxAge) < LastTouch(uses, s[j], maxSymbols, maxAge)
  }

  lemma {:induction false} RemoveByTouch(s: seq<Key>, k: Key, uses: seq<Use>, maxSymbols: nat, maxAge: int)
    requires ByTouch(s, uses, maxSymbols, maxAge) && Distinct(s)
    ensures ByTouch(Remove(s, k), uses, maxSymbols, maxAge)
  {
    hide LastTouch, Distinct;
    if s != [] {
      var init, last := s[..|s| - 1], s[|s| - 1];
      InitDistinct(s);
      RemoveByTouch(init, k, uses, maxSymbols, maxAge);
      RemoveIs(init, k);
      forall x | x in Remove(init, k)
        ensures LastTouch(uses, x, maxSymbols, maxAge) < LastTouch(uses, last, maxSymbols, maxAge)
      {
        var i :| 0 <= i < |init| && init[i] == x;
        assert s[i] == x;
      }
      AppendByTouch(Remove(init, k), last, uses, maxSymbols, maxAge);
      assert Remove(init, k) + [] == Remove(init, k);
    }
  }

  lemma AppendByTouch(s: seq<Key>, k: Key, uses: seq<Use>, maxSymbols: nat, maxAge: int)
    requires ByTouch(s, uses, maxSymbols, maxAge)
    requires forall x :: x in s ==> LastTouch(uses, x, maxSymbols, maxAge) < LastTouch(uses, k, maxSymbols, maxAge)
    ensures ByTouch(s + [k], uses, maxSymbols, maxAge)
  {
  }

  lemma TouchTime(init: seq<Use>, u: Use, k: Key, maxSymbols: nat, maxAge: int)
    ensures LastTouch(init + [u], k, maxSymbols, maxAge) ==
            if Touches(init, u, k, maxSymbols, maxAge) then |init| else LastTouch(init, k, maxSymbols, maxAge)
  {
  }

  lemma {:induction false} TouchBound(uses: seq<Use>, k: Key, maxSymbols: nat, maxAge: int)
    ensures -1 <= LastTouch(uses, k, maxSymbols, maxAge) < |uses|
  {
    hide Touches;
    if uses != [] {
      TouchBound(uses[..|uses| - 1], k, maxSymbols, maxAge);
    }
  }

  /** The unbounded list is ordered by last touch. */
  lemma {:induction false} RecencyByTouch(uses: seq<Use>, maxSymbols: nat, maxAge: int)
    ensures ByTouch(Recency(uses, maxSymbols, maxAge), uses, maxSymbols, maxAge)
  {
    hide LastTouch, LastBook, Newest, Hit;
    if uses != [] {
      var init, u := uses[..|uses| - 1], uses[|uses| - 1];
      assert uses == init + [u];
      RecencyByTouch(init, maxSymbols, maxAge);
      RecencyIs(init, maxSymbols, maxAge);
      var before := Recency(init, maxSymbols, maxAge);
      forall k ensures LastTouch(uses, k, maxSymbols, maxAge) ==
                       if Touches(init, u, k, maxSymbols, maxAge) then |init|
                       else LastTouch(init, k, maxSymbols, maxAge)
      {
        TouchTime(init, u, k, maxSymbols, maxAge);
      }
      var key := if u.Pub? then KeyOf(u.book) else u.key;
      if Touches(init, u, key, maxSymbols, maxAge) {
        RemoveByTouch(before, key, init, maxSymbols, maxAge);
        RemoveIs(before, key);
        var rest := Remove(before, key);
        forall x ensures LastTouch(init, x, maxSymbols, maxAge) < |init| { TouchBound(init, x, maxSymbols, maxAge); }
        assert forall i :: 0 <= i < |rest| ==> rest[i] in rest;
        AppendByTouch(rest, key, uses, maxSymbols, maxAge);
      }
    }
  }

  /** Where the kept keys stand in the whole list. */
  lemma NewestAt(u: seq<Key>, n: nat, i: nat)
    requires i < |u|
    ensures |Newest(u, n)| <= |u| && (|Newest(u, n)| == |u| || |Newest(u, n)| == n)
    ensures var m := |u| - |Newest(u, n)|;
            i < m || Newest(u, n)[i - m] == u[i]
  {
  }

  lemma KeptPosition(u: seq<Key>, n: nat, k: Key) returns (j: nat)
    requires k in Newest(u, n)
    ensures |u| - |Newest(u, n)| <= j < |u| && u[j] == k
  {
    var i :| 0 <= i < |Newest(u, n)| && Newest(u, n)[i] == k;
    j := |u| - |Newest(u, n)| + i;
  }

  /** In a list ordered by last touch, what the cut keeps was touched after what it drops. */
  lemma KeptIsNewer(u: seq<Key>, kept: Key, dropped: Key, uses: seq<Use>, maxSymbols: nat, maxAge: int)
    requires ByTouch(u, uses, maxSymbols, maxAge)
    requires kept in Newest(u, maxSymbols) && dropped in u && dropped !in Newest(u, maxSymbols)
    ensures LastTouch(uses, dropped, maxSymbols, maxAge) < LastTouch(uses, kept, maxSymbols, maxAge)
    ensures |Newest(u, maxSymbols)| == maxSymbols
  {
    hide LastTouch, Newest;
    var i :| 0 <= i < |u| && u[i] == dropped;
    var j := KeptPosition(u, maxSymbols, kept);
    NewestAt(u, maxSymbols, i);
  }

  /**
    The cache holds exactly the most recently touched keys: as many as fit, and every cached key
    was touched after every published key that is not cached.
   */
  lemma MostRecentlyTouched(uses: seq<Use>, maxSymbols: nat, maxAge: int, cached: Key, other: Key)
    requires cached in Run(uses, maxSymbols, maxAge).order
    requires LastBook(uses, other).Some? && other !in Run(uses, maxSymbols, maxAge).order
    ensures LastTouch(uses, other, maxSymbols, maxAge) < LastTouch(uses, cached, maxSymbols, maxAge)
    ensures |Run(uses, maxSymbols, maxAge).order| == maxSymbols
  {
    hide LastTouch, Run, Hit, Recency, LastBook, Distinct, ByTouch, Newest;
    CachedOrder(uses, maxSymbols, maxAge);
    RecencyIs(uses, maxSymbols, maxAge);
    RecencyByTouch(uses, maxSymbols, maxAge);
    KeptIsNewer(Recency(uses, maxSymbols, maxAge), cached, other, uses, maxSymbols, maxAge);
  }

  lemma CachedOrder(uses: seq<Use>, maxSymbols: nat, maxAge: int)
    ensures Run(uses, maxSymbols, maxAge).order == Newest(Recency(uses, maxSymbols, maxAge), maxSymbols)
  {
    CacheRefinesHistory(uses, maxSymbols, maxAge);
  }
}
