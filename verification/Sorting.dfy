/** A stable sort: the order that ORDER BY and sorted() share. */
module Sorting {

  /** `s` is never out of order; equal elements may stand in any order. */
  ghost predicate Ordered<T(!new)>(s: seq<T>, before: (T, T) -> bool) {
    forall i, j :: 0 <= i < j < |s| ==> !before(s[j], s[i])
  }

  /** What `before` has to be for sorting to make sense: no cycles, and ties are transitive. */
  ghost predicate WeakOrder<T(!new)>(before: (T, T) -> bool) {
    && (forall a, b :: before(a, b) ==> !before(b, a))
    && (forall a, b, c :: before(a, c) ==> before(a, b) || before(b, c))
  }

  /** `x` goes behind everything it does not have to precede. */
  function Insert<T>(x: T, s: seq<T>, before: (T, T) -> bool): seq<T> {
    if s == [] || !before(x, s[|s| - 1]) then s + [x]
    else Insert(x, s[..|s| - 1], before) + [s[|s| - 1]]
  }

  function Sort<T>(s: seq<T>, before: (T, T) -> bool): seq<T> {
    if s == [] then [] else Insert(s[|s| - 1], Sort(s[..|s| - 1], before), before)
  }

  lemma {:induction false} InsertElements<T>(x: T, s: seq<T>, before: (T, T) -> bool)
    ensures multiset(Insert(x, s, before)) == multiset(s) + multiset{x}
  {
    if s != [] && before(x, s[|s| - 1]) {
      InsertElements(x, s[..|s| - 1], before);
      assert s == s[..|s| - 1] + [s[|s| - 1]];
    }
  }

  lemma {:induction false} InsertOrdered<T(!new)>(x: T, s: seq<T>, before: (T, T) -> bool)
    requires WeakOrder(before) && Ordered(s, before)
    ensures Ordered(Insert(x, s, before), before)
  {
    if s != [] && before(x, s[|s| - 1]) {
      var last, rest := s[|s| - 1], s[..|s| - 1];
      InsertOrdered(x, rest, before);
      InsertElements(x, rest, before);
      var r := Insert(x, rest, before);
      forall i | 0 <= i < |r| ensures !before(last, r[i]) {
        assert r[i] in multiset(r);
        assert r[i] == x || r[i] in rest;
      }
    } else if s != [] {
      var last := s[|s| - 1];
      assert forall i :: 0 <= i < |s| ==> !before(last, s[i]);
      assert forall i :: 0 <= i < |s| && before(x, s[i]) ==> before(x, last) || before(last, s[i]);
    }
  }

  lemma EmptyOrdered<T(!new)>(before: (T, T) -> bool)
    ensures Ordered<T>([], before)
  {
  }

  lemma {:induction false} SortSorts<T(!new)>(s: seq<T>, before: (T, T) -> bool)
    requires WeakOrder(before)
    ensures Ordered(Sort(s, before), before) && multiset(Sort(s, before)) == multiset(s)
  {
    hide Insert, Ordered, WeakOrder;
    if s == [] {
      EmptyOrdered(before);
    } else {
      var x, rest := s[|s| - 1], s[..|s| - 1];
      SortSorts(rest, before);
      InsertOrdered(x, Sort(rest, before), before);
      InsertElements(x, Sort(rest, before), before);
      assert s == rest + [x];
    }
  }

  // ---------------------------------------------------------------- ties

  /** Neither of the two has to precede the other. */
  predicate Tied<T>(a: T, b: T, before: (T, T) -> bool) {
    !before(a, b) && !before(b, a)
  }

  /** The elements tied with `x`, in the order in which they stand. */
  function Ties<T>(s: seq<T>, x: T, before: (T, T) -> bool): seq<T> {
    if s == [] then []
    else
      var rest, last := Ties(s[..|s| - 1], x, before), s[|s| - 1];
      if Tied(last, x, before) then rest + [last] else rest
  }

  lemma TiesAppend<T>(s: seq<T>, e: T, x: T, before: (T, T) -> bool)
    ensures Ties(s + [e], x, before) == if Tied(e, x, before) then Ties(s, x, before) + [e] else Ties(s, x, before)
  {
    assert (s + [e])[..|s|] == s;
  }

  lemma {:induction false} InsertKeepsTies<T(!new)>(e: T, s: seq<T>, x: T, before: (T, T) -> bool)
    requires WeakOrder(before)
    ensures Ties(Insert(e, s, before), x, before) == Ties(s + [e], x, before)
  {
    hide Ties;
    if s != [] && before(e, s[|s| - 1]) {
      var rest, last := s[..|s| - 1], s[|s| - 1];
      assert s == rest + [last];
      InsertKeepsTies(e, rest, x, before);
      TiesAppend(Insert(e, rest, before), last, x, before);
      TiesAppend(rest, last, x, before);
      TiesAppend(rest, e, x, before);
      TiesAppend(s, e, x, before);
      assert !(Tied(e, x, before) && Tied(last, x, before));
    }
  }

  /** The sort is stable: elements tied with one another keep the order of the input. */
  lemma {:induction false} SortIsStable<T(!new)>(s: seq<T>, x: T, before: (T, T) -> bool)
    requires WeakOrder(before)
    ensures Ties(Sort(s, before), x, before) == Ties(s, x, before)
  {
    hide Ties, Insert, WeakOrder;
    if s != [] {
      var rest, e := s[..|s| - 1], s[|s| - 1];
      assert s == rest + [e];
      SortIsStable(rest, x, before);
      InsertKeepsTies(e, Sort(rest, before), x, before);
      TiesAppend(Sort(rest, before), e, x, before);
      TiesAppend(rest, e, x, before);
    }
  }
}
