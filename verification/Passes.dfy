/** Whole reconcile passes over the store, account group by account group. */
module Passes {
  import opened Common
  import opened Sequences
  import opened Orders
  import opened Lifecycle
  import opened Reconcile
  import opened PlanSoundness
  import opened FillConservation
  import OrderStores

  type Store = OrderStores.Store

  /** The rows of one account group and its venue snapshot; `None` when the venue could not be read. */
  datatype Group = Group(cids: seq<string>, snapshot: Option<seq<VenueItem>>)

  datatype PassState = PassState(store: Store, claimed: set<string>, applied: nat)

  /** The rows of a listing that are still in the working set, in listing order. */
  function Working(store: Store, cids: seq<string>): seq<string> {
    if cids == [] then []
    else
      var last := cids[|cids| - 1];
      Working(store, cids[..|cids| - 1])
      + (if last in store && InWorkingSet(store[last]) then [last] else [])
  }

  /** Handles the rows already hold when the pass reaches the account. */
  function HeldHandles(store: Store, rows: seq<string>): set<string> {
    set c | c in rows && c in store && store[c].handle.Some? :: store[c].handle.value
  }

  function PassRow(v: Venue, s: PassState, cid: string, items: seq<VenueItem>, now: int): PassState {
    if cid !in s.store then s
    else
      var o := s.store[cid];
      var r := RowStep(v, o, items, s.claimed, now, true);
      PassState(s.store[cid := r.order], ClaimedAfter(o, items, s.claimed, now, true), s.applied + r.applied)
  }

  function PassRows(v: Venue, s: PassState, rows: seq<string>, items: seq<VenueItem>, now: int): PassState {
    if rows == [] then s
    else PassRow(v, PassRows(v, s, rows[..|rows| - 1], items, now), rows[|rows| - 1], items, now)
  }

  function AccountPass(v: Venue, store: Store, rows: seq<string>, items: seq<VenueItem>, now: int): PassState {
    PassRows(v, PassState(store, HeldHandles(store, rows), 0), rows, items, now)
  }

  /** One pass over every group; a group whose snapshot failed is skipped. */
  datatype PassResult = PassResult(store: Store, applied: nat)

  function FullPass(v: Venue, store: Store, groups: seq<Group>, now: int): PassResult {
    if groups == [] then PassResult(store, 0)
    else
      var before := FullPass(v, store, groups[..|groups| - 1], now);
      var g := groups[|groups| - 1];
      if g.snapshot.None? then before
      else
        var s := AccountPass(v, before.store, Working(before.store, g.cids), g.snapshot.value, now);
        PassResult(s.store, before.applied + s.applied)
  }

  // ---------------------------------------------------------------- what a pass keeps

  ghost predicate AllSettled(store: Store) {
    forall c :: c in store ==> Settled(store[c])
  }

  /** Recorded fill ids leave every higher counter value free. */
  ghost predicate AllFresh(store: Store) {
    forall c :: c in store ==> CounterFresh(store[c])
  }

  /** `later` has the same orders, each a continuation, and differs only on `rows`. */
  ghost predicate Advances(store: Store, later: Store, rows: seq<string>) {
    && store.Keys == later.Keys
    && (forall c :: c in store ==> Continues(store[c], later[c]))
    && (forall c :: c in store && c !in rows ==> later[c] == store[c])
  }

  lemma ContinuesReflexive(o: Order)
    requires Settled(o)
    ensures Continues(o, o)
  {
  }

  lemma {:induction false} WorkingSound(store: Store, cids: seq<string>)
    ensures forall c :: c in Working(store, cids) <==> c in cids && c in store && InWorkingSet(store[c])
    ensures |Working(store, cids)| <= |cids|
    ensures Distinct(cids) ==> Distinct(Working(store, cids))
  {
    hide Distinct;
    if cids == [] {
      EmptyDistinct<string>();
    } else {
      var init := cids[..|cids| - 1];
      WorkingSound(store, init);
      assert cids == init + [cids[|cids| - 1]];
      if Distinct(cids) {
        InitDistinct(cids);
        AppendDistinct(Working(store, init), cids[|cids| - 1]);
        assert Working(store, init) + [] == Working(store, init);
      }
    }
  }

  lemma {:induction false} PassRowsAdvances(v: Venue, s: PassState, rows: seq<string>, items: seq<VenueItem>, now: int)
    requires AllSettled(s.store) && Distinct(rows)
    requires forall c :: c in rows ==> c in s.store && InWorkingSet(s.store[c])
    ensures var t := PassRows(v, s, rows, items, now);
            AllSettled(t.store) && Advances(s.store, t.store, rows) && (AllFresh(s.store) ==> AllFresh(t.store))
  {
    hide Settled, CounterFresh, Continues, RowStep, ClaimedAfter, InWorkingSet;
    if rows == [] {
      forall c | c in s.store ensures Continues(s.store[c], s.store[c]) { ContinuesReflexive(s.store[c]); }
    } else {
      var init, cid := rows[..|rows| - 1], rows[|rows| - 1];
      assert rows == init + [cid];
      PassRowsAdvances(v, s, init, items, now);
      var t := PassRows(v, s, init, items, now);
      assert cid !in init;
      RowContinues(v, t.store[cid], items, t.claimed, now, true);
      if AllFresh(s.store) {
        RowCounter(v, t.store[cid], items, t.claimed, now, true);
      }
      AdvanceOne(s.store, t.store, init, cid, RowStep(v, t.store[cid], items, t.claimed, now, true).order);
    }
  }

  lemma AdvanceOne(store: Store, mid: Store, rows: seq<string>, cid: string, o: Order)
    requires AllSettled(mid) && Advances(store, mid, rows) && cid in mid && cid !in rows
    requires Continues(mid[cid], o)
    ensures AllSettled(mid[cid := o]) && Advances(store, mid[cid := o], rows + [cid])
    ensures AllFresh(mid) && CounterFresh(o) ==> AllFresh(mid[cid := o])
  {
    hide Settled, CounterFresh, Continues;
    SettledOf(mid[cid], o);
  }

  lemma SettledOf(o: Order, later: Order)
    requires Continues(o, later)
    ensures Settled(later)
  {
  }

  lemma AccountPassAdvances(v: Venue, store: Store, cids: seq<string>, items: seq<VenueItem>, now: int)
    requires AllSettled(store) && Distinct(cids)
    ensures var t := AccountPass(v, store, Working(store, cids), items, now);
            AllSettled(t.store) && Advances(store, t.store, cids) && (AllFresh(store) ==> AllFresh(t.store))
  {
    hide Settled, CounterFresh, Continues, PassRows, InWorkingSet;
    WorkingSound(store, cids);
    var rows := Working(store, cids);
    PassRowsAdvances(v, PassState(store, HeldHandles(store, rows), 0), rows, items, now);
  }

  /** All rows of all groups. */
  function AllRows(groups: seq<Group>): seq<string> {
    if groups == [] then [] else AllRows(groups[..|groups| - 1]) + groups[|groups| - 1].cids
  }

  lemma {:induction false} FullPassAdvances(v: Venue, store: Store, groups: seq<Group>, now: int)
    requires AllSettled(store) && Distinct(AllRows(groups))
    ensures var r := FullPass(v, store, groups, now);
            AllSettled(r.store) && Advances(store, r.store, AllRows(groups)) && (AllFresh(store) ==> AllFresh(r.store))
  {
    hide AllSettled, AllFresh, Advances, AccountPass, Working, Distinct;
    if groups == [] {
      AdvancesReflexive(store);
    } else {
      var init, g := groups[..|groups| - 1], groups[|groups| - 1];
      GroupRows(groups);
      FullPassAdvances(v, store, init, now);
      var before := FullPass(v, store, init, now);
      if g.snapshot.Some? {
        AccountPassAdvances(v, before.store, g.cids, g.snapshot.value, now);
        var t := AccountPass(v, before.store, Working(before.store, g.cids), g.snapshot.value, now);
        AdvancesTransitive(store, before.store, t.store, AllRows(init), g.cids, AllRows(groups));
      } else {
        AdvancesWider(store, before.store, AllRows(init), AllRows(groups));
      }
    }
  }

  lemma AdvancesReflexive(store: Store)
    requires AllSettled(store)
    ensures Advances(store, store, [])
  {
    hide Settled, Continues;
    forall c | c in store ensures Continues(store[c], store[c]) { ContinuesReflexive(store[c]); }
  }

  lemma AdvancesTransitive(store: Store, mid: Store, later: Store, a: seq<string>, b: seq<string>, rows: seq<string>)
    requires Advances(store, mid, a) && Advances(mid, later, b) && forall c :: c in a || c in b ==> c in rows
    ensures Advances(store, later, rows)
  {
    hide Continues;
    forall c | c in store ensures Continues(store[c], later[c]) { ContinuesTransitive(store[c], mid[c], later[c]); }
  }

  lemma AdvancesWider(store: Store, later: Store, a: seq<string>, rows: seq<string>)
    requires Advances(store, later, a) && forall c :: c in a ==> c in rows
    ensures Advances(store, later, rows)
  {
    hide Continues;
  }

  lemma GroupRows(groups: seq<Group>)
    requires groups != [] && Distinct(AllRows(groups))
    ensures var init, g := groups[..|groups| - 1], groups[|groups| - 1];
            && Distinct(AllRows(init)) && Distinct(g.cids)
            && (forall c :: c in AllRows(groups) <==> c in AllRows(init) || c in g.cids)
            && (forall c :: c in AllRows(init) ==> c !in g.cids)
  {
    var a, b := AllRows(groups[..|groups| - 1]), groups[|groups| - 1].cids;
    assert AllRows(groups) == a + b;
    hide AllRows, Distinct;
    SplitDistinct(a, b);
  }
}
