/** Against a fixed snapshot and clock, reconciliation spends a bounded budget and stops. */
module Convergence {
  import opened Common
  import opened Sequences
  import opened Orders
  import opened Lifecycle
  import opened Reconcile
  import opened PlanSoundness
  import opened FillConservation
  import opened Passes
  import opened Claims

  /** Every order is settled and can record every higher counter value. */
  ghost predicate Healthy(store: Store) {
    AllSettled(store) && AllFresh(store)
  }

  /** The snapshot shows more matched under the order's handle than is recorded. */
  predicate Behind(o: Order, items: seq<VenueItem>) {
    var i := Bound(o, items);
    i.Some? && i.value.matched > Total(o.fills)
  }

  /** How many more actions the snapshot can still cause on this row. */
  function Budget(o: Order, items: seq<VenueItem>): nat {
    match o.status
    case PendingNew => 3
    case New => if Behind(o, items) then 2 else 1
    case PartiallyFilled => if Behind(o, items) then 2 else 1
    case PendingCancel => 1
    case _ => 0
  }

  lemma {:induction false} LookupUnique(items: seq<VenueItem>, i: VenueItem)
    requires DistinctNumbers(items) && i in items
    ensures Lookup(items, i.orderNo) == Some(i)
  {
    var init, last := items[..|items| - 1], items[|items| - 1];
    assert items == init + [last];
    if last != i {
      LookupUnique(init, i);
    }
  }

  lemma PlanSize(v: Venue, o: Order, i: VenueItem)
    requires Fillable(o, i)
    ensures |PlanPresent(v, o, Total(o.fills), i)| ==
            (if o.status.PendingNew? then 1 else 0)
            + (if i.matched > Total(o.fills) && FillPriceFor(v, o, i).Some? then 1 else 0)
            + (if i.matched < o.quantity && !i.state.Resting? then 1 else 0)
  {
  }

  lemma PresentBudget(v: Venue, o: Order, items: seq<VenueItem>, i: VenueItem)
    requires Settled(o) && CounterFresh(o) && Fillable(o, i) && DistinctNumbers(items) && i in items
    requires o.handle.Some? ==> i.orderNo != "" && o.handle.value == i.orderNo
    ensures var r := ExecuteAll(o, PlanPresent(v, o, Total(o.fills), i));
            r.applied + Budget(r.order, items) <= Budget(o, items)
  {
    hide Audited, Mirrored, Extends, ExecuteAll, PlanPresent, FillPriceFor, FillId, CounterFresh, Total;
    hide Lookup, DistinctNumbers;
    var r := ExecuteAll(o, PlanPresent(v, o, Total(o.fills), i));
    LookupUnique(items, i);
    PlanSize(v, o, i);
    var _, _ := PresentPlan(v, o, i);
    PresentOutcome(v, o, i);
    PresentCounter(v, o, i);
  }

  /** A row step applies at most what it takes off the row's budget; spending nothing changes nothing. */
  lemma RowBudget(v: Venue, o: Order, items: seq<VenueItem>, claimed: set<string>, now: int)
    requires Settled(o) && CounterFresh(o) && InWorkingSet(o) && DistinctNumbers(items)
    ensures var r := RowStep(v, o, items, claimed, now, true);
            && r.applied + Budget(r.order, items) <= Budget(o, items)
            && (r.applied == 0 ==> r.order == o)
  {
    hide Audited, Mirrored, Extends, ExecuteAll, PlanPresent, CounterFresh, Total, Lookup, DistinctNumbers, Candidates;
    var r := Resolve(o, items, claimed, now, true);
    ResolveSound(o, items, claimed, now, true);
    RowContinues(v, o, items, claimed, now, true);
    NoPlan(o);
    if r.item.Some? && Fillable(o, r.item.value) {
      PresentBudget(v, o, items, r.item.value);
    } else {
      OtherOutcome(v, o, r.item, now, r.ambiguous);
    }
  }

  function Spend(store: Store, rows: seq<string>, items: seq<VenueItem>): nat {
    if rows == [] then 0
    else
      var c := rows[|rows| - 1];
      Spend(store, rows[..|rows| - 1], items) + (if c in store then Budget(store[c], items) else 0)
  }

  lemma {:induction false} SpendFrame(store: Store, later: Store, rows: seq<string>, items: seq<VenueItem>)
    requires forall c :: c in rows ==> (c in store <==> c in later) && (c in store ==> later[c] == store[c])
    ensures Spend(later, rows, items) == Spend(store, rows, items)
  {
    hide Budget;
    if rows != [] {
      SpendFrame(store, later, rows[..|rows| - 1], items);
    }
  }

  lemma {:induction false} SpendBound(store: Store, rows: seq<string>, items: seq<VenueItem>)
    ensures Spend(store, rows, items) <= 3 * |rows|
  {
    if rows != [] {
      SpendBound(store, rows[..|rows| - 1], items);
    }
  }

  /** Rows outside the working set have nothing left to spend, before the pass or after it. */
  lemma {:induction false} SpendIdle(store: Store, later: Store, cids: seq<string>, items: seq<VenueItem>)
    requires store.Keys == later.Keys
    requires forall c :: c in cids && c in store && !InWorkingSet(store[c]) ==> later[c] == store[c]
    ensures Spend(later, cids, items) == Spend(later, Working(store, cids), items)
  {
    if cids != [] {
      var init, last := cids[..|cids| - 1], cids[|cids| - 1];
      SpendIdle(store, later, init, items);
      var w := Working(store, cids);
      if last in store && InWorkingSet(store[last]) {
        assert w[..|w| - 1] == Working(store, init);
      } else {
        assert w == Working(store, init);
      }
    }
  }

  lemma {:induction false} PassRowsSpend(v: Venue, s: PassState, rows: seq<string>, items: seq<VenueItem>, now: int)
    requires Healthy(s.store) && Distinct(rows) && DistinctNumbers(items)
    requires forall c :: c in rows ==> c in s.store && InWorkingSet(s.store[c])
    ensures var t := PassRows(v, s, rows, items, now);
            && t.applied + Spend(t.store, rows, items) <= s.applied + Spend(s.store, rows, items)
            && t.applied >= s.applied
            && (t.applied == s.applied ==> t.store == s.store)
  {
    hide Settled, CounterFresh, Continues, RowStep, ClaimedAfter, InWorkingSet, Budget, DistinctNumbers;
    if rows != [] {
      var init, cid := rows[..|rows| - 1], rows[|rows| - 1];
      assert rows == init + [cid];
      PassRowsSpend(v, s, init, items, now);
      PassRowsAdvances(v, s, init, items, now);
      var t := PassRows(v, s, init, items, now);
      assert cid !in init && t.store[cid] == s.store[cid];
      RowBudget(v, t.store[cid], items, t.claimed, now);
      SpendFrame(t.store, PassRows(v, s, rows, items, now).store, init, items);
      assert t.store[cid := t.store[cid]] == t.store;
    }
  }

  lemma AccountSpend(v: Venue, store: Store, cids: seq<string>, items: seq<VenueItem>, now: int)
    requires Healthy(store) && Distinct(cids) && DistinctNumbers(items)
    ensures var t := AccountPass(v, store, Working(store, cids), items, now);
            && t.applied + Spend(t.store, cids, items) <= Spend(store, cids, items)
            && (t.applied == 0 ==> t.store == store)
  {
    hide Settled, CounterFresh, Continues, PassRows, DistinctNumbers;
    var rows := Working(store, cids);
    WorkingSound(store, cids);
    var s := PassState(store, HeldHandles(store, rows), 0);
    PassRowsSpend(v, s, rows, items, now);
    PassRowsAdvances(v, s, rows, items, now);
    var t := AccountPass(v, store, rows, items, now);
    SpendIdle(store, store, cids, items);
    SpendIdle(store, t.store, cids, items);
  }

  // ---------------------------------------------------------------- passes over all groups

  function TotalSpend(store: Store, groups: seq<Group>): nat {
    if groups == [] then 0
    else
      var g := groups[|groups| - 1];
      TotalSpend(store, groups[..|groups| - 1])
      + (if g.snapshot.Some? then Spend(store, g.cids, g.snapshot.value) else 0)
  }

  ghost predicate DistinctSnapshots(groups: seq<Group>) {
    forall g :: g in groups && g.snapshot.Some? ==> DistinctNumbers(g.snapshot.value)
  }

  lemma {:induction false} TotalSpendBound(store: Store, groups: seq<Group>)
    ensures TotalSpend(store, groups) <= 3 * |AllRows(groups)|
  {
    if groups != [] {
      TotalSpendBound(store, groups[..|groups| - 1]);
      var g := groups[|groups| - 1];
      if g.snapshot.Some? {
        SpendBound(store, g.cids, g.snapshot.value);
      }
    }
  }

  lemma {:induction false} TotalSpendFrame(store: Store, later: Store, groups: seq<Group>)
    requires store.Keys == later.Keys && Distinct(AllRows(groups))
    requires forall c :: c in AllRows(groups) && c in store ==> later[c] == store[c]
    ensures TotalSpend(later, groups) == TotalSpend(store, groups)
  {
    if groups != [] {
      var init, g := groups[..|groups| - 1], groups[|groups| - 1];
      GroupRows(groups);
      TotalSpendFrame(store, later, init);
      if g.snapshot.Some? {
        SpendFrame(store, later, g.cids, g.snapshot.value);
      }
    }
  }

  lemma {:induction false} FullPassSpend(v: Venue, store: Store, groups: seq<Group>, now: int)
    requires Healthy(store) && Distinct(AllRows(groups)) && DistinctSnapshots(groups)
    ensures var r := FullPass(v, store, groups, now);
            && r.applied + TotalSpend(r.store, groups) <= TotalSpend(store, groups)
            && (r.applied == 0 ==> r.store == store)
  {
    hide Settled, CounterFresh, Continues, AccountPass, Working, Spend, DistinctNumbers;
    if groups != [] {
      var init, g := groups[..|groups| - 1], groups[|groups| - 1];
      GroupRows(groups);
      FullPassSpend(v, store, init, now);
      FullPassAdvances(v, store, init, now);
      var before := FullPass(v, store, init, now);
      if g.snapshot.Some? {
        AccountSpend(v, before.store, g.cids, g.snapshot.value, now);
        AccountPassAdvances(v, before.store, g.cids, g.snapshot.value, now);
        var t := AccountPass(v, before.store, Working(before.store, g.cids), g.snapshot.value, now);
        TotalSpendFrame(before.store, t.store, init);
        SpendFrame(store, before.store, g.cids, g.snapshot.value);
      }
    }
  }

  /** `n` passes in a row against the same snapshots and clock. */
  function Repeat(v: Venue, store: Store, groups: seq<Group>, now: int, n: nat): PassResult {
    if n == 0 then PassResult(store, 0)
    else
      var before := Repeat(v, store, groups, now, n - 1);
      var r := FullPass(v, before.store, groups, now);
      PassResult(r.store, before.applied + r.applied)
  }

  /** No pass beyond this state applies anything. */
  predicate Quiescent(v: Venue, store: Store, groups: seq<Group>, now: int) {
    FullPass(v, store, groups, now) == PassResult(store, 0)
  }

  lemma {:induction false} RepeatSpend(v: Venue, store: Store, groups: seq<Group>, now: int, n: nat)
    requires Healthy(store) && Distinct(AllRows(groups)) && DistinctSnapshots(groups)
    ensures var r := Repeat(v, store, groups, now, n);
            && Healthy(r.store) && r.applied + TotalSpend(r.store, groups) <= TotalSpend(store, groups)
            && (r.applied >= n || Quiescent(v, r.store, groups, now))
  {
    hide AllSettled, AllFresh, Advances, TotalSpend, FullPass, DistinctSnapshots, Distinct;
    if n > 0 {
      RepeatSpend(v, store, groups, now, n - 1);
      var before := Repeat(v, store, groups, now, n - 1);
      FullPassSpend(v, before.store, groups, now);
      FullPassAdvances(v, before.store, groups, now);
    }
  }

  /**
    Convergence: any number of passes over n rows applies at most 3n actions in total, and
    after 3n passes a further pass applies none and changes nothing.
   */
  lemma ReconciliationConverges(v: Venue, store: Store, groups: seq<Group>, now: int)
    requires Healthy(store) && Distinct(AllRows(groups)) && DistinctSnapshots(groups)
    ensures forall k: nat :: Repeat(v, store, groups, now, k).applied <= 3 * |AllRows(groups)|
    ensures forall k: nat :: k >= 3 * |AllRows(groups)| ==>
            Quiescent(v, Repeat(v, store, groups, now, k).store, groups, now)
  {
    hide Healthy, TotalSpend, FullPass, DistinctSnapshots, Distinct, Quiescent;
    var n := 3 * |AllRows(groups)|;
    TotalSpendBound(store, groups);
    forall k: nat ensures Repeat(v, store, groups, now, k).applied <= n {
      RepeatSpend(v, store, groups, now, k);
    }
    forall k: nat | k >= n ensures Quiescent(v, Repeat(v, store, groups, now, k).store, groups, now) {
      RepeatSpend(v, store, groups, now, k);
      if Repeat(v, store, groups, now, k).applied >= k {
        SpentIsQuiescent(v, Repeat(v, store, groups, now, k).store, groups, now);
      }
    }
  }

  lemma SpentIsQuiescent(v: Venue, store: Store, groups: seq<Group>, now: int)
    requires Healthy(store) && Distinct(AllRows(groups)) && DistinctSnapshots(groups)
    requires TotalSpend(store, groups) == 0
    ensures Quiescent(v, store, groups, now)
  {
    hide Healthy, FullPass, DistinctSnapshots, Distinct;
    FullPassSpend(v, store, groups, now);
  }
}
