/** Within one pass no venue order is bound twice, and a price ladder resolves rung by rung. */
module Claims {
  import opened Common
  import opened Sequences
  import opened Orders
  import opened Lifecycle
  import opened Reconcile
  import opened PlanSoundness
  import opened FillConservation
  import opened Passes

  /** The row had no handle when the pass started and has one now. */
  predicate NewlyBound(store: Store, later: Store, c: string) {
    c in store && c in later && store[c].handle.None? && later[c].handle.Some?
  }

  /** A row step binds only a venue row nobody has claimed, and claims it. */
  lemma BindingClaims(v: Venue, o: Order, items: seq<VenueItem>, claimed: set<string>, now: int, requireStuck: bool)
    requires Settled(o) && InWorkingSet(o) && o.handle.None?
    ensures var later := RowStep(v, o, items, claimed, now, requireStuck).order;
            later.handle.Some? ==>
              later.handle.value !in claimed && later.handle.value in ClaimedAfter(o, items, claimed, now, requireStuck)
  {
    hide Audited, Mirrored, Extends, ExecuteAll, PlanPresent, PlanAbsent, Candidates;
    var r := Resolve(o, items, claimed, now, requireStuck);
    ResolveSound(o, items, claimed, now, requireStuck);
    if r.item.Some? && Fillable(o, r.item.value) {
      PresentOutcome(v, o, r.item.value);
    } else {
      OtherOutcome(v, o, r.item, now, r.ambiguous);
    }
  }

  ghost predicate ClaimInvariant(store: Store, t: PassState, rows: seq<string>, held: set<string>) {
    && held <= t.claimed
    && (forall c :: c in rows && NewlyBound(store, t.store, c) ==>
          t.store[c].handle.value in t.claimed && t.store[c].handle.value !in held)
    && (forall c, d ::
          c in rows && d in rows && c != d && NewlyBound(store, t.store, c) && NewlyBound(store, t.store, d) ==>
          t.store[c].handle != t.store[d].handle)
  }

  lemma {:induction false} PassKeepsClaims(v: Venue, s: PassState, rows: seq<string>, items: seq<VenueItem>, now: int)
    requires AllSettled(s.store) && Distinct(rows)
    requires forall c :: c in rows ==> c in s.store && InWorkingSet(s.store[c])
    ensures ClaimInvariant(s.store, PassRows(v, s, rows, items, now), rows, s.claimed)
  {
    hide Settled, CounterFresh, Continues, RowStep, ClaimedAfter, InWorkingSet, AllSettled;
    if rows != [] {
      var init, cid := rows[..|rows| - 1], rows[|rows| - 1];
      assert rows == init + [cid];
      PassKeepsClaims(v, s, init, items, now);
      PassRowsAdvances(v, s, init, items, now);
      var t := PassRows(v, s, init, items, now);
      var o := t.store[cid];
      assert cid !in init && o == s.store[cid];
      SettledAt(t.store, cid);
      ClaimsGrow(o, items, t.claimed, now, true);
      if o.handle.None? {
        BindingClaims(v, o, items, t.claimed, now, true);
      }
      var r := RowStep(v, o, items, t.claimed, now, true);
      ClaimStep(s.store, t, init, s.claimed, cid, r.order, ClaimedAfter(o, items, t.claimed, now, true), r.applied);
    }
  }

  lemma ClaimStep(
    store: Store, t: PassState, init: seq<string>, held: set<string>, cid: string, o: Order,
    claimed: set<string>, n: nat
  )
    requires ClaimInvariant(store, t, init, held) && cid !in init && cid in store && t.claimed <= claimed
    requires store[cid].handle.None? && o.handle.Some? ==> o.handle.value !in t.claimed && o.handle.value in claimed
    ensures ClaimInvariant(store, PassState(t.store[cid := o], claimed, t.applied + n), init + [cid], held)
  {
  }

  lemma SettledAt(store: Store, c: string)
    requires AllSettled(store) && c in store
    ensures Settled(store[c])
  {
  }

  lemma ClaimsGrow(o: Order, items: seq<VenueItem>, claimed: set<string>, now: int, requireStuck: bool)
    ensures claimed <= ClaimedAfter(o, items, claimed, now, requireStuck)
  {
  }

  /**
    Claim injectivity: handles bound during a pass over one account are pairwise distinct and
    disjoint from every handle a row of the working set already held.
   */
  lemma ClaimInjectivity(v: Venue, store: Store, cids: seq<string>, items: seq<VenueItem>, now: int)
    requires AllSettled(store) && Distinct(cids)
    ensures var rows := Working(store, cids);
            var later := AccountPass(v, store, rows, items, now).store;
            && (forall c, d ::
                  c in rows && d in rows && c != d && NewlyBound(store, later, c) && NewlyBound(store, later, d) ==>
                  later[c].handle != later[d].handle)
            && (forall c, d ::
                  c in rows && d in rows && d in store && NewlyBound(store, later, c) && store[d].handle.Some? ==>
                  later[c].handle != store[d].handle)
  {
    hide Settled, CounterFresh, Continues, PassRows, InWorkingSet, AllSettled;
    var rows := Working(store, cids);
    WorkingSound(store, cids);
    var s := PassState(store, HeldHandles(store, rows), 0);
    PassKeepsClaims(v, s, rows, items, now);
  }

  // ---------------------------------------------------------------- price ladders

  predicate DistinctNumbers(items: seq<VenueItem>) {
    forall i, j :: 0 <= i < j < |items| ==> items[i].orderNo != items[j].orderNo
  }

  lemma {:induction false} NoCandidates(o: Order, items: seq<VenueItem>, claimed: set<string>)
    requires forall j :: j in items ==> !IsCandidate(o, j, claimed)
    ensures Candidates(o, items, claimed) == []
  {
    hide IsCandidate;
    if items != [] {
      NoCandidates(o, items[..|items| - 1], claimed);
    }
  }

  lemma {:induction false} OnlyCandidate(o: Order, items: seq<VenueItem>, claimed: set<string>, i: VenueItem)
    requires DistinctNumbers(items) && i in items && IsCandidate(o, i, claimed)
    requires forall j :: j in items && IsCandidate(o, j, claimed) ==> j == i
    ensures Candidates(o, items, claimed) == [i]
  {
    hide IsCandidate;
    var init, last := items[..|items| - 1], items[|items| - 1];
    assert items == init + [last];
    if last == i {
      assert i !in init;
      NoCandidates(o, init, claimed);
    } else {
      OnlyCandidate(o, init, claimed, i);
    }
  }

  /** An unclaimed venue row in the window at the rung's own price. */
  ghost predicate OwnRow(o: Order, i: VenueItem, items: seq<VenueItem>, held: set<string>) {
    && i in items && i.orderNo !in held && SameShape(o, i) && i.price == o.price
    && forall j :: j in items && j.orderNo !in held && SameShape(o, j) && j.price == o.price ==> j == i
  }

  /** Every unclaimed venue row in the rung's window reports a price. */
  ghost predicate AllPriced(o: Order, items: seq<VenueItem>, held: set<string>) {
    forall j :: j in items && j.orderNo !in held && SameShape(o, j) ==> HasPrice(j.price)
  }

  /**
    A rung with exactly one row at its own price is matched to that row exactly when no
    unclaimed row in its window comes without a price; otherwise the match is ambiguous.
   */
  lemma RungMatchesOwnRow(o: Order, items: seq<VenueItem>, held: set<string>, i: VenueItem)
    requires DistinctNumbers(items) && HasPrice(o.price) && OwnRow(o, i, items, held)
    ensures FuzzyMatch(o, items, held).item == Some(i) <==> AllPriced(o, items, held)
    ensures FuzzyMatch(o, items, held).Ambiguous() <==> !AllPriced(o, items, held)
  {
    var c := Candidates(o, items, held);
    CandidatesSound(o, items, held);
    assert IsCandidate(o, i, held);
    if AllPriced(o, items, held) {
      OnlyCandidate(o, items, held, i);
    } else {
      var j :| j in items && j.orderNo !in held && SameShape(o, j) && !HasPrice(j.price);
      assert IsCandidate(o, j, held);
      assert i in c && j in c && i != j;
    }
  }

  /** A row the venue lists without a price makes a rung with its own priced row ambiguous. */
  lemma PricelessRowBlocksRung() returns (o: Order, i: VenueItem, items: seq<VenueItem>)
    ensures HasPrice(o.price) && OwnRow(o, i, items, {}) && FuzzyMatch(o, items, {}).Ambiguous()
  {
    var r := OrderRequest("c", Liberator, "a", SET, "S", Buy, Some(1.5), None, 10, None, Day, SimControl(None, None));
    o := Inserted(r, 0);
    i := VenueItem("1", "S", Some(Buy), 10, Some(1.5), 0, None, Resting, Some(0), "");
    var priceless := i.(orderNo := "2", price := None);
    items := [i, priceless];
    assert |"1"| == |"2"| && "1"[0] != "2"[0];
    assert SameShape(o, priceless) && priceless in items;
    RungMatchesOwnRow(o, items, {}, i);
  }

  /** A stuck, unacknowledged row that the matcher could give this venue row to. */
  predicate Rival(d: Order, i: VenueItem, now: int) {
    d.status.PendingNew? && now - d.createdAt > STUCK_PENDING && IsCandidate(d, i, {})
  }

  lemma SameNumberSameRow(items: seq<VenueItem>, a: VenueItem, b: VenueItem)
    requires DistinctNumbers(items) && a in items && b in items && a.orderNo == b.orderNo
    ensures a == b
  {
  }

  /** Rows that are no rivals for a venue row leave it unclaimed, however many of them a pass meets. */
  lemma {:induction false} LeftUnclaimed(
    v: Venue, s: PassState, rows: seq<string>, items: seq<VenueItem>, now: int, i: VenueItem
  )
    requires AllSettled(s.store) && Distinct(rows) && DistinctNumbers(items) && i in items && i.orderNo !in s.claimed
    requires forall d :: d in rows ==> d in s.store && InWorkingSet(s.store[d]) && !Rival(s.store[d], i, now)
    ensures i.orderNo !in PassRows(v, s, rows, items, now).claimed
  {
    hide AllSettled, RowStep, Advances, Rival, InWorkingSet, DistinctNumbers, ClaimedAfter;
    if rows != [] {
      var init, d := rows[..|rows| - 1], rows[|rows| - 1];
      InitDistinct(rows);
      assert rows == init + [d];
      LeftUnclaimed(v, s, init, items, now, i);
      PassRowsAdvances(v, s, init, items, now);
      var t := PassRows(v, s, init, items, now);
      UntouchedRow(s.store, t.store, init, d);
      ClaimsNothingElse(s.store[d], items, t.claimed, now, i);
    }
  }

  lemma ClaimsNothingElse(d: Order, items: seq<VenueItem>, claimed: set<string>, now: int, i: VenueItem)
    requires DistinctNumbers(items) && i in items && i.orderNo !in claimed && !Rival(d, i, now)
    ensures i.orderNo !in ClaimedAfter(d, items, claimed, now, true)
  {
    hide SameShape, HasPrice, Candidates, DistinctNumbers, Lookup;
    ResolveSound(d, items, claimed, now, true);
    var r := Resolve(d, items, claimed, now, true).item;
    if TriesFuzzy(d, items, now, true) && r.Some? && r.value.orderNo == i.orderNo {
      SameNumberSameRow(items, r.value, i);
    }
  }

  /** Claims on other venue rows do not disturb a match. */
  lemma RungUndisturbed(o: Order, i: VenueItem, items: seq<VenueItem>, held: set<string>, claimed: set<string>)
    requires DistinctNumbers(items) && HasPrice(o.price) && OwnRow(o, i, items, held) && AllPriced(o, items, held)
    requires held <= claimed && i.orderNo !in claimed
    ensures FuzzyMatch(o, items, claimed).item == Some(i)
  {
    assert OwnRow(o, i, items, claimed);
    assert AllPriced(o, items, claimed);
    RungMatchesOwnRow(o, items, claimed, i);
  }

  /** The row after its plan against its own venue row. */
  function AgainstOwnRow(v: Venue, o: Order, i: VenueItem): Order {
    ExecuteAll(o, PlanPresent(v, o, Total(o.fills), i)).order
  }

  /** Stuck without a handle, at a positive price, with exactly one venue row at that price in its window. */
  ghost predicate IsRung(o: Order, i: VenueItem, items: seq<VenueItem>, held: set<string>, now: int) {
    && o.status.PendingNew? && now - o.createdAt > STUCK_PENDING && HasPrice(o.price)
    && OwnRow(o, i, items, held) && AllPriced(o, items, held)
  }

  lemma RungStep(
    v: Venue, o: Order, i: VenueItem, items: seq<VenueItem>, held: set<string>, claimed: set<string>,
    now: int
  )
    requires Settled(o) && DistinctNumbers(items) && IsRung(o, i, items, held, now)
    requires held <= claimed && i.orderNo !in claimed
    ensures RowStep(v, o, items, claimed, now, true).order == AgainstOwnRow(v, o, i)
  {
    PendingHasNoHandle(o);
    RungUndisturbed(o, i, items, held, claimed);
    hide Settled, OwnRow, AllPriced, Candidates, ExecuteAll, PlanPresent, FuzzyMatch, DistinctNumbers;
    assert TriesFuzzy(o, items, now, true);
  }

  lemma {:induction false} RungInPass(
    v: Venue, s: PassState, rows: seq<string>, items: seq<VenueItem>, now: int, c: string, i: VenueItem
  )
    requires AllSettled(s.store) && Distinct(rows) && DistinctNumbers(items) && c in rows
    requires forall d :: d in rows ==>
             d in s.store && InWorkingSet(s.store[d]) && (d != c ==> !Rival(s.store[d], i, now))
    requires IsRung(s.store[c], i, items, s.claimed, now)
    ensures var t := PassRows(v, s, rows, items, now);
            c in t.store && t.store[c] == AgainstOwnRow(v, s.store[c], i)
  {
    hide AllSettled, RowStep, Advances, Rival, InWorkingSet, DistinctNumbers, ClaimedAfter, IsRung, AgainstOwnRow;
    var init, d := rows[..|rows| - 1], rows[|rows| - 1];
    InitDistinct(rows);
    assert rows == init + [d];
    PassRowsAdvances(v, s, init, items, now);
    var t := PassRows(v, s, init, items, now);
    if d == c {
      UntouchedRow(s.store, t.store, init, c);
      OwnRowListed(s.store[c], i, items, s.claimed, now);
      LeftUnclaimed(v, s, init, items, now, i);
      ClaimsOnlyGrow(v, s, init, items, now);
      SettledAt(s.store, c);
      RungStep(v, s.store[c], i, items, s.claimed, t.claimed, now);
    } else {
      RungInPass(v, s, init, items, now, c, i);
    }
  }

  lemma OwnRowListed(o: Order, i: VenueItem, items: seq<VenueItem>, held: set<string>, now: int)
    requires IsRung(o, i, items, held, now)
    ensures i in items && i.orderNo !in held
  {
  }

  lemma {:induction false} ClaimsOnlyGrow(v: Venue, s: PassState, rows: seq<string>, items: seq<VenueItem>, now: int)
    ensures s.claimed <= PassRows(v, s, rows, items, now).claimed
  {
    hide RowStep, ClaimedAfter;
    if rows != [] {
      var init, d := rows[..|rows| - 1], rows[|rows| - 1];
      ClaimsOnlyGrow(v, s, init, items, now);
      var t := PassRows(v, s, init, items, now);
      if d in t.store {
        ClaimsGrow(t.store[d], items, t.claimed, now, true);
      }
    }
  }

  lemma UntouchedRow(store: Store, later: Store, rows: seq<string>, cid: string)
    requires Advances(store, later, rows) && cid in store && cid !in rows
    ensures cid in later && later[cid] == store[cid]
  {
  }

  lemma PendingHasNoHandle(o: Order)
    requires Settled(o) && o.status.PendingNew?
    ensures o.handle.None?
  {
  }

  /**
    A rung resolves: in a pass over an account, a stuck row with one venue row at its own price
    ends up as its plan against that row leaves it, wherever in the pass it comes, as long as no
    other row of the account could be given that venue row.
   */
  lemma RungResolves(
    v: Venue, store: Store, cids: seq<string>, items: seq<VenueItem>, now: int, c: string, i: VenueItem
  )
    requires AllSettled(store) && Distinct(cids) && DistinctNumbers(items) && c in Working(store, cids)
    requires c in store && IsRung(store[c], i, items, HeldHandles(store, Working(store, cids)), now)
    requires forall d :: d in Working(store, cids) && d in store && d != c ==> !Rival(store[d], i, now)
    ensures var later := AccountPass(v, store, Working(store, cids), items, now).store;
            && c in later && later[c] == AgainstOwnRow(v, store[c], i)
            && (i.state.VenueRejected? || later[c].handle == Some(i.orderNo))
  {
    hide AllSettled, PassRows, InWorkingSet, DistinctNumbers, Rival, PlanPresent, ExecuteAll, HeldHandles;
    var rows := Working(store, cids);
    WorkingSound(store, cids);
    SettledAt(store, c);
    RungInPass(v, PassState(store, HeldHandles(store, rows), 0), rows, items, now, c, i);
    hide Settled, OwnRow, AllPriced;
    if !i.state.VenueRejected? {
      PresentOutcome(v, store[c], i);
    }
  }

  /** A rival with no other candidate does take the venue row, and the rung is not matched to it any more. */
  lemma RivalTakesRow(d: Order, c: Order, items: seq<VenueItem>, claimed: set<string>, now: int, i: VenueItem)
    requires DistinctNumbers(items) && i in items && i.orderNo !in claimed && Rival(d, i, now) && d.handle.None?
    requires forall j :: j in items && IsCandidate(d, j, claimed) ==> j == i
    ensures i.orderNo in ClaimedAfter(d, items, claimed, now, true)
    ensures FuzzyMatch(c, items, ClaimedAfter(d, items, claimed, now, true)).item != Some(i)
  {
    OnlyCandidate(d, items, claimed, i);
    var later := ClaimedAfter(d, items, claimed, now, true);
    CandidatesSound(c, items, later);
    hide SameShape, HasPrice, DistinctNumbers;
  }

  /** A row that cannot be mistaken for a rung: just sent, of another shape, or at another price. */
  predicate Apart(d: Order, c: Order, now: int) {
    || !d.status.PendingNew?
    || now - d.createdAt <= STUCK_PENDING
    || d.request.symbol != c.request.symbol || d.request.side != c.request.side || d.quantity != c.quantity
    || (HasPrice(d.price) && HasPrice(c.price) && d.price != c.price)
  }

  lemma ApartIsNoRival(d: Order, c: Order, i: VenueItem, items: seq<VenueItem>, held: set<string>, now: int)
    requires Apart(d, c, now) && IsRung(c, i, items, held, now)
    ensures !Rival(d, i, now)
  {
  }

  /**
    Ladder resolution: the rungs of a price ladder, each with its own priced venue row, all
    resolve in one pass over the account, whatever the order in which the pass meets the rows
    and whatever other rows there are that cannot be mistaken for a rung.
   */
  lemma LadderResolves(
    v: Venue, store: Store, cids: seq<string>, items: seq<VenueItem>, now: int, own: map<string, VenueItem>
  )
    requires AllSettled(store) && Distinct(cids) && DistinctNumbers(items)
    requires forall c :: c in own ==>
               && c in Working(store, cids) && c in store
               && IsRung(store[c], own[c], items, HeldHandles(store, Working(store, cids)), now)
               && (forall d :: d in Working(store, cids) && d in store && d != c ==> Apart(store[d], store[c], now))
    ensures var later := AccountPass(v, store, Working(store, cids), items, now).store;
            forall c :: c in own ==>
              && c in later && later[c] == AgainstOwnRow(v, store[c], own[c])
              && (own[c].state.VenueRejected? || later[c].handle == Some(own[c].orderNo))
  {
    hide AllSettled, AccountPass, Working, HeldHandles, DistinctNumbers, IsRung, Apart, Rival, AgainstOwnRow;
    var rows := Working(store, cids);
    forall c | c in own
      ensures var later := AccountPass(v, store, rows, items, now).store;
              && c in later && later[c] == AgainstOwnRow(v, store[c], own[c])
              && (own[c].state.VenueRejected? || later[c].handle == Some(own[c].orderNo))
    {
      forall d | d in rows && d in store && d != c ensures !Rival(store[d], own[c], now) {
        ApartIsNoRival(store[d], store[c], own[c], items, HeldHandles(store, rows), now);
      }
      RungResolves(v, store, cids, items, now, c, own[c]);
    }
  }
}
