/** No two working orders of an account ever hold the same venue handle. */
module Handles {
  import opened Common
  import opened Sequences
  import opened Orders
  import opened Lifecycle
  import opened Reconcile
  import opened PlanSoundness
  import opened FillConservation
  import opened Passes
  import opened Claims
  import opened Reconcilers
  import opened Routers
  import opened Runs
  import opened AccountPasses
  import Boundaries

  function BrokerOf(v: Venue): Broker {
    if v.LiberatorVenue? then Liberator else StreamingPro
  }

  /** The order is in the working set of this venue's reconciler. */
  predicate OnVenue(v: Venue, o: Order) {
    InWorkingSet(o) && o.request.broker == BrokerOf(v)
  }

  /** Within one account the working orders hold pairwise different handles. */
  ghost predicate UniqueHandles(v: Venue, store: Store) {
    forall c, d :: c in store && d in store && c != d && OnVenue(v, store[c]) && OnVenue(v, store[d])
                   && KeyOf(v, store[c]) == KeyOf(v, store[d]) && store[c].handle.Some? ==>
      store[c].handle != store[d].handle
  }

  /** The listing is the venue's whole working set. */
  ghost predicate Lists(v: Venue, store: Store, rows: seq<string>) {
    forall c :: c in rows <==> c in store && OnVenue(v, store[c])
  }

  /** The request goes to the venue and account that a stored order is on. */
  predicate SameBook(v: Venue, o: Order, r: OrderRequest) {
    r.broker == BrokerOf(v) && KeyOf(v, o) == KeyOf(v, Inserted(r, 0))
  }

  /** The venue acknowledges under a number that no working order of the account holds. */
  ghost predicate NewNumber(store: Store, r: OrderRequest, placed: PlaceReply) {
    placed.Accepted? ==>
      forall v, c :: c in store && OnVenue(v, store[c]) && SameBook(v, store[c], r) ==>
        store[c].handle != Some(placed.handle)
  }

  /** Reconcilers list their whole working set and resolve their own orders; venues hand out new numbers. */
  ghost predicate Orderly(store: Store, op: Op) {
    match op
    case OpSubmit(r, _, _, placed) => NewNumber(store, r, placed)
    case OpAmendByReplacement(cid, newCid, p, q, _, _, _, _, _, _, placed) =>
      cid in store && newCid.Some? ==> NewNumber(store, AmendedRequest(store[cid], newCid.value, p, q), placed)
    case OpReconcile(v, rows, _, _) => Lists(v, store, rows)
    case OpResolveNow(v, cid, rows, _, _) =>
      && Lists(v, store, rows)
      && (cid in store ==> store[cid].request.broker == BrokerOf(v))
    case _ => true
  }

  // ---------------------------------------------------------------- reconciling

  /** An acknowledged row keeps its handle, and a newly bound one differs from its peers'. */
  lemma PairDistinct(v: Venue, store: Store, peers: seq<string>, items: seq<VenueItem>, now: int, c: string, d: string)
    requires AllSettled(store) && Distinct(peers) && c in peers && d in peers && c != d
    requires forall e :: e in peers ==> e in store && InWorkingSet(store[e])
    requires store[c].handle.Some? ==> store[c].handle != store[d].handle
    ensures var t := AccountPass(v, store, peers, items, now).store;
            c in t && d in t && (t[c].handle.Some? ==> t[c].handle != t[d].handle)
  {
    hide AllSettled, AccountPass, InWorkingSet, Distinct, AllFresh, Working, Extends, Settled;
    WorkingAll(store, peers);
    AccountPassAdvances(v, store, peers, items, now);
    ClaimInjectivity(v, store, peers, items, now);
    var t := AccountPass(v, store, peers, items, now).store;
    assert Continues(store[c], t[c]) && Continues(store[d], t[d]);
  }

  lemma PassPair(
    store: Store, v: Venue, rows: seq<string>, read: GroupKey -> Option<seq<VenueItem>>, now: int, c: string, d: string
  )
    requires Sound(store) && Enabled(store, OpReconcile(v, rows, read, now)) && c in rows && d in rows && c != d
    requires KeyOf(v, store[c]) == KeyOf(v, store[d]) && (store[c].handle.Some? ==> store[c].handle != store[d].handle)
    ensures var later := ApplyOp(store, OpReconcile(v, rows, read, now));
            c in later && d in later && (later[c].handle.Some? ==> later[c].handle != later[d].handle)
  {
    hide AllSettled, Keyed, ApplyOp, AccountPass, InWorkingSet, Distinct;
    ReconcileByAccount(store, v, rows, read, now, c);
    ReconcileByAccount(store, v, rows, read, now, d);
    var items := read(KeyOf(v, store[c]));
    if items.Some? {
      PeersListed(v, store, rows, c);
      PeersListed(v, store, rows, d);
      PairDistinct(v, store, Peers(v, store, rows, c), items.value, now, c, d);
    }
  }

  lemma SameOrder(store: Store, later: Store, c: string)
    requires StoreEvolves(store, later) && c in store
    ensures c in later && later[c].request == store[c].request
  {
    hide Settled;
  }

  /** A pass that lists the whole working set keeps its handles apart. */
  lemma PassKeepsUnique(
    v: Venue, store: Store, w: Venue, rows: seq<string>, read: GroupKey -> Option<seq<VenueItem>>, now: int
  )
    requires Sound(store) && Enabled(store, OpReconcile(w, rows, read, now))
    requires UniqueHandles(v, store) && Lists(w, store, rows)
    ensures UniqueHandles(v, ApplyOp(store, OpReconcile(w, rows, read, now)))
  {
    hide Sound, ApplyOp, InWorkingSet, Enabled, StoreEvolves;
    var op := OpReconcile(w, rows, read, now);
    var later := ApplyOp(store, op);
    OperationSound(store, op);
    SameOrders(store, w, rows, read, now);
    forall c, d | c in later && d in later && c != d && OnVenue(v, later[c]) && OnVenue(v, later[d])
                  && KeyOf(v, later[c]) == KeyOf(v, later[d]) && later[c].handle.Some?
      ensures later[c].handle != later[d].handle
    {
      ListedBefore(store, v, w, rows, read, now, c);
      ListedBefore(store, v, w, rows, read, now, d);
      if v == w {
        PassPair(store, v, rows, read, now, c, d);
      }
    }
  }

  /** An order in a working set after the pass was in it before; another venue's pass leaves it alone. */
  lemma ListedBefore(
    store: Store, v: Venue, w: Venue, rows: seq<string>, read: GroupKey -> Option<seq<VenueItem>>, now: int,
    c: string
  )
    requires Sound(store) && Enabled(store, OpReconcile(w, rows, read, now)) && Lists(w, store, rows) && c in store
    ensures var later := ApplyOp(store, OpReconcile(w, rows, read, now));
            && c in later && later[c].request == store[c].request
            && (OnVenue(v, later[c]) ==> OnVenue(v, store[c]))
            && (v != w && OnVenue(v, later[c]) ==> later[c] == store[c])
            && (v == w && OnVenue(v, later[c]) ==> c in rows)
  {
    hide Sound, ApplyOp, AccountPass, StoreEvolves, InWorkingSet;
    OperationSound(store, OpReconcile(w, rows, read, now));
    SameOrder(store, ApplyOp(store, OpReconcile(w, rows, read, now)), c);
    ReconcileByAccount(store, w, rows, read, now, c);
  }

  /** A single resolution never binds a handle that another working order of the account holds. */
  lemma ResolutionBindsNew(
    v: Venue, store: Store, rows: seq<string>, items: seq<VenueItem>, now: int, c: string, d: string
  )
    requires Sound(store) && c in store && !Reconciler.IsResolved(store[c]) && Lists(v, store, rows)
    requires d in store && d != c && OnVenue(v, store[d]) && KeyOf(v, store[d]) == KeyOf(v, store[c])
    ensures var later := RowStep(v, store[c], items, OthersHandles(v, store, rows, c), now, false).order;
            later.handle.Some? ==> later.handle != store[d].handle
  {
    hide Sound, RowStep, Settled, ClaimedAfter, InWorkingSet;
    SoundAt(store, c);
    Boundaries.UnresolvedIsWorking(store[c]);
    BindingClaims(v, store[c], items, OthersHandles(v, store, rows, c), now, false);
  }

  lemma ResolveKeepsUnique(
    v: Venue, store: Store, w: Venue, cid: string, rows: seq<string>, read: GroupKey -> Option<seq<VenueItem>>, now: int
  )
    requires Sound(store) && UniqueHandles(v, store) && Orderly(store, OpResolveNow(w, cid, rows, read, now))
    ensures UniqueHandles(v, ApplyOp(store, OpResolveNow(w, cid, rows, read, now)))
  {
    hide Sound, RowStep, InWorkingSet, OthersHandles, Lists;
    if cid in store && !Reconciler.IsResolved(store[cid]) && read(KeyOf(w, store[cid])).Some? {
      var items := read(KeyOf(w, store[cid])).value;
      var o := RowStep(w, store[cid], items, OthersHandles(w, store, rows, cid), now, false).order;
      StepKeepsRequest(w, store, cid, items, OthersHandles(w, store, rows, cid), now);
      forall d | v == w && d in store && d != cid && OnVenue(v, store[d]) && KeyOf(v, store[d]) == KeyOf(v, store[cid])
        ensures o.handle.Some? ==> o.handle != store[d].handle
      {
        ResolutionBindsNew(v, store, rows, items, now, cid, d);
      }
      UniqueAfterUpdate(v, store, cid, o);
    }
  }

  lemma StepKeepsRequest(v: Venue, store: Store, cid: string, items: seq<VenueItem>, claimed: set<string>, now: int)
    requires Sound(store) && cid in store && !Reconciler.IsResolved(store[cid])
    ensures RowStep(v, store[cid], items, claimed, now, false).order.request == store[cid].request
  {
    hide Sound, RowStep, Settled, InWorkingSet, PlanFor;
    SoundAt(store, cid);
    Boundaries.UnresolvedIsWorking(store[cid]);
    RowContinues(v, store[cid], items, claimed, now, false);
  }

  /** One order is replaced; it stays off the venue's book, or its handle is no other's. */
  lemma UniqueAfterUpdate(v: Venue, store: Store, cid: string, o: Order)
    requires UniqueHandles(v, store)
    requires OnVenue(v, o) && o.handle.Some? ==>
               forall d :: d in store && d != cid && OnVenue(v, store[d]) && KeyOf(v, store[d]) == KeyOf(v, o) ==>
                 o.handle != store[d].handle
    ensures UniqueHandles(v, store[cid := o])
  {
    hide InWorkingSet, OnVenue, KeyOf;
  }

  // ---------------------------------------------------------------- the other operations

  /** Every working order of `later` was one before, under the same handle and account. */
  ghost predicate Narrows(v: Venue, store: Store, later: Store) {
    forall c :: c in later && OnVenue(v, later[c]) ==>
      && c in store && OnVenue(v, store[c])
      && later[c].handle == store[c].handle && KeyOf(v, later[c]) == KeyOf(v, store[c])
  }

  lemma NarrowKeepsUnique(v: Venue, store: Store, later: Store)
    requires UniqueHandles(v, store) && Narrows(v, store, later)
    ensures UniqueHandles(v, later)
  {
    hide OnVenue, KeyOf;
  }

  lemma CancelNarrow(o: Order, gate: bool, reply: CancelReply)
    ensures var later := CancelOrder(o, gate, reply).order;
            later.handle == o.handle && later.request == o.request && (InWorkingSet(later) ==> InWorkingSet(o))
    ensures var later := CancelAtVenue(o, reply).order;
            later.handle == o.handle && later.request == o.request && (InWorkingSet(later) ==> InWorkingSet(o))
  {
  }

  lemma AmendNarrow(o: Order, p: Option<real>, q: Option<int>, gate: bool, reply: AmendReply)
    requires Settled(o)
    ensures var later := AmendNative(o, p, q, gate, reply).order;
            later.handle == o.handle && later.request == o.request && (InWorkingSet(later) ==> InWorkingSet(o))
  {
    hide Settled, AmendNative, Evolves, Amendable;
    AmendOutcome(o, p, q, gate, reply);
    AmendEvolves(o, p, q, gate, reply);
    EvolvedIsSettled(o, AmendNative(o, p, q, gate, reply).order);
  }

  lemma CancelNarrows(v: Venue, store: Store, cid: string, gate: bool, reply: CancelReply)
    ensures Narrows(v, store, CancelStore(store, cid, gate, reply))
  {
    hide CancelOrder, InWorkingSet;
    if cid in store {
      CancelNarrow(store[cid], gate, reply);
    }
  }

  lemma {:induction false} SweepNarrows(
    v: Venue, store: Store, open: seq<string>, gate: string -> bool, reply: string -> CancelReply
  )
    ensures Narrows(v, store, SweepStore(store, open, gate, reply))
  {
    hide CancelAtVenue, InWorkingSet;
    if open != [] {
      SweepNarrows(v, store, open[..|open| - 1], gate, reply);
      var mid, cid := SweepStore(store, open[..|open| - 1], gate, reply), open[|open| - 1];
      if cid in mid {
        CancelNarrow(mid[cid], true, reply(cid));
      }
    }
  }

  lemma SubmitKeepsUnique(v: Venue, store: Store, r: OrderRequest, createdAt: int, gate: bool, placed: PlaceReply)
    requires UniqueHandles(v, store) && ValidRequest(r) && ValidReply(placed) && NewNumber(store, r, placed)
    ensures UniqueHandles(v, SubmitStore(store, r, createdAt, gate, placed))
  {
    hide UniqueHandles, PlaceAndSettle, Settled, FirstOfEach, Total;
    if r.cid !in store && gate {
      var o := PlaceAndSettle(Inserted(r, createdAt), placed).order;
      InsertedIsSettled(r, createdAt);
      PlacementOutcome(Inserted(r, createdAt), placed);
      PlacedRequest(r, createdAt, placed);
      assert KeyOf(v, o) == KeyOf(v, Inserted(r, 0));
      UniqueAfterUpdate(v, store, r.cid, o);
    }
  }

  lemma NewNumberNarrow(store: Store, later: Store, r: OrderRequest, placed: PlaceReply)
    requires NewNumber(store, r, placed) && forall v :: Narrows(v, store, later)
    ensures NewNumber(later, r, placed)
  {
    hide OnVenue, KeyOf;
    if placed.Accepted? {
      forall v, c | c in later && OnVenue(v, later[c]) && SameBook(v, later[c], r)
        ensures later[c].handle != Some(placed.handle)
      {
        assert Narrows(v, store, later);
      }
    }
  }

  lemma ReplaceKeepsUnique(v: Venue, store: Store, op: Op)
    requires op.OpAmendByReplacement? && Enabled(store, op) && UniqueHandles(v, store) && Orderly(store, op)
    ensures UniqueHandles(v, ApplyOp(store, op))
  {
    hide UniqueHandles, Narrows, NewNumber, CancelStore, SubmitStore, CancelOrder, ValidRequest, AmendedRequest;
    if Replaceable(store, op.cid, op.newCid, op.price, op.qty, op.engaged) {
      var mid := CancelStore(store, op.cid, op.gate, op.cancelled);
      var r := AmendedRequest(store[op.cid], op.newCid.value, op.price, op.qty);
      forall u ensures Narrows(u, store, mid) {
        CancelNarrows(u, store, op.cid, op.gate, op.cancelled);
      }
      NarrowKeepsUnique(v, store, mid);
      NewNumberNarrow(store, mid, r, op.placed);
      if ValidRequest(r) {
        SubmitKeepsUnique(v, mid, r, op.createdAt, op.submitGate && !op.halted, op.placed);
      }
    }
  }

  /** Every operation keeps the working handles of every account apart. */
  lemma OperationKeepsUnique(v: Venue, store: Store, op: Op)
    requires Sound(store) && Enabled(store, op) && UniqueHandles(v, store) && Orderly(store, op)
    ensures UniqueHandles(v, ApplyOp(store, op))
  {
    hide Sound, UniqueHandles, Narrows, SubmitStore, CancelStore, SweepStore, AmendNative, FullPass, RowStep;
    hide InWorkingSet, NewNumber, Lists;
    match op
    case OpSubmit(r, createdAt, gate, placed) => SubmitKeepsUnique(v, store, r, createdAt, gate, placed);
    case OpCancel(cid, gate, reply) =>
      CancelNarrows(v, store, cid, gate, reply);
      NarrowKeepsUnique(v, store, ApplyOp(store, op));
    case OpAmendInPlace(cid, p, q, gate, reply) =>
      AmendNarrows(v, store, cid, p, q, gate, reply);
      NarrowKeepsUnique(v, store, ApplyOp(store, op));
    case OpAmendByReplacement(_, _, _, _, _, _, _, _, _, _, _) => ReplaceKeepsUnique(v, store, op);
    case OpMassCancel(open, resolves, replies) =>
      SweepNarrows(v, store, open, resolves, replies);
      NarrowKeepsUnique(v, store, ApplyOp(store, op));
    case OpReconcile(w, rows, read, now) => PassKeepsUnique(v, store, w, rows, read, now);
    case OpResolveNow(w, cid, rows, read, now) => ResolveKeepsUnique(v, store, w, cid, rows, read, now);
  }

  lemma AmendNarrows(
    v: Venue, store: Store, cid: string, p: Option<real>, q: Option<int>, gate: bool, reply: AmendReply
  )
    requires Sound(store)
    ensures Narrows(v, store, AmendNativeStore(store, cid, p, q, gate, reply))
  {
    hide Sound, AmendNative, InWorkingSet, Settled;
    if cid in store {
      SoundAt(store, cid);
      AmendNarrow(store[cid], p, q, gate, reply);
    }
  }

  // ---------------------------------------------------------------- whole runs

  ghost predicate OrderlyRun(states: seq<Store>, ops: seq<Op>) {
    IsRun(states, ops) && forall k :: 0 <= k < |ops| ==> Orderly(states[k], ops[k])
  }

  /** Over any number of passes, resolutions and other operations no venue order is held twice. */
  lemma {:induction false} HandlesOverRuns(states: seq<Store>, ops: seq<Op>, v: Venue, j: nat)
    requires OrderlyRun(states, ops) && Sound(states[0]) && UniqueHandles(v, states[0]) && j < |states|
    ensures UniqueHandles(v, states[j])
  {
    hide Sound, UniqueHandles, ApplyOp, Enabled, Orderly, StoreEvolves;
    if j > 0 {
      HandlesOverRuns(states, ops, v, j - 1);
      LifecycleOverRuns(states, ops, j - 1, j - 1);
      RunStep(states, ops, j - 1);
      OperationKeepsUnique(v, states[j - 1], ops[j - 1]);
    }
  }
}
