/** Why an order ended: every terminal state of a run has its cause in the operation that entered it. */
module Causes {
  import opened StateMachine
  import opened Common
  import opened Sequences
  import opened Orders
  import opened Lifecycle
  import opened Reconcile
  import opened FillConservation
  import opened Evidence
  import opened Passes
  import opened Claims
  import opened Reconcilers
  import opened Routers
  import opened Runs
  import opened AccountPasses
  import Boundaries

  /** The reply to a placement that leaves the new row in the given terminal state. */
  predicate PlacementCloses(placed: PlaceReply, quantity: int, to: OrderState) {
    match to
    case Rejected => placed.PlaceRejected?
    case Filled => placed.Accepted? && Total(FirstOfEach(placed.fills)) >= quantity
    case Cancelled =>
      && placed.Accepted? && placed.remainderCancelled && !placed.remainderRaises
      && Total(FirstOfEach(placed.fills)) < quantity
    case _ => false
  }

  /** The pass read the order's account, and what it read and had claimed by then justifies the state. */
  ghost predicate PassCloses(
    store: Store, later: Store, v: Venue, rows: seq<string>, read: GroupKey -> Option<seq<VenueItem>>,
    now: int, c: string
  )
    requires c in store && c in later && forall d :: d in rows ==> d in store
  {
    var items, peers := read(KeyOf(v, store[c])), Peers(v, store, rows, c);
    && c in rows && items.Some?
    && exists claimed ::
         && ClaimedByOthers(v, store, later, peers, items.value, now, HeldHandles(store, peers), c, claimed)
         && Justified(v, store[c], later[c].status, Poll(items.value, claimed, now, true))
  }

  /** The operation carries the cause of the order's terminal state. */
  ghost predicate Closes(store: Store, op: Op, later: Store, c: string)
    requires Enabled(store, op) && c in later
  {
    var to := later[c].status;
    match op
    case OpSubmit(r, _, _, placed) => c == r.cid && c !in store && PlacementCloses(placed, r.quantity, to)
    case OpCancel(cid, gate, reply) => c == cid && c in store && gate && reply.Confirmed? && to == Cancelled
    case OpAmendInPlace(_, _, _, _, _) => false
    case OpAmendByReplacement(cid, newCid, _, _, _, gate, cancelled, _, _, _, placed) =>
      || (c == cid && c in store && gate && cancelled.Confirmed? && to == Cancelled)
      || (newCid == Some(c) && c !in store && PlacementCloses(placed, later[c].request.quantity, to))
    case OpMassCancel(open, resolves, replies) =>
      c in open && resolves(c) && replies(c).Confirmed? && to == Cancelled
    case OpReconcile(v, rows, read, now) => c in store && PassCloses(store, later, v, rows, read, now, c)
    case OpResolveNow(v, cid, rows, read, now) =>
      && c == cid && c in store && read(KeyOf(v, store[c])).Some?
      && Justified(v, store[c], to, Poll(read(KeyOf(v, store[c])).value, OthersHandles(v, store, rows, c), now, false))
  }

  // ---------------------------------------------------------------- operation by operation

  lemma PlacementCause(r: OrderRequest, createdAt: int, placed: PlaceReply)
    requires ValidRequest(r) && ValidReply(placed)
    ensures var o := PlaceAndSettle(Inserted(r, createdAt), placed).order;
            o.request == r && (IsTerminal(o.status) ==> PlacementCloses(placed, r.quantity, o.status))
  {
    hide Settled, PlaceAndSettle, FirstOfEach, Total;
    InsertedIsSettled(r, createdAt);
    PlacementOutcome(Inserted(r, createdAt), placed);
    PlacedRequest(r, createdAt, placed);
  }

  lemma CancelCause(o: Order, gate: bool, reply: CancelReply)
    requires !IsTerminal(o.status)
    ensures var later := CancelOrder(o, gate, reply).order;
            IsTerminal(later.status) ==> gate && reply.Confirmed? && later.status == Cancelled
  {
  }

  lemma AmendCause(o: Order, p: Option<real>, q: Option<int>, gate: bool, reply: AmendReply)
    requires Settled(o) && !IsTerminal(o.status)
    ensures !IsTerminal(AmendNative(o, p, q, gate, reply).order.status)
  {
    AmendOutcome(o, p, q, gate, reply);
    hide Settled, AmendNative, Amendable;
  }

  lemma SweepCause(store: Store, open: seq<string>, gate: string -> bool, reply: string -> CancelReply, c: string)
    requires Open(store, open) && c in store && !IsTerminal(store[c].status)
    ensures var later := SweepStore(store, open, gate, reply);
            && c in later
            && (IsTerminal(later[c].status) ==>
                  c in open && gate(c) && reply(c).Confirmed? && later[c].status == Cancelled)
  {
    hide SweepStore, Swept;
    SweepFrame(store, open, gate, reply);
    if c in open {
      SweepOutcome(store, open, gate, reply, c);
    }
  }

  lemma ResolveCause(
    store: Store, v: Venue, cid: string, rows: seq<string>, read: GroupKey -> Option<seq<VenueItem>>, now: int,
    c: string
  )
    requires Sound(store) && c in store && !IsTerminal(store[c].status)
    ensures var op := OpResolveNow(v, cid, rows, read, now);
            var later := ApplyOp(store, op);
            c in later && (IsTerminal(later[c].status) ==> Closes(store, op, later, c))
  {
    hide Sound, Settled, RowStep, OthersHandles, Justified, InWorkingSet;
    if c == cid && !Reconciler.IsResolved(store[c]) && read(KeyOf(v, store[c])).Some? {
      SoundAt(store, c);
      Boundaries.UnresolvedIsWorking(store[c]);
      StepJustified(v, store[c], Poll(read(KeyOf(v, store[c])).value, OthersHandles(v, store, rows, c), now, false));
    }
  }

  lemma ReconcileCause(
    store: Store, v: Venue, rows: seq<string>, read: GroupKey -> Option<seq<VenueItem>>, now: int, c: string
  )
    requires Sound(store) && Enabled(store, OpReconcile(v, rows, read, now))
    requires c in store && !IsTerminal(store[c].status)
    ensures var later := ApplyOp(store, OpReconcile(v, rows, read, now));
            c in later && (IsTerminal(later[c].status) ==> PassCloses(store, later, v, rows, read, now, c))
  {
    hide AllSettled, Keyed, ApplyOp, PassRows, ClaimedByOthers, Justified, InWorkingSet, Peers, HeldHandles;
    hide Distinct, Settled;
    var later := ApplyOp(store, OpReconcile(v, rows, read, now));
    ReconcileByAccount(store, v, rows, read, now, c);
    var items := read(KeyOf(v, store[c]));
    if c in rows && items.Some? {
      var peers := Peers(v, store, rows, c);
      PeersListed(v, store, rows, c);
      var s := PassState(store, HeldHandles(store, peers), 0);
      var claimed := PassRowIsStep(v, s, peers, items.value, now, c);
      var t := PassRows(v, s, peers, items.value, now).store;
      forall d | d in peers ensures d in later && d in t && later[d] == t[d] {
        PeersAlike(v, store, rows, c, d);
        ReconcileByAccount(store, v, rows, read, now, d);
      }
      ClaimsCarry(v, store, t, later, peers, items.value, now, s.claimed, c, claimed);
      SoundAt(store, c);
      StepJustified(v, store[c], Poll(items.value, claimed, now, true));
    }
  }

  lemma ClaimsCarry(
    v: Venue, store: Store, t: Store, later: Store, rows: seq<string>, items: seq<VenueItem>, now: int,
    held: set<string>, c: string, claimed: set<string>
  )
    requires ClaimedByOthers(v, store, t, rows, items, now, held, c, claimed)
    requires forall d :: d in rows ==> d in later && d in t && later[d] == t[d]
    ensures ClaimedByOthers(v, store, later, rows, items, now, held, c, claimed)
  {
    hide Rival, AgainstOwnRow;
    forall n | n in claimed && n !in held
      ensures exists d, j :: d in rows && d != c && Took(v, store, later, items, now, d, j) && j.orderNo == n
    {
      var d, j :| d in rows && d != c && Took(v, store, t, items, now, d, j) && j.orderNo == n;
      assert Took(v, store, later, items, now, d, j);
    }
  }

  // ---------------------------------------------------------------- any operation, any run

  lemma SubmitCause(store: Store, r: OrderRequest, createdAt: int, gate: bool, placed: PlaceReply, c: string)
    requires ValidRequest(r) && ValidReply(placed) && c in SubmitStore(store, r, createdAt, gate, placed)
    ensures var later := SubmitStore(store, r, createdAt, gate, placed);
            if c in store then later[c] == store[c]
            else
              && c == r.cid && later[c].request == r
              && (IsTerminal(later[c].status) ==> PlacementCloses(placed, r.quantity, later[c].status))
  {
    hide PlaceAndSettle, PlacementCloses;
    PlacementCause(r, createdAt, placed);
  }

  lemma ReplaceCause(store: Store, op: Op, c: string)
    requires op.OpAmendByReplacement? && Sound(store) && Enabled(store, op) && c in ApplyOp(store, op)
    requires IsTerminal(ApplyOp(store, op)[c].status) && (c in store ==> !IsTerminal(store[c].status))
    ensures Closes(store, op, ApplyOp(store, op), c)
  {
    hide Sound, CancelOrder, PlacementCloses, ValidRequest, AmendedRequest, SubmitStore;
    if Replaceable(store, op.cid, op.newCid, op.price, op.qty, op.engaged) {
      var mid := CancelStore(store, op.cid, op.gate, op.cancelled);
      var r := AmendedRequest(store[op.cid], op.newCid.value, op.price, op.qty);
      if op.cid == c {
        CancelCause(store[c], op.gate, op.cancelled);
      }
      if !CancelOrder(store[op.cid], op.gate, op.cancelled).raised && ValidRequest(r) {
        SubmitCause(mid, r, op.createdAt, op.submitGate && !op.halted, op.placed, c);
        ReplacementId(store[op.cid], op.newCid.value, op.price, op.qty);
      }
    }
  }

  lemma ReplacementId(o: Order, newCid: string, price: Option<real>, qty: Option<int>)
    ensures AmendedRequest(o, newCid, price, qty).cid == newCid
  {
  }

  /** An operation that ends an order carries the cause: a placement reply, a confirmed cancel, or venue evidence. */
  lemma OperationCause(store: Store, op: Op, c: string)
    requires Sound(store) && Enabled(store, op) && c in ApplyOp(store, op)
    requires IsTerminal(ApplyOp(store, op)[c].status) && (c in store ==> !IsTerminal(store[c].status))
    ensures Closes(store, op, ApplyOp(store, op), c)
  {
    hide Sound, SubmitStore, CancelOrder, AmendNative, SweepStore, PlacementCloses, PassCloses, Justified, Open;
    match op
    case OpSubmit(r, createdAt, gate, placed) => SubmitCause(store, r, createdAt, gate, placed, c);
    case OpCancel(cid, gate, reply) => if cid in store && cid == c { CancelCause(store[c], gate, reply); }
    case OpAmendInPlace(cid, p, q, gate, reply) =>
      if cid in store && cid == c {
        SoundAt(store, c);
        AmendCause(store[c], p, q, gate, reply);
      }
    case OpAmendByReplacement(_, _, _, _, _, _, _, _, _, _, _) => ReplaceCause(store, op, c);
    case OpMassCancel(open, resolves, replies) =>
      SweepFrame(store, open, resolves, replies);
      SweepCause(store, open, resolves, replies, c);
    case OpReconcile(v, rows, read, now) =>
      SameOrders(store, v, rows, read, now);
      ReconcileCause(store, v, rows, read, now, c);
    case OpResolveNow(v, cid, rows, read, now) => ResolveCause(store, v, cid, rows, read, now, c);
  }

  /**
    Over every run: an order that is terminal at one boundary and was not at an earlier one — or
    did not exist there — was ended by one operation in between, which carries the cause.
   */
  lemma {:induction false} TerminalHasCause(
    states: seq<Store>, ops: seq<Op>, i: nat, j: nat, c: string
  ) returns (k: nat)
    requires IsRun(states, ops) && Sound(states[0]) && i < j < |states|
    requires c in states[j] && IsTerminal(states[j][c].status) && (c in states[i] ==> !IsTerminal(states[i][c].status))
    ensures i <= k < j && c in states[k + 1] && states[k + 1][c].status == states[j][c].status
    ensures c in states[k] ==> !IsTerminal(states[k][c].status)
    ensures Enabled(states[k], ops[k]) && Closes(states[k], ops[k], states[k + 1], c)
  {
    hide Sound, ApplyOp, Enabled, Closes, StoreEvolves;
    if c in states[j - 1] && IsTerminal(states[j - 1][c].status) {
      TerminalForever(states, ops, j - 1, j, c);
      k := TerminalHasCause(states, ops, i, j - 1, c);
    } else {
      k := j - 1;
      LifecycleOverRuns(states, ops, k, k);
      RunStep(states, ops, k);
      OperationCause(states[k], ops[k], c);
    }
  }
}
