/** Fill conservation and convergence at every boundary of a run of all operations. */
module Boundaries {
  import opened Common
  import opened Sequences
  import opened Orders
  import opened Lifecycle
  import opened Reconcile
  import opened FillConservation
  import opened Passes
  import opened Convergence
  import opened Reconcilers
  import opened Routers
  import opened Runs
  import opened AccountPasses

  /**
    Reports that came with the acknowledgement carry no id of the venue's counter. The real venues
    acknowledge without reports, and the simulator numbers its own.
   */
  ghost predicate ForeignReports(p: PlaceReply) {
    p.Accepted? ==> forall f, m: nat :: f in p.fills ==> f.id != FillId(p.handle, m)
  }

  // ---------------------------------------------------------------- one order

  lemma {:induction false} FirstOfEachIsReported(fills: seq<Fill>)
    ensures forall f :: f in FirstOfEach(fills) ==> f in fills
  {
    hide HasFill;
    if fills != [] {
      FirstOfEachIsReported(fills[..|fills| - 1]);
    }
  }

  lemma ForeignIsFresh(o: Order)
    requires o.handle.Some? && forall f, m: nat :: f in o.fills ==> f.id != FillId(o.handle.value, m)
    ensures CounterFresh(o)
  {
    hide FillId, Total;
    forall m: nat | m > Total(o.fills) ensures !HasFill(o.fills, FillId(o.handle.value, m)) {
      assert forall i :: 0 <= i < |o.fills| ==> o.fills[i] in o.fills;
    }
  }

  lemma PlacementFresh(o: Order, reply: PlaceReply)
    requires Settled(o) && o.status.PendingNew? && o.quantity == o.request.quantity
    requires ValidReply(reply) && ForeignReports(reply)
    ensures CounterFresh(PlaceAndSettle(o, reply).order)
  {
    SettledBasics(o);
    PlacementOutcome(o, reply);
    hide Settled, PlaceAndSettle, FillId, FirstOfEach, CounterFresh;
    var later := PlaceAndSettle(o, reply).order;
    if reply.Accepted? {
      FirstOfEachIsReported(reply.fills);
      ForeignIsFresh(later);
    } else {
      NoFillsIsFresh(later);
    }
  }

  lemma VenueCancelFresh(o: Order, reply: CancelReply)
    requires CounterFresh(o)
    ensures CounterFresh(CancelAtVenue(o, reply).order)
  {
    hide CounterFresh;
    SameFillsFresh(o, CancelAtVenue(o, reply).order);
  }

  lemma AmendFresh(o: Order, newPrice: Option<real>, newQty: Option<int>, gate: bool, reply: AmendReply)
    requires Settled(o) && CounterFresh(o)
    ensures CounterFresh(AmendNative(o, newPrice, newQty, gate, reply).order)
  {
    AmendOutcome(o, newPrice, newQty, gate, reply);
    hide Settled, AmendNative, Amendable, CounterFresh;
    SameFillsFresh(o, AmendNative(o, newPrice, newQty, gate, reply).order);
  }

  // ---------------------------------------------------------------- the store, one operation

  lemma UpdateFresh(store: Store, cid: string, o: Order)
    requires AllFresh(store) && CounterFresh(o)
    ensures AllFresh(store[cid := o])
  {
    hide CounterFresh;
  }

  lemma FreshAt(store: Store, cid: string)
    requires AllFresh(store) && cid in store
    ensures CounterFresh(store[cid])
  {
  }

  lemma SubmitFresh(store: Store, r: OrderRequest, createdAt: int, gate: bool, reply: PlaceReply)
    requires AllFresh(store) && ValidRequest(r) && ValidReply(reply) && ForeignReports(reply)
    ensures AllFresh(SubmitStore(store, r, createdAt, gate, reply))
  {
    hide AllFresh, CounterFresh, Settled, PlaceAndSettle, ForeignReports;
    if r.cid !in store && gate {
      InsertedIsSettled(r, createdAt);
      PlacementFresh(Inserted(r, createdAt), reply);
      UpdateFresh(store, r.cid, PlaceAndSettle(Inserted(r, createdAt), reply).order);
    }
  }

  lemma CancelFresh(store: Store, cid: string, gate: bool, reply: CancelReply)
    requires AllFresh(store)
    ensures AllFresh(CancelStore(store, cid, gate, reply))
  {
    hide AllFresh, CounterFresh, CancelAtVenue;
    if cid in store {
      FreshAt(store, cid);
      VenueCancelFresh(store[cid], reply);
      UpdateFresh(store, cid, CancelOrder(store[cid], gate, reply).order);
    }
  }

  lemma AmendStoreFresh(store: Store, cid: string, p: Option<real>, q: Option<int>, gate: bool, reply: AmendReply)
    requires Sound(store) && AllFresh(store)
    ensures AllFresh(AmendNativeStore(store, cid, p, q, gate, reply))
  {
    hide Sound, AllFresh, CounterFresh, AmendNative, Settled;
    if cid in store {
      FreshAt(store, cid);
      SoundAt(store, cid);
      AmendFresh(store[cid], p, q, gate, reply);
      UpdateFresh(store, cid, AmendNative(store[cid], p, q, gate, reply).order);
    }
  }

  lemma {:induction false} SweepFresh(
    store: Store, open: seq<string>, gate: string -> bool, reply: string -> CancelReply
  )
    requires AllFresh(store)
    ensures AllFresh(SweepStore(store, open, gate, reply))
  {
    hide AllFresh, CounterFresh, CancelAtVenue;
    if open != [] {
      SweepFresh(store, open[..|open| - 1], gate, reply);
      var mid, cid := SweepStore(store, open[..|open| - 1], gate, reply), open[|open| - 1];
      if cid in mid && gate(cid) {
        FreshAt(mid, cid);
        VenueCancelFresh(mid[cid], reply(cid));
        UpdateFresh(mid, cid, CancelAtVenue(mid[cid], reply(cid)).order);
      }
    }
  }

  lemma ReconcileFresh(store: Store, v: Venue, rows: seq<string>, read: GroupKey -> Option<seq<VenueItem>>, now: int)
    requires Sound(store) && AllFresh(store) && Enabled(store, OpReconcile(v, rows, read, now))
    ensures AllFresh(ApplyOp(store, OpReconcile(v, rows, read, now)))
  {
    hide AllSettled, AllFresh, FullPass, GroupsOf, KeysInOrder, InWorkingSet, Advances;
    var keys := KeysInOrder(v, store, rows);
    KeysDistinct(v, store, rows);
    GroupsPartition(v, store, rows, keys, read);
    FullPassAdvances(v, store, GroupsOf(v, store, rows, keys, read), now);
  }

  lemma UnresolvedIsWorking(o: Order)
    requires Settled(o) && !Reconciler.IsResolved(o)
    ensures InWorkingSet(o)
  {
  }

  lemma ResolveFresh(
    store: Store, v: Venue, cid: string, rows: seq<string>, read: GroupKey -> Option<seq<VenueItem>>, now: int
  )
    requires Sound(store) && AllFresh(store)
    ensures AllFresh(ApplyOp(store, OpResolveNow(v, cid, rows, read, now)))
  {
    hide Sound, AllFresh, CounterFresh, CounterStep, RowStep, Settled, OthersHandles, InWorkingSet, Resolve;
    if cid in store && !Reconciler.IsResolved(store[cid]) && read(KeyOf(v, store[cid])).Some? {
      var o, items := store[cid], read(KeyOf(v, store[cid])).value;
      FreshAt(store, cid);
      SoundAt(store, cid);
      UnresolvedIsWorking(o);
      RowCounter(v, o, items, OthersHandles(v, store, rows, cid), now, false);
      UpdateFresh(store, cid, RowStep(v, o, items, OthersHandles(v, store, rows, cid), now, false).order);
    }
  }

  /** The operation's placement replies, if any, carry foreign reports only. */
  ghost predicate ForeignOp(op: Op) {
    (op.OpSubmit? || op.OpAmendByReplacement?) ==> ForeignReports(op.placed)
  }

  /** Every operation leaves every order able to record every higher counter value. */
  lemma OperationFresh(store: Store, op: Op)
    requires Sound(store) && AllFresh(store) && Enabled(store, op) && ForeignOp(op)
    ensures AllFresh(ApplyOp(store, op))
  {
    hide Sound, AllFresh, SubmitStore, CancelStore, SweepStore, AmendNativeStore, FullPass, RowStep;
    hide ForeignReports, CancelOrder, AmendedRequest;
    match op
    case OpSubmit(r, createdAt, gate, placed) => SubmitFresh(store, r, createdAt, gate, placed);
    case OpCancel(cid, gate, reply) => CancelFresh(store, cid, gate, reply);
    case OpAmendInPlace(cid, p, q, gate, reply) => AmendStoreFresh(store, cid, p, q, gate, reply);
    case OpAmendByReplacement(cid, newCid, p, q, engaged, gate, cancelled, createdAt, halted, submitGate, placed) =>
      if Replaceable(store, cid, newCid, p, q, engaged) {
        CancelFresh(store, cid, gate, cancelled);
        var r := AmendedRequest(store[cid], newCid.value, p, q);
        if ValidRequest(r) {
          SubmitFresh(CancelStore(store, cid, gate, cancelled), r, createdAt, submitGate && !halted, placed);
        }
      }
    case OpMassCancel(open, resolves, replies) => SweepFresh(store, open, resolves, replies);
    case OpReconcile(v, rows, read, now) => ReconcileFresh(store, v, rows, read, now);
    case OpResolveNow(v, cid, rows, read, now) => ResolveFresh(store, v, cid, rows, read, now);
  }

  // ---------------------------------------------------------------- whole runs

  ghost predicate ForeignOps(ops: seq<Op>) {
    forall i :: 0 <= i < |ops| ==> ForeignOp(ops[i])
  }

  /** At every boundary of every such run the store is sound, and every order is free to follow its counter. */
  lemma {:induction false} HealthyOverRuns(states: seq<Store>, ops: seq<Op>, j: nat)
    requires IsRun(states, ops) && ForeignOps(ops) && Sound(states[0]) && AllFresh(states[0]) && j < |states|
    ensures Sound(states[j]) && Healthy(states[j])
  {
    hide AllSettled, Keyed, AllFresh, ApplyOp, Enabled, ForeignOp, StoreEvolves;
    if j > 0 {
      HealthyOverRuns(states, ops, j - 1);
      RunStep(states, ops, j - 1);
      OperationSound(states[j - 1], ops[j - 1]);
      OperationFresh(states[j - 1], ops[j - 1]);
    }
  }

  /**
    Conservation at every boundary: whatever run led to the row, from there on the durable sum
    is the highest counter value the venue shows that the row could record, and each new fill
    is named after the running sum it reaches.
   */
  lemma ConservationAtBoundaries(states: seq<Store>, ops: seq<Op>, j: nat, c: string, v: Venue, polls: seq<Poll>)
    requires IsRun(states, ops) && ForeignOps(ops) && Sound(states[0]) && AllFresh(states[0])
    requires j < |states| && c in states[j]
    ensures var o := states[j][c];
            var later := Follow(v, o, polls);
            && Total(later.fills) == HighWater(v, o, polls)
            && o.fills <= later.fills && Telescoped(later, |o.fills|)
  {
    HealthyOverRuns(states, ops, j);
    FreshAt(states[j], c);
    SoundAt(states[j], c);
    hide Settled, CounterFresh, Sound, AllFresh, Follow, HighWater, Telescoped, IsRun, ForeignOps;
    FillSumIsHighWater(v, states[j][c], polls);
  }

  /** A live order at any boundary that the venue then shows resting follows the peak of the shown counters. */
  lemma PeakAtBoundaries(states: seq<Store>, ops: seq<Op>, j: nat, c: string, v: Venue, polls: seq<Poll>)
    requires IsRun(states, ops) && ForeignOps(ops) && Sound(states[0]) && AllFresh(states[0])
    requires j < |states| && c in states[j] && Live(states[j][c])
    requires forall p :: p in polls ==> ShowsResting(p, states[j][c])
    ensures var o := states[j][c];
            var later := Follow(v, o, polls);
            && Total(later.fills) == Peak(v, o, polls)
            && (later.status.Filled? <==> Total(later.fills) >= o.quantity)
  {
    HealthyOverRuns(states, ops, j);
    FreshAt(states[j], c);
    SoundAt(states[j], c);
    hide Settled, CounterFresh, Sound, AllFresh, Follow, Peak, IsRun, ForeignOps, ShowsResting;
    RestingOrderFollowsPeak(v, states[j][c], polls);
  }

  /**
    Convergence at every boundary: whatever run led to the store, passes against fixed snapshots
    and a fixed clock apply at most three actions per row in all, and then none.
   */
  lemma ConvergenceAtBoundaries(states: seq<Store>, ops: seq<Op>, j: nat, v: Venue, groups: seq<Group>, now: int)
    requires IsRun(states, ops) && ForeignOps(ops) && Sound(states[0]) && AllFresh(states[0]) && j < |states|
    requires Distinct(AllRows(groups)) && DistinctSnapshots(groups)
    ensures forall k: nat :: Repeat(v, states[j], groups, now, k).applied <= 3 * |AllRows(groups)|
    ensures forall k: nat :: k >= 3 * |AllRows(groups)| ==>
            Quiescent(v, Repeat(v, states[j], groups, now, k).store, groups, now)
  {
    hide Healthy, Sound, AllFresh, IsRun, ForeignOps, Repeat, Quiescent, AllRows, DistinctSnapshots, Distinct;
    HealthyOverRuns(states, ops, j);
    ReconciliationConverges(v, states[j], groups, now);
  }

  // ---------------------------------------------------------------- runs of passes and resolutions

  /** The operation is a pass or a single resolution against this venue. */
  predicate Reads(v: Venue, op: Op) {
    (op.OpReconcile? || op.OpResolveNow?) && op.venue == v
  }

  /** The poll that the operation made of the order's own account. */
  ghost predicate PollOf(v: Venue, op: Op, key: GroupKey, p: Poll) {
    Reads(v, op) && op.read(key) == Some(p.items) && p.now == op.now
  }

  /** Seen from one order, a pass or a resolution is one row step on its own account's snapshot, or nothing. */
  lemma OperationIsPoll(store: Store, op: Op, v: Venue, c: string) returns (p: Option<Poll>)
    requires Sound(store) && Enabled(store, op) && Reads(v, op) && c in store
    ensures var later := ApplyOp(store, op);
            && c in later
            && match p
               case None => later[c] == store[c]
               case Some(poll) => later[c] == Step(v, store[c], poll) && PollOf(v, op, KeyOf(v, store[c]), poll)
  {
    hide AllSettled, Keyed, RowStep, FullPass, PassRows, InWorkingSet, OthersHandles, Settled, Peers;
    hide HeldHandles, Distinct;
    hide ClaimedByOthers, GroupsOf, KeysInOrder;
    var items := op.read(KeyOf(v, store[c]));
    p := None;
    if op.OpReconcile? {
      ReconcileByAccount(store, v, op.rows, op.read, op.now, c);
      if c in op.rows && items.Some? {
        var peers := Peers(v, store, op.rows, c);
        PeersListed(v, store, op.rows, c);
        var claimed := PassRowIsStep(v, PassState(store, HeldHandles(store, peers), 0), peers, items.value, op.now, c);
        p := Some(Poll(items.value, claimed, op.now, true));
      }
    } else if c == op.cid && !Reconciler.IsResolved(store[c]) && items.Some? {
      SoundAt(store, c);
      UnresolvedIsWorking(store[c]);
      p := Some(Poll(items.value, OthersHandles(v, store, op.rows, c), op.now, false));
    }
  }

  /** Every poll was made of this account by some operation from the i-th up to the j-th. */
  ghost predicate PollsOf(v: Venue, ops: seq<Op>, i: nat, j: nat, key: GroupKey, polls: seq<Poll>)
    requires j <= |ops|
  {
    forall p :: p in polls ==> exists k :: i <= k < j && PollOf(v, ops[k], key, p)
  }

  lemma MorePolls(v: Venue, ops: seq<Op>, i: nat, j: nat, key: GroupKey, polls: seq<Poll>, p: Option<Poll>)
    requires i <= j < |ops| && PollsOf(v, ops, i, j, key, polls) && (p.Some? ==> PollOf(v, ops[j], key, p.value))
    ensures PollsOf(v, ops, i, j + 1, key, if p.Some? then polls + [p.value] else polls)
  {
    hide PollOf;
  }

  lemma FollowOne(v: Venue, o: Order, polls: seq<Poll>, p: Poll)
    ensures Follow(v, o, polls + [p]) == Step(v, Follow(v, o, polls), p)
  {
    hide Step;
    assert (polls + [p])[..|polls|] == polls;
  }

  /** Over any number of passes and resolutions an order follows the polls they made of its account. */
  lemma {:induction false} PassesFollow(
    states: seq<Store>, ops: seq<Op>, i: nat, j: nat, v: Venue, c: string
  ) returns (polls: seq<Poll>)
    requires IsRun(states, ops) && Sound(states[0]) && i <= j < |states| && c in states[i]
    requires forall k :: i <= k < j ==> Reads(v, ops[k])
    ensures c in states[j] && states[j][c] == Follow(v, states[i][c], polls)
    ensures PollsOf(v, ops, i, j, KeyOf(v, states[i][c]), polls)
  {
    hide Sound, ApplyOp, Enabled, Step, PollOf, StoreEvolves, PollsOf, KeyOf;
    var key := KeyOf(v, states[i][c]);
    if i == j {
      polls := [];
      NoPolls(v, ops, i, key);
    } else {
      var before := PassesFollow(states, ops, i, j - 1, v, c);
      LifecycleOverRuns(states, ops, i, j - 1);
      RunStep(states, ops, j - 1);
      SameKey(states[i], states[j - 1], v, c);
      var p := OperationIsPoll(states[j - 1], ops[j - 1], v, c);
      MorePolls(v, ops, i, j - 1, key, before, p);
      polls := if p.Some? then before + [p.value] else before;
      if p.Some? {
        FollowOne(v, states[i][c], before, p.value);
      }
    }
  }

  lemma NoPolls(v: Venue, ops: seq<Op>, i: nat, key: GroupKey)
    requires i <= |ops|
    ensures PollsOf(v, ops, i, i, key, [])
  {
  }

  lemma SameKey(store: Store, later: Store, v: Venue, c: string)
    requires StoreEvolves(store, later) && c in store
    ensures c in later && KeyOf(v, later[c]) == KeyOf(v, store[c])
  {
    hide Settled;
  }

  /** Conservation over passes: the durable sum is the highest counter the polls of its account could record. */
  lemma ConservationOverPasses(
    states: seq<Store>, ops: seq<Op>, i: nat, j: nat, v: Venue, c: string
  ) returns (polls: seq<Poll>)
    requires IsRun(states, ops) && ForeignOps(ops) && Sound(states[0]) && AllFresh(states[0])
    requires i <= j < |states| && c in states[i] && forall k :: i <= k < j ==> Reads(v, ops[k])
    ensures PollsOf(v, ops, i, j, KeyOf(v, states[i][c]), polls)
    ensures c in states[j] && Total(states[j][c].fills) == HighWater(v, states[i][c], polls)
    ensures states[i][c].fills <= states[j][c].fills && Telescoped(states[j][c], |states[i][c].fills|)
  {
    hide Sound, AllFresh, Follow, HighWater, Telescoped, ForeignOps, PollsOf, Reads;
    polls := PassesFollow(states, ops, i, j, v, c);
    ConservationAtBoundaries(states, ops, i, c, v, polls);
  }
}
