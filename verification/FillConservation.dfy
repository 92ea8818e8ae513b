/** The durable fill sum follows the venue's cumulative counter, over every run of row steps. */
module FillConservation {
  import opened Common
  import opened Orders
  import opened Lifecycle
  import opened Reconcile
  import opened PlanSoundness

  /** No recorded fill already carries the id of a counter value above the recorded sum. */
  ghost predicate CounterFresh(o: Order) {
    o.handle.Some? ==>
      forall m: nat :: m > Total(o.fills) ==> !HasFill(o.fills, FillId(o.handle.value, m))
  }

  /** Recording the counter value `f` stands for keeps all higher ids free. */
  lemma FreshAfterFill(o: Order, later: Order, f: Fill, matched: int)
    requires CounterFresh(o) && o.handle.Some? && later.handle == o.handle
    requires 0 <= Total(o.fills) < matched
    requires f.id == FillId(o.handle.value, matched) && f.quantity == matched - Total(o.fills)
    requires later.fills == o.fills + [f]
    ensures Total(later.fills) == matched && CounterFresh(later)
  {
    TotalAppend(o.fills, f);
    forall m: nat | m > matched ensures !HasFill(later.fills, FillId(o.handle.value, m)) {
      if FillId(o.handle.value, m) == f.id {
        FillIdInjective(o.handle.value, m, matched);
      }
      assert forall i :: 0 <= i < |o.fills| ==> later.fills[i] == o.fills[i];
      assert !HasFill(o.fills, FillId(o.handle.value, m));
    }
  }

  /** The counter value this row step can record: the row is live, found, and has a price. */
  function Observed(v: Venue, o: Order, item: Option<VenueItem>): Option<int> {
    if item.Some? && Fillable(o, item.value) && FillPriceFor(v, o, item.value).Some? then Some(item.value.matched)
    else None
  }

  function Max(a: int, b: int): int {
    if a >= b then a else b
  }

  /** The recorded sum after one step, and the one fill it may add. */
  ghost predicate CounterStep(v: Venue, o: Order, item: Option<VenueItem>, later: Order) {
    var seen := Observed(v, o, item);
    if seen.Some? && seen.value > Total(o.fills) then
      && Total(later.fills) == seen.value
      && |later.fills| == |o.fills| + 1 && later.fills[..|o.fills|] == o.fills
      && later.handle.Some?
      && later.fills[|o.fills|].id == FillId(later.handle.value, seen.value)
      && later.fills[|o.fills|].quantity == seen.value - Total(o.fills)
      && Some(later.fills[|o.fills|].price) == FillPriceFor(v, o, item.value)
    else later.fills == o.fills
  }

  lemma SettledTotal(o: Order)
    requires Settled(o)
    ensures Total(o.fills) >= 0
  {
    hide Audited, Mirrored;
    TotalNonNegative(o.fills);
  }

  lemma FreshAbove(o: Order, m: int)
    requires CounterFresh(o) && o.handle.Some? && m > Total(o.fills) >= 0
    ensures !HasFill(o.fills, FillId(o.handle.value, m))
  {
  }

  lemma StepRecorded(v: Venue, o: Order, item: VenueItem, later: Order, f: Fill)
    requires Observed(v, o, Some(item)) == Some(item.matched) && item.matched > Total(o.fills)
    requires later.handle == Some(item.orderNo) && later.fills == o.fills + [f] && Total(later.fills) == item.matched
    requires f.id == FillId(item.orderNo, item.matched) && f.quantity == item.matched - Total(o.fills)
    requires Some(f.price) == FillPriceFor(v, o, item)
    ensures CounterStep(v, o, Some(item), later)
  {
    hide FillId, FillPriceFor, Total, Observed;
  }

  lemma StepIdle(v: Venue, o: Order, item: VenueItem, later: Order)
    requires PlanFill(v, o, Total(o.fills), item) == [] && later.fills == o.fills
    ensures CounterStep(v, o, Some(item), later)
  {
    hide FillId, FillPriceFor, Total;
  }

  /** The planned fill: sized by the difference, named after the counter, at the derived price. */
  lemma PlannedFill(v: Venue, o: Order, item: VenueItem)
    requires Fillable(o, item) && PlanFill(v, o, Total(o.fills), item) != []
    ensures PlanFill(v, o, Total(o.fills), item)[0].DoFill?
    ensures var f := PlanFill(v, o, Total(o.fills), item)[0].fill;
            && f.id == FillId(item.orderNo, item.matched) && f.quantity == item.matched - Total(o.fills)
            && Some(f.price) == FillPriceFor(v, o, item) && item.matched > Total(o.fills)
            && Observed(v, o, Some(item)) == Some(item.matched)
  {
    hide FillId, FillPriceFor, Total, Fillable;
  }

  /** The fill stage of a plan records the counter under a free id. */
  lemma FillCounter(v: Venue, o: Order, o1: Order, item: VenueItem)
    requires Settled(o1) && (o1.status.New? || o1.status.PartiallyFilled?) && Fillable(o, item)
    requires o1.fills == o.fills && o1.quantity == o.quantity
    requires CounterFresh(o1) && o1.handle == Some(item.orderNo)
    ensures var o2 := ExecuteAll(o1, PlanFill(v, o, Total(o.fills), item)).order;
            o2.handle == o1.handle && CounterFresh(o2) && CounterStep(v, o, Some(item), o2)
  {
    hide Settled, Continues, ExecuteAll, PlanFill, FillPriceFor, FillId, HasFill, Total, CounterFresh;
    hide CounterStep, Fillable, Observed;
    FillStage(v, o, o1, item);
    SettledTotal(o1);
    var plan := PlanFill(v, o, Total(o.fills), item);
    var o2 := ExecuteAll(o1, plan).order;
    if plan == [] {
      StepIdle(v, o, item, o2);
    } else {
      PlannedFill(v, o, item);
      FreshAbove(o1, item.matched);
      FreshAfterFill(o1, o2, plan[0].fill, item.matched);
      StepRecorded(v, o, item, o2, plan[0].fill);
    }
  }

  lemma PresentCounter(v: Venue, o: Order, item: VenueItem)
    requires Settled(o) && Fillable(o, item) && CounterFresh(o)
    requires o.handle.Some? ==> o.handle == Some(item.orderNo)
    ensures var later := ExecuteAll(o, PlanPresent(v, o, Total(o.fills), item)).order;
            CounterFresh(later) && CounterStep(v, o, Some(item), later)
  {
    SettledBasics(o);
    hide Settled, Extends, ExecuteAll, PlanPresent, PlanFill, ClosePart, AckPart, Total, CounterFresh, CounterStep;
    var o1, o2 := PresentPlan(v, o, item);
    if o.status.PendingNew? {
      NoFillsIsFresh(o1);
    }
    FillCounter(v, o, o1, item);
    CloseStage(v, o, o2, item);
    var later := ExecuteAll(o2, ClosePart(v, o, item)).order;
    SameFillsFresh(o2, later);
    SameFillsStep(v, o, item, o2, later);
  }

  lemma SameFillsStep(v: Venue, o: Order, item: VenueItem, mid: Order, later: Order)
    requires CounterStep(v, o, Some(item), mid) && later.fills == mid.fills && later.handle == mid.handle
    ensures CounterStep(v, o, Some(item), later)
  {
  }

  lemma SettledBasics(o: Order)
    requires Settled(o)
    ensures HandleMatchesStatus(o) && (o.status.PendingNew? ==> o.fills == [])
  {
  }

  lemma NoFillsIsFresh(o: Order)
    requires o.fills == []
    ensures CounterFresh(o)
  {
  }

  lemma SameFillsFresh(o: Order, later: Order)
    requires CounterFresh(o) && later.fills == o.fills && later.handle == o.handle
    ensures CounterFresh(later)
  {
  }

  /** One row step records exactly what the venue counter shows above the recorded sum. */
  lemma RowCounter(v: Venue, o: Order, items: seq<VenueItem>, claimed: set<string>, now: int, requireStuck: bool)
    requires Settled(o) && InWorkingSet(o) && CounterFresh(o)
    ensures var later := RowStep(v, o, items, claimed, now, requireStuck).order;
            CounterFresh(later) && CounterStep(v, o, Resolve(o, items, claimed, now, requireStuck).item, later)
  {
    hide Audited, Mirrored, Extends, Execute, ExecuteAll, FillPriceFor, FillId, PlanFill, HasFill;
    var r := Resolve(o, items, claimed, now, requireStuck);
    ResolveSound(o, items, claimed, now, requireStuck);
    if r.item.Some? && Fillable(o, r.item.value) {
      PresentCounter(v, o, r.item.value);
    } else {
      AbsentCounter(v, o, r.item, now, r.ambiguous);
    }
  }

  lemma AbsentCounter(v: Venue, o: Order, item: Option<VenueItem>, now: int, ambiguous: bool)
    requires Settled(o) && InWorkingSet(o) && CounterFresh(o)
    requires item.Some? ==> !Fillable(o, item.value)
    ensures var later := ExecuteAll(o, PlanActions(v, o, Total(o.fills), item, now, ambiguous)).order;
            later.fills == o.fills && CounterFresh(later)
  {
    hide Audited, Mirrored, Extends, ExecuteAll, PlanActions, HasFill;
    OtherOutcome(v, o, item, now, ambiguous);
    SameFillsFresh(o, ExecuteAll(o, PlanActions(v, o, Total(o.fills), item, now, ambiguous)).order);
  }

  // ---------------------------------------------------------------- whole runs

  /** One venue poll as it reaches the row. */
  datatype Poll = Poll(items: seq<VenueItem>, claimed: set<string>, now: int, requireStuck: bool)

  function Step(v: Venue, o: Order, p: Poll): Order {
    if InWorkingSet(o) then RowStep(v, o, p.items, p.claimed, p.now, p.requireStuck).order else o
  }

  function Follow(v: Venue, o: Order, polls: seq<Poll>): Order {
    if polls == [] then o else Step(v, Follow(v, o, polls[..|polls| - 1]), polls[|polls| - 1])
  }

  /** The highest counter value any step of the run could record. */
  function HighWater(v: Venue, o: Order, polls: seq<Poll>): int {
    if polls == [] then Total(o.fills)
    else
      var before := HighWater(v, o, polls[..|polls| - 1]);
      var mid := Follow(v, o, polls[..|polls| - 1]);
      var p := polls[|polls| - 1];
      var seen := Observed(v, mid, Resolve(mid, p.items, p.claimed, p.now, p.requireStuck).item);
      if InWorkingSet(mid) && seen.Some? then Max(before, seen.value) else before
  }

  /** The i-th fill carries the id of the running sum it reaches. */
  ghost predicate NamedBySum(o: Order, i: nat)
    requires i < |o.fills|
  {
    o.handle.Some? && o.fills[i].id == FillId(o.handle.value, Total(o.fills[..i + 1]))
  }

  ghost predicate Telescoped(o: Order, from: nat) {
    forall i :: from <= i < |o.fills| ==> NamedBySum(o, i)
  }

  lemma TelescopedStep(v: Venue, o: Order, item: Option<VenueItem>, later: Order, from: nat)
    requires Telescoped(o, from) && CounterStep(v, o, item, later) && HandleKept(o, later) && from <= |o.fills|
    ensures Telescoped(later, from)
  {
    hide Total, FillId, Observed;
    forall i | from <= i < |later.fills| ensures NamedBySum(later, i) {
      if i < |o.fills| {
        assert NamedBySum(o, i);
        assert later.fills[..i + 1] == o.fills[..i + 1];
        assert later.fills[i] == o.fills[i];
      } else {
        assert later.fills[..i + 1] == later.fills;
      }
    }
  }

  /** A row stays settled through any number of row steps. */
  lemma {:induction false} FollowSettles(v: Venue, o: Order, polls: seq<Poll>)
    requires Settled(o)
    ensures Continues(o, Follow(v, o, polls))
  {
    hide Settled, Extends, RowStep;
    if polls == [] {
      ExtendsReflexive(o);
    } else {
      var mid := Follow(v, o, polls[..|polls| - 1]);
      var p := polls[|polls| - 1];
      FollowSettles(v, o, polls[..|polls| - 1]);
      if InWorkingSet(mid) {
        RowContinues(v, mid, p.items, p.claimed, p.now, p.requireStuck);
        ContinuesTransitive(o, mid, Step(v, mid, p));
      }
    }
  }

  lemma RowContinues(v: Venue, o: Order, items: seq<VenueItem>, claimed: set<string>, now: int, requireStuck: bool)
    requires Settled(o) && InWorkingSet(o)
    ensures var r := RowStep(v, o, items, claimed, now, requireStuck);
            Continues(o, r.order) && r.applied == |PlanFor(v, o, items, claimed, now, requireStuck)| <= 3
  {
    hide Settled, Extends, PlanActions, ExecuteAll;
    var r := Resolve(o, items, claimed, now, requireStuck);
    PlanSound(v, o, r.item, now, r.ambiguous);
  }

  /**
    Conservation: whatever counter values the venue reports along a run — repeats, jumps,
    regressions, gaps in the book — the durable sum is the highest one the row could record,
    and every new fill is named after, and sized by, the step it takes.
   */
  lemma {:induction false} FillSumIsHighWater(v: Venue, o: Order, polls: seq<Poll>)
    requires Settled(o) && CounterFresh(o)
    ensures var later := Follow(v, o, polls);
            && Total(later.fills) == HighWater(v, o, polls)
            && o.fills <= later.fills && Telescoped(later, |o.fills|)
            && CounterFresh(later)
  {
    hide Settled, RowStep, Resolve, Observed, FillId, CounterFresh;
    if polls != [] {
      var init := polls[..|polls| - 1];
      var p := polls[|polls| - 1];
      var mid := Follow(v, o, init);
      FillSumIsHighWater(v, o, init);
      FollowSettles(v, o, init);
      if InWorkingSet(mid) {
        RowCounter(v, mid, p.items, p.claimed, p.now, p.requireStuck);
        RowContinues(v, mid, p.items, p.claimed, p.now, p.requireStuck);
        var item := Resolve(mid, p.items, p.claimed, p.now, p.requireStuck).item;
        TelescopedStep(v, mid, item, Step(v, mid, p), |o.fills|);
      }
    }
  }

  /** Re-executing any fill the run has recorded changes nothing, at any later point of the run. */
  lemma ReplayedFillChangesNothing(v: Venue, o: Order, polls: seq<Poll>, f: Fill)
    requires Settled(o) && HasFill(Follow(v, o, polls).fills, f.id)
    ensures var later := Follow(v, o, polls); After(later, RecordFill(f, o.quantity)) == later
  {
    hide Follow, After, HasFill, Extends;
    FollowSettles(v, o, polls);
    RedeliveryChangesOnlyOnStaleTotal(Follow(v, o, polls), f, o.quantity);
  }

  // ---------------------------------------------------------------- a resting order, independently

  /** The snapshot shows the order resting, or does not show it. */
  predicate ShowsResting(p: Poll, o: Order) {
    var i := Bound(o, p.items);
    i.Some? ==> i.value.state.Resting?
  }

  /** The counter the snapshot shows under the order's handle, when there is a price to record it at. */
  function Shown(v: Venue, o: Order, p: Poll): Option<int> {
    var i := Bound(o, p.items);
    if i.Some? && FillPriceFor(v, o, i.value).Some? then Some(i.value.matched) else None
  }

  /** The highest counter value shown, up to the poll that shows the order fully matched. */
  function Peak(v: Venue, o: Order, polls: seq<Poll>): int {
    if polls == [] then Total(o.fills)
    else
      var before := Peak(v, o, polls[..|polls| - 1]);
      var shown := Shown(v, o, polls[|polls| - 1]);
      if before < o.quantity && shown.Some? then Max(before, shown.value) else before
  }

  predicate Live(o: Order) {
    o.status.New? || o.status.PartiallyFilled?
  }

  lemma RestingStep(v: Venue, o: Order, p: Poll)
    requires Settled(o) && CounterFresh(o) && Live(o)
    requires ShowsResting(p, o)
    ensures var later := Step(v, o, p); Live(later) || later.status.Filled?
    ensures var shown := Shown(v, o, p);
            Total(Step(v, o, p).fills) == if shown.Some? then Max(Total(o.fills), shown.value) else Total(o.fills)
  {
    hide Audited, Mirrored, Extends, ExecuteAll, FillId, CounterFresh, PlanPresent, Candidates, Total, FillPriceFor;
    var i := Bound(o, p.items);
    assert Resolve(o, p.items, p.claimed, p.now, p.requireStuck) == Resolution(i, false);
    RowCounter(v, o, p.items, p.claimed, p.now, p.requireStuck);
    if i.Some? {
      PresentOutcome(v, o, i.value);
    } else {
      NoPlan(o);
    }
  }

  lemma NoPlan(o: Order)
    ensures ExecuteAll(o, []).order == o
  {
  }

  /** Pricing looks only at what a run of row steps keeps. */
  lemma ShownKept(v: Venue, o: Order, later: Order, p: Poll)
    requires Continues(o, later) && o.handle.Some?
    ensures Shown(v, later, p) == Shown(v, o, p) && ShowsResting(p, later) == ShowsResting(p, o)
  {
    hide Settled, Quantize, Lookup;
  }

  /**
    A bound order that the venue shows resting: the fill sum is the peak of the counters shown
    with a price, and the order is FILLED exactly when that peak reaches its quantity.
   */
  lemma {:induction false} RestingOrderFollowsPeak(v: Venue, o: Order, polls: seq<Poll>)
    requires Settled(o) && CounterFresh(o) && Live(o)
    requires forall p :: p in polls ==> ShowsResting(p, o)
    ensures var later := Follow(v, o, polls);
            && Total(later.fills) == Peak(v, o, polls)
            && (later.status.Filled? <==> Total(later.fills) >= o.quantity)
            && (Live(later) || later.status.Filled?)
  {
    hide Audited, Mirrored, Extends, RowStep, CounterFresh, HighWater, Telescoped, Bound, Shown, ShowsResting;
    if polls != [] {
      var init, p := polls[..|polls| - 1], polls[|polls| - 1];
      RestingOrderFollowsPeak(v, o, init);
      FollowSettles(v, o, init);
      FillSumIsHighWater(v, o, init);
      ShownKept(v, o, Follow(v, o, init), p);
      if Live(Follow(v, o, init)) {
        RestingStep(v, Follow(v, o, init), p);
      }
    }
    FollowSettles(v, o, polls);
  }
}
