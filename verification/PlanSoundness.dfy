/** Executing a plan on a settled row raises nothing and leaves a settled row. */
module PlanSoundness {
  import opened StateMachine
  import opened Common
  import opened Orders
  import opened Lifecycle
  import opened Reconcile

  /** Everything of the lifecycle invariant that concerns audit trail, handle and stream. */
  ghost predicate Coherent(o: Order) {
    Audited(o) && HandleMatchesStatus(o) && Mirrored(o)
  }

  lemma WriteKeepsCoherence(o: Order, w: Write)
    requires Coherent(o) && !BareAck(o, w) && !SilentFlip(o, w)
    ensures Coherent(After(o, w)) && Extends(o, After(o, w)) && HandleKept(o, After(o, w))
  {
    WriteKeepsAudit(o, w);
    WriteKeepsHandle(o, w);
    WriteKeepsMirror(o, w);
  }

  // ---------------------------------------------------------------- one action

  lemma AckSettles(o: Order, h: string)
    requires Settled(o) && o.status.PendingNew?
    ensures var e := Execute(o, DoAck(h));
            !e.raised && Settled(e.order) && Extends(o, e.order) && HandleKept(o, e.order)
            && e.order.status == New && e.order.handle == Some(h) && e.order.fills == []
            && e.order.quantity == o.quantity && e.order.price == o.price
  {
    hide Audited, Mirrored;
    WriteKeepsCoherence(o, Ack(h));
  }

  lemma FillSettles(o: Order, f: Fill)
    requires Settled(o) && (o.status.New? || o.status.PartiallyFilled?) && f.quantity > 0
    ensures var e := Execute(o, DoFill(f, o.quantity));
            !e.raised && Settled(e.order) && Extends(o, e.order) && HandleKept(o, e.order)
            && (e.order.status.PartiallyFilled? || e.order.status.Filled?)
            && e.order.handle == o.handle && e.order.quantity == o.quantity && e.order.price == o.price
            && e.order.fills == (if HasFill(o.fills, f.id) then o.fills else o.fills + [f])
            && (!HasFill(o.fills, f.id) ==> Total(e.order.fills) == Total(o.fills) + f.quantity)
  {
    hide Audited, Mirrored, Dedup, LegalWalk;
    TotalNonNegative(o.fills);
    TotalAppend(o.fills, f);
    var w := RecordFill(f, o.quantity);
    if HasFill(o.fills, f.id) {
      RedeliveryChangesOnlyOnStaleTotal(o, f, o.quantity);
    } else {
      WriteKeepsCoherence(o, w);
    }
  }

  /** The three ways a resting row is closed on venue evidence. */
  predicate Closes(a: Action) {
    a.CancelTwoStep? || a.Expire? || a.PostAckReject?
  }

  /** The two-step cancel of a live order. */
  lemma TwoStepSettles(o: Order)
    requires Settled(o) && (o.status.New? || o.status.PartiallyFilled?)
    ensures var e := Then(Try(o, Status(PendingCancel)), Status(Cancelled));
            !e.raised && Settled(e.order) && Extends(o, e.order) && e.order.status == Cancelled
            && e.order.fills == o.fills && e.order.handle == o.handle
            && e.order.quantity == o.quantity && e.order.price == o.price
  {
    hide Audited, Mirrored, Dedup, LegalWalk, Total;
    WriteKeepsCoherence(o, Status(PendingCancel));
    WriteKeepsCoherence(After(o, Status(PendingCancel)), Status(Cancelled));
  }

  lemma ReasonSettles(o: Order, text: string)
    requires Settled(o)
    ensures Settled(o.(reason := Some(text))) && Extends(o, o.(reason := Some(text)))
  {
  }

  lemma CloseSettles(o: Order, a: Action)
    requires Settled(o) && (o.status.New? || o.status.PartiallyFilled?) && Closes(a)
    ensures var e := Execute(o, a);
            !e.raised && Settled(e.order) && Extends(o, e.order) && HandleKept(o, e.order)
            && e.order.status == (if a.Expire? then Expired else Cancelled)
            && e.order.fills == o.fills && e.order.handle == o.handle
            && e.order.quantity == o.quantity && e.order.price == o.price
  {
    if a.Expire? {
      hide Audited, Mirrored, Dedup, LegalWalk, Total;
      WriteKeepsCoherence(o, Status(Expired));
    } else {
      hide Settled;
      var o1 := if a.PostAckReject? then o.(reason := Some(a.reason)) else o;
      assert a.PostAckReject? ==> Try(o, Reason(a.reason)) == Effect(o1, false);
      hide Commit;
      if a.PostAckReject? {
        ReasonSettles(o, a.reason);
      }
      TwoStepSettles(o1);
    }
  }

  lemma ConfirmSettles(o: Order)
    requires Settled(o) && o.status.PendingCancel?
    ensures var e := Execute(o, CancelConfirm);
            !e.raised && Settled(e.order) && Extends(o, e.order) && HandleKept(o, e.order)
            && e.order.status == Cancelled && e.order.fills == o.fills && e.order.handle == o.handle
            && e.order.quantity == o.quantity && e.order.price == o.price
  {
    hide Audited, Mirrored;
    WriteKeepsCoherence(o, Status(Cancelled));
  }

  lemma RejectSettles(o: Order, why: string)
    requires Settled(o) && o.status.PendingNew?
    ensures var e := Execute(o, Reject(why));
            !e.raised && Settled(e.order) && Extends(o, e.order) && HandleKept(o, e.order)
            && e.order.status == Rejected && e.order.fills == o.fills && e.order.handle == None
            && e.order.quantity == o.quantity && e.order.price == o.price
  {
    hide Audited, Mirrored;
    WriteKeepsCoherence(o, Status(Rejected));
    WriteKeepsCoherence(After(o, Status(Rejected)), Reason(why));
  }

  // ---------------------------------------------------------------- a whole plan

  lemma ExecuteOne(o: Order, a: Action)
    ensures var e := Execute(o, a); ExecuteAll(o, [a]) == Outcome(e.order, if e.raised then 0 else 1)
  {
  }

  lemma {:induction false} ExecuteConcat(o: Order, p: seq<Action>, q: seq<Action>)
    ensures var mid := ExecuteAll(o, p);
            var end := ExecuteAll(mid.order, q);
            ExecuteAll(o, p + q) == Outcome(end.order, mid.applied + end.applied)
  {
    hide Execute;
    if q == [] {
      assert p + q == p;
    } else {
      ExecuteConcat(o, p, q[..|q| - 1]);
      assert (p + q)[..|p + q| - 1] == p + q[..|q| - 1];
    }
  }

  /** What each stage of a plan keeps. */
  ghost predicate Continues(o: Order, later: Order) {
    && Settled(later) && Extends(o, later) && HandleKept(o, later)
    && later.quantity == o.quantity && later.price == o.price
  }

  lemma ContinuesTransitive(a: Order, b: Order, c: Order)
    requires Continues(a, b) && Continues(b, c)
    ensures Continues(a, c)
  {
  }

  function AckPart(o: Order, item: VenueItem): seq<Action> {
    if o.status.PendingNew? then [DoAck(item.orderNo)] else []
  }

  function ClosePart(v: Venue, o: Order, item: VenueItem): seq<Action> {
    if item.matched < o.quantity then TerminalActions(v, o, item) else []
  }

  /** A live row: the venue row found for it is acknowledged, filled and closed in this order. */
  predicate Fillable(o: Order, item: VenueItem) {
    o.status.New? || o.status.PartiallyFilled? || (o.status.PendingNew? && !item.state.VenueRejected?)
  }

  lemma AckStage(o: Order, item: VenueItem)
    requires Settled(o) && Fillable(o, item)
    ensures var r := ExecuteAll(o, AckPart(o, item));
            && r.applied == |AckPart(o, item)| && Continues(o, r.order)
            && r.order.fills == o.fills
            && (if o.status.PendingNew? then r.order.status == New && r.order.handle == Some(item.orderNo)
                else r.order == o)
  {
    hide Audited, Mirrored, Extends, Execute;
    ExtendsReflexive(o);
    if o.status.PendingNew? {
      ExecuteOne(o, DoAck(item.orderNo));
      AckSettles(o, item.orderNo);
    }
  }

  /** On the acknowledged row `o1`, the planned fill (if any) is recorded unless its id already is. */
  lemma FillStage(v: Venue, o: Order, o1: Order, item: VenueItem)
    requires Settled(o1) && (o1.status.New? || o1.status.PartiallyFilled?)
    requires o1.fills == o.fills && o1.quantity == o.quantity
    ensures var plan := PlanFill(v, o, Total(o.fills), item);
            var r := ExecuteAll(o1, plan);
            && r.applied == |plan| <= 1 && Continues(o1, r.order) && r.order.handle == o1.handle
            && (if plan == [] then r.order == o1
                else (r.order.status.PartiallyFilled? || (r.order.status.Filled? && item.matched >= o.quantity))
                     && r.order.fills == (if HasFill(o1.fills, plan[0].fill.id) then o1.fills
                                          else o1.fills + [plan[0].fill]))
  {
    hide Audited, Mirrored, Extends, Execute, FillPriceFor, FillId;
    ExtendsReflexive(o1);
    var plan := PlanFill(v, o, Total(o.fills), item);
    if plan != [] {
      ExecuteOne(o1, plan[0]);
      FillSettles(o1, plan[0].fill);
      TotalAppend(o.fills, plan[0].fill);
    }
  }

  /** The venue's own terminal is applied last. */
  lemma CloseStage(v: Venue, o: Order, o2: Order, item: VenueItem)
    requires Settled(o2) && Fillable(o, item) && o2.quantity == o.quantity
    requires o2.status.New? || o2.status.PartiallyFilled? || (o2.status.Filled? && item.matched >= o.quantity)
    ensures var plan := ClosePart(v, o, item);
            var r := ExecuteAll(o2, plan);
            && r.applied == |plan| <= 1 && Continues(o2, r.order)
            && r.order.handle == o2.handle && r.order.fills == o2.fills
            && r.order.status == (if plan == [] then o2.status
                                  else if item.state.VenueExpired? then Expired else Cancelled)
            && (plan == [] ==> r.order == o2)
  {
    hide Audited, Mirrored, Extends, Execute;
    ExtendsReflexive(o2);
    var plan := ClosePart(v, o, item);
    if plan != [] {
      ExecuteOne(o2, plan[0]);
      CloseSettles(o2, plan[0]);
    }
  }

  /** A plan against a found venue row is its three stages in sequence. */
  lemma PresentPlan(v: Venue, o: Order, item: VenueItem) returns (o1: Order, o2: Order)
    requires Settled(o) && Fillable(o, item)
    ensures o1 == ExecuteAll(o, AckPart(o, item)).order
    ensures o2 == ExecuteAll(o1, PlanFill(v, o, Total(o.fills), item)).order
    ensures Continues(o, o1) && Continues(o1, o2) && o1.fills == o.fills
    ensures if o.status.PendingNew? then o1.status == New && o1.handle == Some(item.orderNo) else o1 == o
    ensures o2.status.New? || o2.status.PartiallyFilled? || (o2.status.Filled? && item.matched >= o.quantity)
    ensures var plan := PlanPresent(v, o, Total(o.fills), item);
            var r := ExecuteAll(o, plan);
            && r.applied == |plan| <= 3 && r.order == ExecuteAll(o2, ClosePart(v, o, item)).order
            && Continues(o, r.order)
  {
    hide Settled, Extends, PlanFill, ExecuteAll, TerminalActions, Total, HasFill;
    var p, q, t := AckPart(o, item), PlanFill(v, o, Total(o.fills), item), ClosePart(v, o, item);
    assert PlanPresent(v, o, Total(o.fills), item) == p + q + t;
    ExecuteConcat(o, p + q, t);
    ExecuteConcat(o, p, q);
    o1 := ExecuteAll(o, p).order;
    AckStage(o, item);
    o2 := ExecuteAll(o1, q).order;
    FillStage(v, o, o1, item);
    CloseStage(v, o, o2, item);
    ContinuesTransitive(o, o1, o2);
    ContinuesTransitive(o, o2, ExecuteAll(o2, t).order);
  }

  /** Where a plan against a found, live row ends. */
  lemma PresentOutcome(v: Venue, o: Order, item: VenueItem)
    requires Settled(o) && Fillable(o, item)
    ensures var later := ExecuteAll(o, PlanPresent(v, o, Total(o.fills), item)).order;
            && Continues(o, later)
            && later.handle == (if o.status.PendingNew? then Some(item.orderNo) else o.handle)
            && if item.matched < o.quantity && !item.state.Resting? then
                 later.status == if item.state.VenueExpired? then Expired else Cancelled
               else
                 || later.status.New? || later.status.PartiallyFilled?
                 || (later.status.Filled? && item.matched >= o.quantity)
  {
    hide Settled, Extends, PlanFill, ExecuteAll, PlanPresent, Total, HasFill;
    var o1, o2 := PresentPlan(v, o, item);
    FillStage(v, o, o1, item);
    CloseStage(v, o, o2, item);
  }

  /** Where every other plan ends: nothing happens, a cancel is confirmed, or the order is rejected. */
  lemma OtherOutcome(v: Venue, o: Order, item: Option<VenueItem>, now: int, ambiguous: bool)
    requires Settled(o) && InWorkingSet(o) && (item.Some? ==> !Fillable(o, item.value))
    ensures var plan := PlanActions(v, o, Total(o.fills), item, now, ambiguous);
            var r := ExecuteAll(o, plan);
            && r.applied == |plan| <= 1 && Continues(o, r.order)
            && r.order.fills == o.fills && r.order.handle == o.handle
            && (plan == [] ==> r.order == o)
            && (plan != [] ==> r.order.status == if o.status.PendingCancel? then Cancelled else Rejected)
            && (plan != [] ==> o.status.PendingCancel? || o.status.PendingNew?)
  {
    hide Audited, Mirrored, Extends, Execute, PlanFill;
    var plan := PlanActions(v, o, Total(o.fills), item, now, ambiguous);
    ExtendsReflexive(o);
    if plan != [] {
      ExecuteOne(o, plan[0]);
      if o.status.PendingCancel? {
        ConfirmSettles(o);
      } else {
        RejectSettles(o, plan[0].reason);
      }
    }
  }

  /**
    Plan soundness: for every settled row of the working set and every venue row, clock and
    ambiguity flag, the whole plan applies, along frozen edges, and leaves a settled row.
   */
  lemma PlanSound(v: Venue, o: Order, item: Option<VenueItem>, now: int, ambiguous: bool)
    requires Settled(o) && InWorkingSet(o)
    ensures var plan := PlanActions(v, o, Total(o.fills), item, now, ambiguous);
            var r := ExecuteAll(o, plan);
            r.applied == |plan| <= 3 && Continues(o, r.order)
  {
    hide Settled, Extends, ExecuteAll, PlanFill;
    if item.Some? && Fillable(o, item.value) {
      var _, _ := PresentPlan(v, o, item.value);
    } else {
      OtherOutcome(v, o, item, now, ambiguous);
    }
  }
}
