/** Submit, cancel, both amends and mass-cancel, as sequences of store writes around venue replies. */
module Routers {
  import opened StateMachine
  import opened Common
  import opened Sequences
  import opened Orders
  import opened OrderStores

  // ---------------------------------------------------------------- venue replies

  datatype PlaceReply =
    | PlaceRaised
    | PlaceRejected(why: Option<string>)
    | NoHandle
    | Accepted(handle: string, fills: seq<Fill>, remainderCancelled: bool, remainderRaises: bool)

  datatype CancelReply = Confirmed | NotConfirmed | CancelRaised

  datatype AmendReply = AmendOk | AmendRefused | AmendRaised

  /** Execution reports carry positive quantities. */
  predicate ValidReply(p: PlaceReply) {
    p.Accepted? ==> forall i :: 0 <= i < |p.fills| ==> p.fills[i].quantity > 0
  }

  // ---------------------------------------------------------------- one order

  function FillAll(e: Effect, fills: seq<Fill>, total: int): Effect {
    if fills == [] then e else Then(FillAll(e, fills[..|fills| - 1], total), RecordFill(fills[|fills| - 1], total))
  }

  /** What each venue reply to a placement writes to the row. */
  function PlaceAndSettle(o: Order, reply: PlaceReply): Effect {
    match reply
    case PlaceRaised => Effect(o, true)
    case PlaceRejected(why) =>
      Then(Try(o, Status(Rejected)), Reason(if why.Some? && why.value != "" then why.value else "rejected by adapter"))
    case NoHandle => Effect(o, false)
    case Accepted(h, fills, remainder, raises) =>
      var e := FillAll(Try(o, Ack(h)), fills, o.request.quantity);
      if remainder then CancelRemainder(e, raises) else e
  }

  /** The unfilled rest is cancelled in two steps; the venue call between them may raise. */
  function CancelRemainder(e: Effect, raises: bool): Effect {
    var f := Then(e, Status(PendingCancel));
    if f.raised || raises then Effect(f.order, true) else Then(f, Status(Cancelled))
  }

  /** PENDING_CANCEL first, CANCELLED only on a confirmed venue cancel. */
  function CancelAtVenue(o: Order, reply: CancelReply): Effect {
    var e := Try(o, Status(PendingCancel));
    if e.raised || !reply.Confirmed? then Effect(e.order, true) else Then(e, Status(Cancelled))
  }

  function CancelOrder(o: Order, gate: bool, reply: CancelReply): Effect {
    if o.status.PendingCancel? then Effect(o, false)
    else if IsTerminal(o.status) || o.status.PendingNew? || o.status.PendingReplace? || !gate then Effect(o, true)
    else CancelAtVenue(o, reply)
  }

  /** The pre-flight of a native amend: status, quantities and the order contract. */
  predicate Amendable(o: Order, newPrice: Option<real>, newQty: Option<int>) {
    && (newPrice.Some? || newQty.Some?)
    && (o.status.New? || o.status.PartiallyFilled?)
    && (newQty.Some? ==> newQty.value > Total(o.fills)
                         && (o.request.displayQty.Some? ==> newQty.value >= o.request.displayQty.value))
    && (newPrice.Some? ==> newPrice.value > 0.0)
  }

  /** A partly filled order goes back to PARTIALLY_FILLED after the amend. */
  function RestorePartial(e: Effect, filled: int): Effect {
    if filled > 0 then Then(e, Status(PartiallyFilled)) else e
  }

  function AmendNative(o: Order, newPrice: Option<real>, newQty: Option<int>, gate: bool, reply: AmendReply): Effect {
    if !Amendable(o, newPrice, newQty) || !gate then Effect(o, true)
    else
      var filled := Total(o.fills);
      var e := Try(o, Status(PendingReplace));
      match reply
      case AmendOk => RestorePartial(Then(e, Replace(newPrice, newQty)), filled)
      case AmendRefused => Effect(RestorePartial(Then(e, Status(New)), filled).order, true)
      case AmendRaised => Effect(e.order, true)
  }

  /** The replacement of a cancel-and-replace amend, under its own id. */
  function AmendedRequest(o: Order, newCid: string, newPrice: Option<real>, newQty: Option<int>): OrderRequest {
    o.request.(cid := newCid,
               price := if newPrice.Some? then newPrice else o.price,
               quantity := if newQty.Some? then newQty.value else o.quantity,
               control := SimControl(None, None))
  }

  // ---------------------------------------------------------------- the store

  /** A submitted request: refused, a duplicate, or inserted and placed. */
  function SubmitStore(store: Store, r: OrderRequest, createdAt: int, gate: bool, reply: PlaceReply): Store {
    if r.cid in store || !gate then store
    else store[r.cid := PlaceAndSettle(Inserted(r, createdAt), reply).order]
  }

  function CancelStore(store: Store, cid: string, gate: bool, reply: CancelReply): Store {
    if cid in store then store[cid := CancelOrder(store[cid], gate, reply).order] else store
  }

  function AmendNativeStore(
    store: Store, cid: string, newPrice: Option<real>, newQty: Option<int>, gate: bool, reply: AmendReply
  ): Store {
    if cid in store then store[cid := AmendNative(store[cid], newPrice, newQty, gate, reply).order] else store
  }

  /** What a cancel-and-replace amend needs besides its order: the kill switch open, a change, and a fresh id. */
  predicate Replaceable(
    store: Store, cid: string, newCid: Option<string>, newPrice: Option<real>, newQty: Option<int>,
    engaged: bool
  ) {
    !engaged && (newPrice.Some? || newQty.Some?) && cid in store && newCid.Some?
  }

  predicate SubmitRaises(store: Store, r: OrderRequest, createdAt: int, engaged: bool, gate: bool, reply: PlaceReply) {
    engaged || (r.cid !in store && (!gate || PlaceAndSettle(Inserted(r, createdAt), reply).raised))
  }

  /**
    Cancel the old order, then submit the replacement — the latter only if the cancel did not
    raise. The kill switch is read again by the submit (`halted`).
   */
  function CancelThenSubmit(store: Store, cid: string, r: OrderRequest, cancelGate: bool, cancelReply: CancelReply,
                            createdAt: int, halted: bool, submitGate: bool, reply: PlaceReply): (Store, bool)
    requires cid in store
  {
    var cancelled := CancelStore(store, cid, cancelGate, cancelReply);
    if CancelOrder(store[cid], cancelGate, cancelReply).raised || !ValidRequest(r) then (cancelled, true)
    else
      (SubmitStore(cancelled, r, createdAt, submitGate && !halted, reply),
       SubmitRaises(cancelled, r, createdAt, halted, submitGate, reply))
  }

  /** The store after a cancel-and-replace amend, and whether it raised. */
  function CancelReplace(
    store: Store, cid: string, newCid: Option<string>, newPrice: Option<real>, newQty: Option<int>,
    engaged: bool, cancelGate: bool, cancelReply: CancelReply, createdAt: int, halted: bool, submitGate: bool,
    reply: PlaceReply
  ): (Store, bool) {
    if !Replaceable(store, cid, newCid, newPrice, newQty, engaged) then (store, true)
    else
      CancelThenSubmit(store, cid, AmendedRequest(store[cid], newCid.value, newPrice, newQty),
                       cancelGate, cancelReply, createdAt, halted, submitGate, reply)
  }

  /** The flatten sweep over the open orders; `gate` says whether an adapter resolves. */
  function SweepStore(store: Store, open: seq<string>, gate: string -> bool, reply: string -> CancelReply): Store {
    if open == [] then store
    else
      var before := SweepStore(store, open[..|open| - 1], gate, reply);
      var cid := open[|open| - 1];
      if cid in before && gate(cid) then before[cid := CancelAtVenue(before[cid], reply(cid)).order] else before
  }

  class Router {
    const store: OrderStore

    constructor (store: OrderStore)
      ensures this.store == store
    {
      this.store := store;
    }

    /**
      Kill switch first, then dedupe, then the remaining gates; insert, place and settle.
      Returns whether an exception reached the caller and whether a prior result was served.
     */
    method Submit(
      r: OrderRequest, createdAt: int, engaged: bool, gate: bool, reply: PlaceReply
    ) returns (raised: bool, duplicate: bool)
      modifies store
      ensures store.orders == SubmitStore(old(store.orders), r, createdAt, gate && !engaged, reply)
      ensures duplicate == (!engaged && r.cid in old(store.orders))
      ensures raised == SubmitRaises(old(store.orders), r, createdAt, engaged, gate, reply)
    {
      if engaged {
        return true, false;
      }
      if r.cid in store.orders {
        return false, true;
      }
      if !gate {
        return true, false;
      }
      var dup := store.InsertOrder(r, createdAt);
      var ok := Settle(r.cid, reply);
      return !ok, false;
    }

    method Settle(cid: string, reply: PlaceReply) returns (ok: bool)
      requires cid in store.orders
      modifies store
      ensures var e := PlaceAndSettle(old(store.orders)[cid], reply);
              store.orders == old(store.orders)[cid := e.order] && ok == !e.raised
    {
      hide Commit, FillAll;
      ghost var before := store.orders;
      match reply {
        case PlaceRaised =>
          assert before[cid := before[cid]] == before;
          return false;
        case NoHandle =>
          assert before[cid := before[cid]] == before;
          return true;
        case PlaceRejected(why) =>
          var text := if why.Some? && why.value != "" then why.value else "rejected by adapter";
          ok := store.UpdateStatus(cid, Rejected);
          if ok {
            ReasonSucceeds(store.orders[cid], text);
            store.SetRejectReason(cid, text);
          }
        case Accepted(h, fills, remainder, raises) =>
          ok := SettleAccepted(cid, h, fills, remainder, raises);
      }
    }

    method SettleAccepted(cid: string, h: string, fills: seq<Fill>, remainder: bool, raises: bool) returns (ok: bool)
      requires cid in store.orders
      modifies store
      ensures var e := PlaceAndSettle(old(store.orders)[cid], Accepted(h, fills, remainder, raises));
              store.orders == old(store.orders)[cid := e.order] && ok == !e.raised
    {
      hide Commit, FillAll;
      ghost var before := store.orders;
      var total := store.orders[cid].request.quantity;
      ok := store.AckOrder(cid, h);
      ghost var e := Try(before[cid], Ack(h));
      if !ok {
        FillAllStuck(e, fills, total);
        assert store.orders == before[cid := e.order];
        return;
      }
      ok := ApplyFills(cid, fills, total);
      e := FillAll(e, fills, total);
      assert store.orders == before[cid := e.order] && ok == !e.raised;
      if ok && remainder {
        ok := CancelRest(cid, raises);
      }
    }

    method CancelRest(cid: string, raises: bool) returns (ok: bool)
      requires cid in store.orders
      modifies store
      ensures var e := CancelRemainder(Effect(old(store.orders)[cid], false), raises);
              store.orders == old(store.orders)[cid := e.order] && ok == !e.raised
    {
      hide Commit;
      ok := store.UpdateStatus(cid, PendingCancel);
      if !ok || raises {
        return false;
      }
      ok := store.UpdateStatus(cid, Cancelled);
    }

    /** Fills are persisted one by one; the first that raises ends the settlement. */
    method ApplyFills(cid: string, fills: seq<Fill>, total: int) returns (ok: bool)
      requires cid in store.orders
      modifies store
      ensures var e := FillAll(Effect(old(store.orders)[cid], false), fills, total);
              store.orders == old(store.orders)[cid := e.order] && ok == !e.raised
    {
      hide Commit;
      ghost var before := store.orders;
      ghost var start := Effect(before[cid], false);
      assert before[cid := before[cid]] == before;
      ok := true;
      var k := 0;
      while ok && k < |fills|
        invariant k <= |fills|
        invariant store.orders == before[cid := FillAll(start, fills[..k], total).order]
        invariant ok == !FillAll(start, fills[..k], total).raised
        decreases |fills| - k
      {
        assert fills[..k + 1][..k] == fills[..k];
        ok := store.ApplyFill(cid, fills[k], total);
        k := k + 1;
      }
      if !ok {
        FillAllRaised(start, fills, k, total);
      } else {
        assert fills[..k] == fills;
      }
    }

    /** Returns whether an exception reached the caller. */
    method Cancel(cid: string, gate: bool, reply: CancelReply) returns (raised: bool)
      modifies store
      ensures store.orders == CancelStore(old(store.orders), cid, gate, reply)
      ensures raised == (cid in old(store.orders) ==> CancelOrder(old(store.orders)[cid], gate, reply).raised)
    {
      if cid !in store.orders {
        return true;
      }
      var row := store.orders[cid];
      assert store.orders[cid := row] == store.orders;
      if IsTerminal(row.status) {
        return true;
      }
      if row.status.PendingCancel? {
        return false;
      }
      if row.status.PendingNew? || row.status.PendingReplace? || !gate {
        return true;
      }
      var ok := SweepOne(cid, reply);
      return !ok;
    }

    /** The two guarded updates around the venue cancel, shared by cancel and the sweep. */
    method SweepOne(cid: string, reply: CancelReply) returns (ok: bool)
      requires cid in store.orders
      modifies store
      ensures var e := CancelAtVenue(old(store.orders)[cid], reply);
              store.orders == old(store.orders)[cid := e.order] && ok == !e.raised
    {
      hide Commit;
      ok := store.UpdateStatus(cid, PendingCancel);
      if !ok || !reply.Confirmed? {
        return false;
      }
      ok := store.UpdateStatus(cid, Cancelled);
    }

    method AmendInPlace(
      cid: string, newPrice: Option<real>, newQty: Option<int>, gate: bool, reply: AmendReply
    ) returns (raised: bool)
      modifies store
      ensures store.orders == AmendNativeStore(old(store.orders), cid, newPrice, newQty, gate, reply)
      ensures raised ==
              (cid in old(store.orders) ==> AmendNative(old(store.orders)[cid], newPrice, newQty, gate, reply).raised)
    {
      hide Commit, Amendable, Total;
      if cid !in store.orders {
        return true;
      }
      var row := store.orders[cid];
      if !Amendable(row, newPrice, newQty) || !gate {
        assert store.orders[cid := row] == store.orders;
        return true;
      }
      var filled := Total(row.fills);
      var ok := store.UpdateStatus(cid, PendingReplace);
      if !ok || reply.AmendRaised? {
        return true;
      }
      ok := EndAmend(cid, newPrice, newQty, filled, reply.AmendOk?);
      return !ok || reply.AmendRefused?;
    }

    /** The venue has answered: write the new values or go back, then restore a partial fill. */
    method EndAmend(
      cid: string, newPrice: Option<real>, newQty: Option<int>, filled: int, accepted: bool
    ) returns (ok: bool)
      requires cid in store.orders
      modifies store
      ensures var w := if accepted then Replace(newPrice, newQty) else Status(New);
              var e := RestorePartial(Try(old(store.orders)[cid], w), filled);
              store.orders == old(store.orders)[cid := e.order] && ok == !e.raised
    {
      hide Commit;
      if accepted {
        ok := store.ReplaceOrder(cid, newPrice, newQty);
      } else {
        ok := store.UpdateStatus(cid, New);
      }
      if ok {
        ok := Restore(cid, filled);
      }
    }

    method Restore(cid: string, filled: int) returns (ok: bool)
      requires cid in store.orders
      modifies store
      ensures var e := RestorePartial(Effect(old(store.orders)[cid], false), filled);
              store.orders == old(store.orders)[cid := e.order] && ok == !e.raised
    {
      hide Commit;
      if filled > 0 {
        ok := store.UpdateStatus(cid, PartiallyFilled);
      } else {
        assert store.orders[cid := store.orders[cid]] == store.orders;
        ok := true;
      }
    }

    method AmendByReplacement(
      cid: string, newCid: Option<string>, newPrice: Option<real>, newQty: Option<int>, engaged: bool,
      cancelGate: bool, cancelReply: CancelReply, createdAt: int, halted: bool, submitGate: bool,
      reply: PlaceReply
    )
      returns (raised: bool)
      modifies store
      ensures (store.orders, raised) == CancelReplace(old(store.orders), cid, newCid, newPrice, newQty, engaged,
                                                      cancelGate, cancelReply, createdAt, halted, submitGate, reply)
    {
      hide CancelThenSubmit, AmendedRequest;
      if engaged || (newPrice.None? && newQty.None?) || cid !in store.orders || newCid.None? {
        return true;
      }
      var replacement := AmendedRequest(store.orders[cid], newCid.value, newPrice, newQty);
      raised := CancelAndSubmit(cid, replacement, cancelGate, cancelReply, createdAt, halted, submitGate, reply);
    }

    method CancelAndSubmit(cid: string, r: OrderRequest, cancelGate: bool, cancelReply: CancelReply,
                           createdAt: int, halted: bool, submitGate: bool, reply: PlaceReply)
      returns (raised: bool)
      requires cid in store.orders
      modifies store
      ensures (store.orders, raised) ==
              CancelThenSubmit(old(store.orders), cid, r, cancelGate, cancelReply, createdAt, halted, submitGate, reply)
    {
      hide CancelOrder, PlaceAndSettle, ValidRequest, CancelStore, SubmitStore, SubmitRaises;
      raised := Cancel(cid, cancelGate, cancelReply);
      if raised || !ValidRequest(r) {
        return true;
      }
      var duplicate;
      raised, duplicate := Submit(r, createdAt, halted, submitGate, reply);
    }

    /** Tries every listed order in turn; one that cannot be cancelled goes on the second list. */
    method MassCancel(open: seq<string>, gate: string -> bool, reply: string -> CancelReply)
      returns (cancelled: seq<string>, failed: seq<string>)
      requires Open(store.orders, open)
      modifies store
      ensures store.orders == SweepStore(old(store.orders), open, gate, reply)
      ensures cancelled == Swept(open, gate, reply, true) && failed == Swept(open, gate, reply, false)
    {
      hide CancelAtVenue;
      cancelled, failed := [], [];
      ghost var before := store.orders;
      for k := 0 to |open|
        invariant store.orders == SweepStore(before, open[..k], gate, reply)
        invariant cancelled == Swept(open[..k], gate, reply, true)
        invariant failed == Swept(open[..k], gate, reply, false)
      {
        var cid := open[k];
        assert open[..k + 1][..k] == open[..k];
        assert cid !in open[..k];
        SweepFrame(before, open[..k], gate, reply);
        if gate(cid) {
          VenueCancelEnds(store.orders[cid], reply(cid));
          var ok := SweepOne(cid, reply(cid));
          if ok {
            cancelled := cancelled + [cid];
          } else {
            failed := failed + [cid];
          }
        } else {
          failed := failed + [cid];
        }
      }
      assert open[..|open|] == open;
    }
  }

  /** The open-order listing: each order once, all of them resting at the venue. */
  ghost predicate Open(store: Store, open: seq<string>) {
    && Distinct(open)
    && (forall c :: c in open ==> c in store && (store[c].status.New? || store[c].status.PartiallyFilled?))
  }

  /** The listed orders whose cancel was confirmed (`want`), or was not. */
  function Swept(open: seq<string>, gate: string -> bool, reply: string -> CancelReply, want: bool): seq<string> {
    if open == [] then []
    else
      var cid := open[|open| - 1];
      Swept(open[..|open| - 1], gate, reply, want)
      + (if (gate(cid) && reply(cid).Confirmed?) == want then [cid] else [])
  }

  lemma {:induction false} SweptMembers(
    open: seq<string>, gate: string -> bool, reply: string -> CancelReply, want: bool, c: string
  )
    ensures c in Swept(open, gate, reply, want) <==> c in open && (gate(c) && reply(c) == Confirmed) == want
  {
    if open != [] {
      SweptMembers(open[..|open| - 1], gate, reply, want, c);
      assert open == open[..|open| - 1] + [open[|open| - 1]];
    }
  }

  /** Every listed order is reported once: as cancelled exactly when its cancel was confirmed, else as failed. */
  lemma {:induction false} SweptPartition(open: seq<string>, gate: string -> bool, reply: string -> CancelReply)
    ensures |Swept(open, gate, reply, true)| + |Swept(open, gate, reply, false)| == |open|
    ensures forall c :: c in Swept(open, gate, reply, true) <==> c in open && gate(c) && reply(c) == Confirmed
    ensures forall c :: c in Swept(open, gate, reply, false) <==> c in open && !(gate(c) && reply(c) == Confirmed)
  {
    if open != [] {
      SweptPartition(open[..|open| - 1], gate, reply);
    }
    forall c
      ensures c in Swept(open, gate, reply, true) <==> c in open && gate(c) && reply(c) == Confirmed
      ensures c in Swept(open, gate, reply, false) <==> c in open && !(gate(c) && reply(c) == Confirmed)
    {
      SweptMembers(open, gate, reply, true, c);
      SweptMembers(open, gate, reply, false, c);
    }
  }

  lemma {:induction false} SweepFrame(
    store: Store, open: seq<string>, gate: string -> bool, reply: string -> CancelReply
  )
    ensures var later := SweepStore(store, open, gate, reply);
            later.Keys == store.Keys && forall c :: c in store && c !in open ==> later[c] == store[c]
  {
    hide CancelAtVenue;
    if open != [] {
      SweepFrame(store, open[..|open| - 1], gate, reply);
      assert open == open[..|open| - 1] + [open[|open| - 1]];
    }
  }

  ghost predicate SweptAs(
    store: Store, later: Store, open: seq<string>, gate: string -> bool, reply: string -> CancelReply,
    c: string
  )
    requires c in store && c in later
  {
    if !gate(c) then later[c] == store[c] && c in Swept(open, gate, reply, false)
    else if reply(c).Confirmed? then later[c].status == Cancelled && c in Swept(open, gate, reply, true)
    else later[c].status == PendingCancel && c in Swept(open, gate, reply, false)
  }

  /**
    After the sweep no listed order is left resting, except where no adapter could be resolved:
    confirmed cancels are CANCELLED and reported so, all others are reported as failures.
   */
  lemma {:induction false} SweepOutcome(
    store: Store, open: seq<string>, gate: string -> bool, reply: string -> CancelReply, c: string
  )
    requires Open(store, open) && c in open
    ensures var later := SweepStore(store, open, gate, reply);
            c in later && SweptAs(store, later, open, gate, reply, c)
  {
    hide CancelAtVenue;
    var init, cid := open[..|open| - 1], open[|open| - 1];
    assert open == init + [cid];
    SweepFrame(store, init, gate, reply);
    if c == cid {
      assert cid !in init;
      VenueCancelEnds(store[cid], reply(cid));
    } else {
      SweepOutcome(store, init, gate, reply, c);
    }
  }

  /** A cancel of an open order ends CANCELLED exactly when it is confirmed, else PENDING_CANCEL. */
  lemma VenueCancelEnds(o: Order, reply: CancelReply)
    requires o.status.New? || o.status.PartiallyFilled?
    ensures var e := CancelAtVenue(o, reply);
            e.raised == !reply.Confirmed? && e.order.status == if reply.Confirmed? then Cancelled else PendingCancel
  {
  }

  lemma {:induction false} FillAllStuck(e: Effect, fills: seq<Fill>, total: int)
    requires e.raised
    ensures FillAll(e, fills, total) == e
  {
    if fills != [] {
      FillAllStuck(e, fills[..|fills| - 1], total);
    }
  }

  lemma {:induction false} FillAllRaised(e: Effect, fills: seq<Fill>, k: nat, total: int)
    requires k <= |fills| && FillAll(e, fills[..k], total).raised
    ensures FillAll(e, fills, total) == FillAll(e, fills[..k], total)
  {
    if k < |fills| {
      var init := fills[..|fills| - 1];
      assert init[..k] == fills[..k];
      FillAllRaised(e, init, k, total);
    } else {
      assert fills[..k] == fills;
    }
  }
}
