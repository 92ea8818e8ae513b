/** The lifecycle invariant over every run of submits, cancels, amends, sweeps and reconcile passes. */
module Runs {
  import opened StateMachine
  import opened Common
  import opened Sequences
  import opened Orders
  import opened Lifecycle
  import opened Reconcile
  import opened PlanSoundness
  import opened FillConservation
  import opened Passes
  import opened Reconcilers
  import opened Routers

  // ---------------------------------------------------------------- one order, one operation

  /** What an order keeps from one operation boundary to any later one. */
  ghost predicate Evolves(o: Order, later: Order) {
    Settled(later) && Extends(o, later) && HandleKept(o, later)
  }

  lemma EvolvesReflexive(o: Order)
    requires Settled(o)
    ensures Evolves(o, o)
  {
  }

  lemma EvolvesTransitive(a: Order, b: Order, c: Order)
    requires Evolves(a, b) && Evolves(b, c)
    ensures Evolves(a, c)
  {
  }

  /** The moves that never change fills: out of PENDING_NEW to REJECTED, and into the pending and closed states. */
  lemma MoveSettles(o: Order, to: OrderState)
    requires Settled(o) && LegalEdge(o.status, to)
    requires to.PendingCancel? || to.Cancelled? || to.PendingReplace? || to.Rejected?
    ensures var e := Try(o, Status(to));
            !e.raised && Evolves(o, e.order) && e.order.status == to && e.order.fills == o.fills
            && e.order.quantity == o.quantity
  {
    hide Audited, Mirrored;
    WriteKeepsCoherence(o, Status(to));
  }

  /** A row whose request was valid stays settled through the acknowledgement's fills. */
  lemma {:induction false} FillAllSettles(o: Order, fills: seq<Fill>)
    requires Settled(o) && (o.status.New? || o.status.PartiallyFilled? || o.status.Filled?)
    requires forall i :: 0 <= i < |fills| ==> fills[i].quantity > 0
    ensures var e := FillAll(Effect(o, false), fills, o.quantity);
            && !e.raised && Settled(e.order) && Extends(o, e.order) && HandleKept(o, e.order)
            && e.order.quantity == o.quantity
            && (e.order.status.New? || e.order.status.PartiallyFilled? || e.order.status.Filled?)
  {
    hide Audited, Mirrored, Extends;
    if fills == [] {
      ExtendsReflexive(o);
    } else {
      var f := fills[|fills| - 1];
      FillAllSettles(o, fills[..|fills| - 1]);
      var mid := FillAll(Effect(o, false), fills[..|fills| - 1], o.quantity).order;
      FillSettlesOrOverfills(mid, f);
      ExtendsTransitive(o, mid, After(mid, RecordFill(f, o.quantity)));
    }
  }

  /** A fill on a live order settles it; one more fill on a FILLED order leaves it FILLED. */
  lemma FillSettlesOrOverfills(o: Order, f: Fill)
    requires Settled(o) && (o.status.New? || o.status.PartiallyFilled? || o.status.Filled?) && f.quantity > 0
    ensures var e := Try(o, RecordFill(f, o.quantity));
            && !e.raised && Settled(e.order) && Extends(o, e.order) && HandleKept(o, e.order)
            && e.order.quantity == o.quantity
            && (e.order.status.PartiallyFilled? || e.order.status.Filled?)
            && e.order.fills == (if HasFill(o.fills, f.id) then o.fills else o.fills + [f])
  {
    if o.status.Filled? {
      hide Audited, Mirrored;
      TotalAppend(o.fills, f);
      WriteKeepsCoherence(o, RecordFill(f, o.quantity));
    } else {
      hide Settled, Extends, Commit;
      FillSettles(o, f);
    }
  }

  lemma VenueCancelEvolves(o: Order, reply: CancelReply)
    requires Settled(o) && (o.status.New? || o.status.PartiallyFilled?)
    ensures Evolves(o, CancelAtVenue(o, reply).order)
  {
    hide Settled, Extends, Commit, HandleKept;
    MoveSettles(o, PendingCancel);
    var mid := Try(o, Status(PendingCancel)).order;
    if reply.Confirmed? {
      MoveSettles(mid, Cancelled);
      EvolvesTransitive(o, mid, Try(mid, Status(Cancelled)).order);
    }
  }

  lemma CancelEvolves(o: Order, gate: bool, reply: CancelReply)
    requires Settled(o)
    ensures Evolves(o, CancelOrder(o, gate, reply).order)
  {
    hide Settled, Evolves, CancelAtVenue;
    EvolvesReflexive(o);
    if o.status.New? || o.status.PartiallyFilled? {
      VenueCancelEvolves(o, reply);
    }
  }

  lemma RejectedPlacement(o: Order, text: string)
    requires Settled(o) && o.status.PendingNew?
    ensures Evolves(o, Then(Try(o, Status(Rejected)), Reason(text)).order)
  {
    hide Audited, Mirrored;
    MoveSettles(o, Rejected);
    WriteKeepsCoherence(After(o, Status(Rejected)), Reason(text));
  }

  lemma PlacementEvolves(o: Order, reply: PlaceReply)
    requires Settled(o) && o.status.PendingNew? && o.quantity == o.request.quantity && ValidReply(reply)
    ensures Evolves(o, PlaceAndSettle(o, reply).order)
  {
    hide Settled, Extends, Commit, HandleKept, FillAll;
    EvolvesReflexive(o);
    match reply
    case PlaceRaised =>
    case NoHandle =>
    case PlaceRejected(why) =>
      RejectedPlacement(o, if why.Some? && why.value != "" then why.value else "rejected by adapter");
    case Accepted(h, fills, remainder, raises) =>
      AckSettles(o, h);
      var acked := Try(o, Ack(h)).order;
      FillAllSettles(acked, fills);
      var filled := FillAll(Effect(acked, false), fills, acked.quantity).order;
      EvolvesTransitive(o, acked, filled);
      if remainder {
        if filled.status.Filled? {
          FilledRefusesCancel(filled);
        } else {
          VenueCancelEvolves(filled, if raises then CancelRaised else Confirmed);
          EvolvesTransitive(o, filled, CancelAtVenue(filled, if raises then CancelRaised else Confirmed).order);
        }
      }
  }

  lemma FilledRefusesCancel(o: Order)
    requires o.status.Filled?
    ensures Try(o, Status(PendingCancel)) == Effect(o, true)
  {
  }

  lemma AmendEvolves(o: Order, newPrice: Option<real>, newQty: Option<int>, gate: bool, reply: AmendReply)
    requires Settled(o)
    ensures Evolves(o, AmendNative(o, newPrice, newQty, gate, reply).order)
  {
    hide Audited, Mirrored;
    EvolvesReflexive(o);
    if Amendable(o, newPrice, newQty) && gate {
      MoveSettles(o, PendingReplace);
      var mid := Try(o, Status(PendingReplace)).order;
      if !reply.AmendRaised? {
        AmendEnds(o, mid, if reply.AmendOk? then Replace(newPrice, newQty) else Status(New));
      }
    }
  }

  /** From PENDING_REPLACE back to the resting state the fills call for. */
  lemma AmendEnds(o: Order, mid: Order, w: Write)
    requires Settled(o) && (o.status.New? || o.status.PartiallyFilled?)
    requires Evolves(o, mid) && mid.status.PendingReplace? && mid.fills == o.fills && mid.quantity == o.quantity
    requires w == Status(New) || (w.Replace? && (w.newQty.Some? ==> w.newQty.value > Total(o.fills)))
    ensures Evolves(o, RestorePartial(Then(Effect(mid, false), w), Total(o.fills)).order)
  {
    hide Audited, Mirrored;
    WriteKeepsCoherence(mid, w);
    var back := After(mid, w);
    TotalNonNegative(o.fills);
    if Total(o.fills) > 0 {
      WriteKeepsCoherence(back, Status(PartiallyFilled));
    }
  }

  // ---------------------------------------------------------------- where an operation ends

  /** The first report under each id. */
  function FirstOfEach(fills: seq<Fill>): seq<Fill> {
    if fills == [] then []
    else
      var before, last := FirstOfEach(fills[..|fills| - 1]), fills[|fills| - 1];
      if HasFill(before, last.id) then before else before + [last]
  }

  lemma {:induction false} FillAllRecords(o: Order, fills: seq<Fill>)
    requires Settled(o) && o.status.New? && forall i :: 0 <= i < |fills| ==> fills[i].quantity > 0
    ensures FillAll(Effect(o, false), fills, o.quantity).order.fills == FirstOfEach(fills)
    ensures FillAll(Effect(o, false), fills, o.quantity).order.status.New? <==> fills == []
  {
    hide Audited, Mirrored, Extends, Commit, HasFill;
    if fills != [] {
      var init := fills[..|fills| - 1];
      FillAllRecords(o, init);
      FillAllSettles(o, init);
      FillSettlesOrOverfills(FillAll(Effect(o, false), init, o.quantity).order, fills[|fills| - 1]);
    }
  }

  /** An accepted placement, by what its reports add up to. */
  ghost predicate AcceptedAs(o: Order, e: Effect, h: string, fills: seq<Fill>, remainder: bool, raises: bool) {
    && e.order.handle == Some(h) && e.order.fills == FirstOfEach(fills)
    && if Total(e.order.fills) >= o.quantity then e.order.status.Filled? && e.raised == remainder
       else if !remainder then !e.raised && e.order.status == if fills == [] then New else PartiallyFilled
       else e.raised == raises && e.order.status == if raises then PendingCancel else Cancelled
  }

  /** Where every placement reply leaves the row. */
  lemma PlacementOutcome(o: Order, reply: PlaceReply)
    requires Settled(o) && o.status.PendingNew? && o.quantity == o.request.quantity && ValidReply(reply)
    ensures var e := PlaceAndSettle(o, reply);
            match reply
            case PlaceRaised => e == Effect(o, true)
            case NoHandle => e == Effect(o, false)
            case PlaceRejected(why) =>
              !e.raised && e.order.status.Rejected? && e.order.fills == []
              && e.order.reason == (if why.Some? && why.value != "" then why else Some("rejected by adapter"))
            case Accepted(h, fills, remainder, raises) => AcceptedAs(o, e, h, fills, remainder, raises)
  {
    assert o.fills == [];
    hide Settled, AcceptedAs, FillAll;
    if reply.Accepted? {
      AcceptedOutcome(o, reply.handle, reply.fills, reply.remainderCancelled, reply.remainderRaises);
    }
  }

  lemma AcceptedOutcome(o: Order, h: string, fills: seq<Fill>, remainder: bool, raises: bool)
    requires Settled(o) && o.status.PendingNew? && o.quantity == o.request.quantity
             && ValidReply(Accepted(h, fills, remainder, raises))
    ensures AcceptedAs(o, PlaceAndSettle(o, Accepted(h, fills, remainder, raises)), h, fills, remainder, raises)
  {
    hide Audited, Mirrored, Extends, Commit, FillAll, Total;
    AckSettles(o, h);
    var acked := Try(o, Ack(h)).order;
    FillAllSettles(acked, fills);
    FillAllRecords(acked, fills);
    var filled := FillAll(Effect(acked, false), fills, acked.quantity).order;
    if remainder && filled.status.Filled? {
      FilledRefusesCancel(filled);
    } else if remainder {
      MoveSettles(filled, PendingCancel);
      MoveSettles(Try(filled, Status(PendingCancel)).order, Cancelled);
    }
  }

  /** Where a native amend leaves the row: amended, restored as it was, or waiting for the venue. */
  ghost predicate AmendedAs(o: Order, e: Effect, newPrice: Option<real>, newQty: Option<int>, reply: AmendReply) {
    && e.order.fills == o.fills && e.order.handle == o.handle && e.raised == !reply.AmendOk?
    && e.order.price == (if reply.AmendOk? && newPrice.Some? then newPrice else o.price)
    && e.order.quantity == (if reply.AmendOk? && newQty.Some? then newQty.value else o.quantity)
    && e.order.status == if reply.AmendRaised? then PendingReplace else o.status
  }

  /** A live order, a change, a quantity above what is filled and not below what is shown, a positive price. */
  predicate AmendAllowed(o: Order, newPrice: Option<real>, newQty: Option<int>) {
    && (o.status == New || o.status == PartiallyFilled)
    && (newPrice != None || newQty != None)
    && (newQty.Some? ==> newQty.value > Total(o.fills))
    && (newQty.Some? && o.request.displayQty.Some? ==> newQty.value >= o.request.displayQty.value)
    && (newPrice.Some? ==> newPrice.value > 0.0)
  }

  lemma AmendOutcome(o: Order, newPrice: Option<real>, newQty: Option<int>, gate: bool, reply: AmendReply)
    requires Settled(o)
    ensures var e := AmendNative(o, newPrice, newQty, gate, reply);
            if gate && AmendAllowed(o, newPrice, newQty) then AmendedAs(o, e, newPrice, newQty, reply)
            else e == Effect(o, true)
  {
    TotalNonNegative(o.fills);
    assert o.status.New? ==> Total(o.fills) == 0;
    hide Settled, Total;
    if Amendable(o, newPrice, newQty) && gate {
      hide Amendable;
      var mid := Publish(Move(o, PendingReplace), PendingReplace);
      assert Try(o, Status(PendingReplace)) == Effect(mid, false);
      if !reply.AmendRaised? {
        RestoredAs(mid, if reply.AmendOk? then Replace(newPrice, newQty) else Status(New), Total(o.fills));
      }
    }
  }

  /** Out of PENDING_REPLACE: the columns the write names, and the state the fills call for. */
  lemma RestoredAs(mid: Order, w: Write, filled: int)
    requires mid.status.PendingReplace? && (w == Status(New) || w.Replace?)
    ensures var e := RestorePartial(Try(mid, w), filled);
            && !e.raised && e.order.fills == mid.fills && e.order.handle == mid.handle
            && e.order.status == (if filled > 0 then PartiallyFilled else New)
            && e.order.price == (if w.Replace? && w.newPrice.Some? then w.newPrice else mid.price)
            && e.order.quantity == (if w.Replace? && w.newQty.Some? then w.newQty.value else mid.quantity)
  {
  }

  /** A native amend in the store: the order as the amend leaves it, every other as it was. */
  lemma AmendInStore(store: Store, cid: string, p: Option<real>, q: Option<int>, gate: bool, reply: AmendReply)
    requires AllSettled(store)
    ensures var later := AmendNativeStore(store, cid, p, q, gate, reply);
            if cid !in store then later == store
            else
              && cid in later && later == store[cid := later[cid]]
              && if gate && AmendAllowed(store[cid], p, q)
                 then AmendedAs(store[cid], Effect(later[cid], !reply.AmendOk?), p, q, reply)
                 else later[cid] == store[cid]
  {
    hide AmendNative, AmendAllowed, Settled;
    if cid in store {
      AmendOutcome(store[cid], p, q, gate, reply);
    }
  }

  /** Where a cancel leaves the order, for every status, gate and reply, and whether it raises. */
  lemma CancelOutcome(store: Store, cid: string, gate: bool, reply: CancelReply)
    requires cid in store
    ensures var o, e, later := store[cid], CancelOrder(store[cid], gate, reply), CancelStore(store, cid, gate, reply);
            && cid in later && later == store[cid := later[cid]]
            && if (o.status == New || o.status == PartiallyFilled) && gate then
                 && e.raised == (reply != Confirmed)
                 && Moved(o, later[cid], if reply == Confirmed then Cancelled else PendingCancel, o.reason)
               else later[cid] == o && e.raised == (o.status != PendingCancel)
  {
  }

  /** A placement keeps the price and quantity the order was inserted with. */
  lemma {:induction false} FillsKeepColumns(e: Effect, fills: seq<Fill>, total: int)
    ensures var later := FillAll(e, fills, total).order;
            later.price == e.order.price && later.quantity == e.order.quantity
  {
    if fills != [] {
      FillsKeepColumns(e, fills[..|fills| - 1], total);
    }
  }

  lemma PlacementKeepsColumns(o: Order, placed: PlaceReply)
    ensures var later := PlaceAndSettle(o, placed).order;
            later.price == o.price && later.quantity == o.quantity
  {
    hide FillAll;
    if placed.Accepted? {
      FillsKeepColumns(Try(o, Ack(placed.handle)), placed.fills, o.request.quantity);
    }
  }

  /** Which replies to a placement reach the caller as an exception. */
  predicate ReplyRaises(placed: PlaceReply, quantity: int) {
    match placed
    case PlaceRaised => true
    case PlaceRejected(_) => false
    case NoHandle => false
    case Accepted(_, fills, remainder, raises) => remainder && (raises || Total(FirstOfEach(fills)) >= quantity)
  }

  /** What a submit does, gate by gate: refused, answered from the stored row, or inserted and placed. */
  lemma SubmitOutcome(store: Store, r: OrderRequest, createdAt: int, engaged: bool, gate: bool, placed: PlaceReply)
    requires ValidRequest(r) && ValidReply(placed)
    ensures var raised := SubmitRaises(store, r, createdAt, engaged, gate, placed);
            var later := SubmitStore(store, r, createdAt, gate && !engaged, placed);
            if engaged then raised && later == store
            else if r.cid in store then !raised && later == store
            else if !gate then raised && later == store
            else
              && raised == ReplyRaises(placed, r.quantity)
              && r.cid in later && later == store[r.cid := later[r.cid]]
              && later[r.cid].request == r && later[r.cid].createdAt == createdAt
              && later[r.cid].price == r.price && later[r.cid].quantity == r.quantity
              && (placed.NoHandle? || placed.PlaceRaised? ==>
                    later[r.cid] ==
                    Order(r, createdAt, r.price, r.quantity, PendingNew, None, None, [], [PendingNew], [PendingNew]))
  {
    hide PlaceAndSettle, Settled, FirstOfEach, Total;
    var o := Inserted(r, createdAt);
    InsertedIsSettled(r, createdAt);
    PlacementOutcome(o, placed);
    PlacementKeepsColumns(o, placed);
    PlacementKeepsIdentity(o, placed);
  }

  lemma PlacementKeepsIdentity(o: Order, placed: PlaceReply)
    requires Settled(o) && o.status.PendingNew? && o.quantity == o.request.quantity && ValidReply(placed)
    ensures var later := PlaceAndSettle(o, placed).order;
            later.request == o.request && later.createdAt == o.createdAt
  {
    hide Settled, PlaceAndSettle;
    PlacementEvolves(o, placed);
  }

  // ---------------------------------------------------------------- the store, one operation

  datatype Op =
    | OpSubmit(request: OrderRequest, createdAt: int, gate: bool, placed: PlaceReply)
    | OpCancel(cid: string, gate: bool, cancelled: CancelReply)
    | OpAmendInPlace(cid: string, price: Option<real>, qty: Option<int>, gate: bool, amended: AmendReply)
    | OpAmendByReplacement(
      cid: string, newCid: Option<string>, price: Option<real>, qty: Option<int>, engaged: bool, gate: bool,
      cancelled: CancelReply, createdAt: int, halted: bool, submitGate: bool, placed: PlaceReply
    )
    | OpMassCancel(open: seq<string>, resolves: string -> bool, replies: string -> CancelReply)
    | OpReconcile(venue: Venue, rows: seq<string>, read: GroupKey -> Option<seq<VenueItem>>, now: int)
    | OpResolveNow(venue: Venue, cid: string, rows: seq<string>, read: GroupKey -> Option<seq<VenueItem>>, now: int)

  /** Rows are stored under their own id. */
  ghost predicate Keyed(store: Store) {
    forall c :: c in store ==> store[c].request.cid == c
  }

  /** What callers, venue and database guarantee about an operation's inputs. */
  ghost predicate Enabled(store: Store, op: Op) {
    match op
    case OpSubmit(r, _, _, placed) => ValidRequest(r) && ValidReply(placed)
    case OpAmendByReplacement(_, _, _, _, _, _, _, _, _, _, placed) => ValidReply(placed)
    case OpMassCancel(open, _, _) => Open(store, open)
    case OpReconcile(_, rows, _, _) =>
      Distinct(rows) && forall c :: c in rows ==> c in store && InWorkingSet(store[c])
    case _ => true
  }

  function ApplyOp(store: Store, op: Op): Store
    requires Enabled(store, op)
  {
    match op
    case OpSubmit(r, createdAt, gate, placed) => SubmitStore(store, r, createdAt, gate, placed)
    case OpCancel(cid, gate, reply) => CancelStore(store, cid, gate, reply)
    case OpAmendInPlace(cid, p, q, gate, reply) => AmendNativeStore(store, cid, p, q, gate, reply)
    case OpAmendByReplacement(cid, newCid, p, q, engaged, gate, cancelled, createdAt, halted, submitGate, placed) =>
      CancelReplace(store, cid, newCid, p, q, engaged, gate, cancelled, createdAt, halted, submitGate, placed).0
    case OpMassCancel(open, resolves, replies) => SweepStore(store, open, resolves, replies)
    case OpReconcile(v, rows, read, now) =>
      FullPass(v, store, GroupsOf(v, store, rows, KeysInOrder(v, store, rows), read), now).store
    case OpResolveNow(v, cid, rows, read, now) =>
      if cid !in store || Reconciler.IsResolved(store[cid]) then store
      else
        var items := read(KeyOf(v, store[cid]));
        if items.None? then store
        else store[cid := RowStep(v, store[cid], items.value, OthersHandles(v, store, rows, cid), now, false).order]
  }

  /** Orders are never deleted, and each one evolves. */
  ghost predicate StoreEvolves(store: Store, later: Store) {
    forall c :: c in store ==> c in later && Evolves(store[c], later[c])
  }

  ghost predicate Sound(store: Store) {
    AllSettled(store) && Keyed(store)
  }

  lemma StoreReflexive(store: Store)
    requires AllSettled(store)
    ensures StoreEvolves(store, store)
  {
  }

  lemma StoreTransitive(a: Store, b: Store, c: Store)
    requires StoreEvolves(a, b) && StoreEvolves(b, c)
    ensures StoreEvolves(a, c)
  {
    hide Evolves;
    forall x | x in a ensures x in c && Evolves(a[x], c[x]) { EvolvesTransitive(a[x], b[x], c[x]); }
  }

  lemma EvolvedIsSettled(o: Order, later: Order)
    requires Evolves(o, later)
    ensures Settled(later) && later.request == o.request
  {
  }

  /** One order of a sound store is replaced by a later version of itself. */
  lemma UpdateSound(store: Store, cid: string, o: Order)
    requires Sound(store) && cid in store && Evolves(store[cid], o)
    ensures Sound(store[cid := o]) && StoreEvolves(store, store[cid := o])
  {
    hide Settled, Evolves;
    EvolvedIsSettled(store[cid], o);
    StoreReflexive(store);
  }

  /** A settled order enters under a new id. */
  lemma InsertSound(store: Store, o: Order)
    requires Sound(store) && o.request.cid !in store && Settled(o)
    ensures Sound(store[o.request.cid := o]) && StoreEvolves(store, store[o.request.cid := o])
  {
    hide Settled, Evolves;
    StoreReflexive(store);
  }

  lemma SubmitSound(store: Store, r: OrderRequest, createdAt: int, gate: bool, reply: PlaceReply)
    requires Sound(store) && ValidRequest(r) && ValidReply(reply)
    ensures var later := SubmitStore(store, r, createdAt, gate, reply); Sound(later) && StoreEvolves(store, later)
  {
    hide Settled, Evolves, PlaceAndSettle;
    StoreReflexive(store);
    if r.cid !in store && gate {
      InsertedIsSettled(r, createdAt);
      PlacementEvolves(Inserted(r, createdAt), reply);
      EvolvedIsSettled(Inserted(r, createdAt), PlaceAndSettle(Inserted(r, createdAt), reply).order);
      InsertSound(store, PlaceAndSettle(Inserted(r, createdAt), reply).order);
    }
  }

  lemma CancelSound(store: Store, cid: string, gate: bool, reply: CancelReply)
    requires Sound(store)
    ensures var later := CancelStore(store, cid, gate, reply); Sound(later) && StoreEvolves(store, later)
  {
    hide Settled, Evolves, CancelOrder;
    StoreReflexive(store);
    if cid in store {
      CancelEvolves(store[cid], gate, reply);
      UpdateSound(store, cid, CancelOrder(store[cid], gate, reply).order);
    }
  }

  lemma {:induction false} SweepSound(
    store: Store, open: seq<string>, gate: string -> bool, reply: string -> CancelReply
  )
    requires Sound(store) && Open(store, open)
    ensures var later := SweepStore(store, open, gate, reply); Sound(later) && StoreEvolves(store, later)
  {
    hide Settled, Evolves, CancelAtVenue, Sound, StoreEvolves;
    if open == [] {
      SoundReflexive(store);
    } else {
      var init, cid := open[..|open| - 1], open[|open| - 1];
      assert open == init + [cid];
      SweepSound(store, init, gate, reply);
      var mid := SweepStore(store, init, gate, reply);
      SweepFrame(store, init, gate, reply);
      assert cid !in init;
      if gate(cid) {
        SoundAt(mid, cid);
        VenueCancelEvolves(mid[cid], reply(cid));
        UpdateSound(mid, cid, CancelAtVenue(mid[cid], reply(cid)).order);
        StoreTransitive(store, mid, SweepStore(store, open, gate, reply));
      }
    }
  }

  lemma SoundReflexive(store: Store)
    requires Sound(store)
    ensures StoreEvolves(store, store)
  {
  }

  lemma SoundAt(store: Store, cid: string)
    requires Sound(store) && cid in store
    ensures Settled(store[cid])
  {
  }

  lemma ReconcileSound(store: Store, v: Venue, rows: seq<string>, read: GroupKey -> Option<seq<VenueItem>>, now: int)
    requires Sound(store) && Enabled(store, OpReconcile(v, rows, read, now))
    ensures var later := ApplyOp(store, OpReconcile(v, rows, read, now)); Sound(later) && StoreEvolves(store, later)
  {
    hide Settled, FullPass, GroupsOf, KeysInOrder, Extends, InWorkingSet, CounterFresh;
    var keys := KeysInOrder(v, store, rows);
    KeysDistinct(v, store, rows);
    GroupsPartition(v, store, rows, keys, read);
    FullPassAdvances(v, store, GroupsOf(v, store, rows, keys, read), now);
    var later := FullPass(v, store, GroupsOf(v, store, rows, keys, read), now).store;
    forall c | c in store ensures later[c].request == store[c].request && Evolves(store[c], later[c]) {
      ContinuesEvolves(store[c], later[c]);
    }
  }

  lemma ContinuesEvolves(o: Order, later: Order)
    requires Continues(o, later)
    ensures Evolves(o, later) && later.request == o.request
  {
  }

  lemma ResolveSoundOp(
    store: Store, v: Venue, cid: string, rows: seq<string>, read: GroupKey -> Option<seq<VenueItem>>, now: int
  )
    requires Sound(store)
    ensures var later := ApplyOp(store, OpResolveNow(v, cid, rows, read, now));
            Sound(later) && StoreEvolves(store, later)
  {
    hide RowStep, Continues, Evolves, Sound, StoreEvolves, OthersHandles;
    SoundReflexive(store);
    if cid in store && !Reconciler.IsResolved(store[cid]) && read(KeyOf(v, store[cid])).Some? {
      var o := store[cid];
      SoundAt(store, cid);
      var items := read(KeyOf(v, o)).value;
      RowContinues(v, o, items, OthersHandles(v, store, rows, cid), now, false);
      ContinuesEvolves(o, RowStep(v, o, items, OthersHandles(v, store, rows, cid), now, false).order);
      UpdateSound(store, cid, RowStep(v, o, items, OthersHandles(v, store, rows, cid), now, false).order);
    }
  }

  lemma OperationSound(store: Store, op: Op)
    requires Sound(store) && Enabled(store, op)
    ensures Sound(ApplyOp(store, op)) && StoreEvolves(store, ApplyOp(store, op))
  {
    hide Sound, StoreEvolves, SubmitStore, CancelStore, SweepStore, FullPass, RowStep;
    match op
    case OpSubmit(r, createdAt, gate, placed) => SubmitSound(store, r, createdAt, gate, placed);
    case OpCancel(cid, gate, reply) => CancelSound(store, cid, gate, reply);
    case OpAmendInPlace(cid, p, q, gate, reply) => AmendSound(store, cid, p, q, gate, reply);
    case OpAmendByReplacement(cid, newCid, p, q, engaged, gate, cancelled, createdAt, halted, submitGate, placed) =>
      SoundReflexive(store);
      if Replaceable(store, cid, newCid, p, q, engaged) {
        CancelSound(store, cid, gate, cancelled);
        var mid := CancelStore(store, cid, gate, cancelled);
        var r := AmendedRequest(store[cid], newCid.value, p, q);
        if ValidRequest(r) {
          SubmitSound(mid, r, createdAt, submitGate && !halted, placed);
          StoreTransitive(store, mid, SubmitStore(mid, r, createdAt, submitGate && !halted, placed));
        }
      }
    case OpMassCancel(open, resolves, replies) => SweepSound(store, open, resolves, replies);
    case OpReconcile(v, rows, read, now) => ReconcileSound(store, v, rows, read, now);
    case OpResolveNow(v, cid, rows, read, now) => ResolveSoundOp(store, v, cid, rows, read, now);
  }

  lemma AmendSound(store: Store, cid: string, p: Option<real>, q: Option<int>, gate: bool, reply: AmendReply)
    requires Sound(store)
    ensures var later := AmendNativeStore(store, cid, p, q, gate, reply); Sound(later) && StoreEvolves(store, later)
  {
    hide Evolves, AmendNative, Sound, StoreEvolves;
    SoundReflexive(store);
    if cid in store {
      SoundAt(store, cid);
      AmendEvolves(store[cid], p, q, gate, reply);
      UpdateSound(store, cid, AmendNative(store[cid], p, q, gate, reply).order);
    }
  }

  // ---------------------------------------------------------------- whole runs

  ghost predicate IsStep(store: Store, op: Op, later: Store) {
    Enabled(store, op) && later == ApplyOp(store, op)
  }

  /** A run: the states at the operation boundaries. */
  ghost predicate IsRun(states: seq<Store>, ops: seq<Op>) {
    |states| == |ops| + 1 && forall i :: 0 <= i < |ops| ==> IsStep(states[i], ops[i], states[i + 1])
  }

  lemma RunStep(states: seq<Store>, ops: seq<Op>, k: nat)
    requires IsRun(states, ops) && k < |ops|
    ensures Enabled(states[k], ops[k]) && states[k + 1] == ApplyOp(states[k], ops[k])
  {
    assert IsStep(states[k], ops[k], states[k + 1]);
  }

  /**
    Whole-run lifecycle: from a sound store, at every operation boundary every order satisfies
    the lifecycle invariant; between any two boundaries orders are kept, audit trail and fills
    only grow, and a recorded handle never changes.
   */
  lemma {:induction false} LifecycleOverRuns(states: seq<Store>, ops: seq<Op>, i: nat, j: nat)
    requires IsRun(states, ops) && Sound(states[0]) && i <= j < |states|
    ensures Sound(states[i]) && Sound(states[j]) && StoreEvolves(states[i], states[j])
    decreases j, i
  {
    hide Sound, StoreEvolves, ApplyOp, Enabled;
    if i == j {
      if j > 0 {
        LifecycleOverRuns(states, ops, j - 1, j);
      }
      SoundReflexive(states[j]);
    } else {
      LifecycleOverRuns(states, ops, i, j - 1);
      RunStep(states, ops, j - 1);
      OperationSound(states[j - 1], ops[j - 1]);
      StoreTransitive(states[i], states[j - 1], states[j]);
    }
  }

  /** A terminal order keeps its status for the rest of the run, whatever operations follow. */
  lemma TerminalForever(states: seq<Store>, ops: seq<Op>, i: nat, j: nat, c: string)
    requires IsRun(states, ops) && Sound(states[0]) && i <= j < |states|
    requires c in states[i] && IsTerminal(states[i][c].status)
    ensures c in states[j] && states[j][c].status == states[i][c].status && states[j][c].history == states[i][c].history
  {
    hide ApplyOp, Enabled, Mirrored, Total;
    LifecycleOverRuns(states, ops, i, j);
    TerminalIsFinal(states[i][c], states[j][c]);
  }

  /** Along every run the published states of an order, repetitions collapsed, are its status history. */
  lemma StreamMirrorsRuns(states: seq<Store>, ops: seq<Op>, j: nat, c: string)
    requires IsRun(states, ops) && Sound(states[0]) && j < |states| && c in states[j]
    ensures Dedup(states[j][c].published) == states[j][c].history
    ensures LegalWalk(states[j][c].history)
  {
    hide ApplyOp, Enabled, Total;
    LifecycleOverRuns(states, ops, j, j);
  }

  /** The cancel leg lets the amend go on: confirmed now, or already pending and not awaited. */
  predicate CancelLegPasses(o: Order, gate: bool, reply: CancelReply) {
    o.status.PendingCancel? || ((o.status.New? || o.status.PartiallyFilled?) && gate && reply.Confirmed?)
  }

  lemma CancelLeg(o: Order, gate: bool, reply: CancelReply)
    ensures !CancelOrder(o, gate, reply).raised <==> CancelLegPasses(o, gate, reply)
    ensures CancelLegPasses(o, gate, reply) ==>
              CancelOrder(o, gate, reply).order.status == if o.status.PendingCancel? then PendingCancel else Cancelled
  {
  }

  /** The replacement carries the given price and quantity, else the old row's, and the rest of the old request. */
  predicate Replaces(o: Order, next: Order, newCid: string, price: Option<real>, qty: Option<int>) {
    var r, was := next.request, o.request;
    && r.cid == newCid
    && r.price == (if price.Some? then price else o.price) && next.price == r.price
    && r.quantity == (if qty.Some? then qty.value else o.quantity) && next.quantity == r.quantity
    && r.broker == was.broker && r.account == was.account && r.market == was.market && r.symbol == was.symbol
    && r.side == was.side && r.stopPrice == was.stopPrice && r.displayQty == was.displayQty && r.tif == was.tif
    && r.control == SimControl(None, None)
  }

  /** The order contract on the replacement: positive numbers, and no more shown than there is. */
  predicate ReplacementValid(o: Order, price: Option<real>, qty: Option<int>) {
    var p, q := if price.Some? then price else o.price, if qty.Some? then qty.value else o.quantity;
    && q > 0 && (p.Some? ==> p.value > 0.0) && (o.request.stopPrice.Some? ==> o.request.stopPrice.value > 0.0)
    && (o.request.displayQty.Some? ==> 0 < o.request.displayQty.value <= q)
  }

  lemma ReplacementContract(o: Order, newCid: string, price: Option<real>, qty: Option<int>)
    ensures ValidRequest(AmendedRequest(o, newCid, price, qty)) <==> ReplacementValid(o, price, qty)
    ensures AmendedRequest(o, newCid, price, qty).cid == newCid
    ensures AmendedRequest(o, newCid, price, qty).quantity == if qty.Some? then qty.value else o.quantity
  {
  }

  lemma ReplacementFields(o: Order, next: Order, newCid: string, price: Option<real>, qty: Option<int>)
    requires next.request == AmendedRequest(o, newCid, price, qty)
    requires next.price == next.request.price && next.quantity == next.request.quantity
    ensures Replaces(o, next, newCid, price, qty)
  {
  }

  /** The amend is taken up and its cancel leg passes. */
  ghost predicate ReplaceGoesOn(
    store: Store, cid: string, price: Option<real>, qty: Option<int>, engaged: bool, gate: bool, cancelled: CancelReply
  ) {
    && !engaged && (price != None || qty != None) && cid in store
    && CancelLegPasses(store[cid], gate, cancelled) && ReplacementValid(store[cid], price, qty)
  }

  /** The two legs of a cancel-and-replace amend, seen from its conditions. */
  lemma ReplaceLegs(
    store: Store, cid: string, newCid: string, price: Option<real>, qty: Option<int>, engaged: bool, gate: bool,
    cancelled: CancelReply, createdAt: int, halted: bool, submitGate: bool, placed: PlaceReply
  )
    ensures var e := CancelReplace(store, cid, Some(newCid), price, qty, engaged, gate, cancelled,
                                   createdAt, halted, submitGate, placed);
            var taken := !engaged && (price != None || qty != None);
            var mid := if taken then CancelStore(store, cid, gate, cancelled) else store;
            if ReplaceGoesOn(store, cid, price, qty, engaged, gate, cancelled) then
              var r := AmendedRequest(store[cid], newCid, price, qty);
              && ValidRequest(r)
              && e == (SubmitStore(mid, r, createdAt, submitGate && !halted, placed),
                       SubmitRaises(mid, r, createdAt, halted, submitGate, placed))
            else e == (mid, true)
  {
    hide CancelOrder, SubmitStore, SubmitRaises, AmendedRequest, ValidRequest, ReplacementValid, CancelLegPasses;
    if cid in store {
      CancelLeg(store[cid], gate, cancelled);
      ReplacementContract(store[cid], newCid, price, qty);
    }
  }

  /**
    A cancel-and-replace amend: the replacement enters the store exactly when the cancel leg let
    it through, it is a valid request under an unused id, and the submit gates pass. The old order
    is then CANCELLED, or still in PENDING_CANCEL if it already was; no other order changes. The
    caller sees no exception exactly when the replacement entered and its placement did not raise,
    or its id was already stored.
   */
  lemma ReplacementAfterCancel(
    store: Store, cid: string, newCid: string, price: Option<real>, qty: Option<int>, engaged: bool, gate: bool,
    cancelled: CancelReply, createdAt: int, halted: bool, submitGate: bool, placed: PlaceReply
  )
    requires ValidReply(placed)
    ensures var later := CancelReplace(store, cid, Some(newCid), price, qty, engaged, gate, cancelled,
                                       createdAt, halted, submitGate, placed).0;
            && (newCid in later && newCid !in store <==>
                  && newCid !in store && ReplaceGoesOn(store, cid, price, qty, engaged, gate, cancelled)
                  && submitGate && !halted)
            && (newCid in later && newCid !in store ==>
                  && cid in store && cid in later
                  && later[cid].status == (if store[cid].status.PendingCancel? then PendingCancel else Cancelled)
                  && Replaces(store[cid], later[newCid], newCid, price, qty) && Settled(later[newCid]))
            && (forall c :: c in store && c != cid ==> c in later && later[c] == store[c])
    ensures var raised := CancelReplace(store, cid, Some(newCid), price, qty, engaged, gate, cancelled,
                                        createdAt, halted, submitGate, placed).1;
            !raised <==>
              && ReplaceGoesOn(store, cid, price, qty, engaged, gate, cancelled) && !halted
              && (newCid in store
                  || (submitGate && !ReplyRaises(placed, if qty.Some? then qty.value else store[cid].quantity)))
  {
    hide CancelReplace, CancelOrder, SubmitStore, SubmitRaises, CancelLegPasses, ValidRequest, Settled, ValidReply;
    hide Replaces, ReplacementValid, AmendedRequest, ReplyRaises;
    ReplaceLegs(store, cid, newCid, price, qty, engaged, gate, cancelled, createdAt, halted, submitGate, placed);
    if ReplaceGoesOn(store, cid, price, qty, engaged, gate, cancelled) {
      var mid, r := CancelStore(store, cid, gate, cancelled), AmendedRequest(store[cid], newCid, price, qty);
      CancelLeg(store[cid], gate, cancelled);
      ReplacementContract(store[cid], newCid, price, qty);
      SubmitOutcome(mid, r, createdAt, halted, submitGate, placed);
      if newCid !in store && submitGate && !halted {
        var next := SubmitStore(mid, r, createdAt, true, placed)[newCid];
        ReplacementFields(store[cid], next, newCid, price, qty);
        SubmittedSettled(mid, r, createdAt, placed);
      }
    }
  }

  /** Without a fresh id the amend is refused before anything is cancelled. */
  lemma ReplacementNeedsId(
    store: Store, cid: string, price: Option<real>, qty: Option<int>, engaged: bool, gate: bool,
    cancelled: CancelReply, createdAt: int, halted: bool, submitGate: bool, placed: PlaceReply
  )
    ensures CancelReplace(store, cid, None, price, qty, engaged, gate, cancelled, createdAt, halted, submitGate, placed)
         == (store, true)
  {
  }

  lemma SubmittedSettled(store: Store, r: OrderRequest, createdAt: int, placed: PlaceReply)
    requires ValidRequest(r) && ValidReply(placed) && r.cid !in store
    ensures var later := SubmitStore(store, r, createdAt, true, placed);
            r.cid in later && Settled(later[r.cid])
  {
    hide PlaceAndSettle, Settled;
    PlacedRequest(r, createdAt, placed);
  }

  lemma PlacedRequest(r: OrderRequest, createdAt: int, placed: PlaceReply)
    requires ValidRequest(r) && ValidReply(placed)
    ensures var o := PlaceAndSettle(Inserted(r, createdAt), placed).order;
            o.request == r && Settled(o)
  {
    hide Settled, PlaceAndSettle, Evolves;
    InsertedIsSettled(r, createdAt);
    PlacementEvolves(Inserted(r, createdAt), placed);
    EvolvedIsSettled(Inserted(r, createdAt), PlaceAndSettle(Inserted(r, createdAt), placed).order);
  }
}
