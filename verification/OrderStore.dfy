/** The repository functions over the durable store, statement by statement. */
module OrderStores {
  import opened StateMachine
  import opened Common
  import opened Orders

  type Store = map<string, Order>

  /** The store after one write on one order; an unknown order or a raising write changes nothing. */
  function Written(store: Store, cid: string, w: Write): Store {
    if cid in store then store[cid := After(store[cid], w)] else store
  }

  predicate Succeeds(store: Store, cid: string, w: Write) {
    cid in store && Commit(store[cid], w).Some?
  }

  // ---------------------------------------------------------------- what each write does, column by column

  /** Only the named order may differ, and only if the write succeeded. */
  predicate Touches(store: Store, later: Store, cid: string, ok: bool) {
    if ok then cid in store && cid in later && later == store[cid := later[cid]] else later == store
  }

  /** The status moved, was audited and published once. */
  predicate MovedTo(o: Order, later: Order, to: OrderState) {
    later.status == to && later.history == o.history + [to] && later.published == o.published + [to]
  }

  /** An acknowledgement needs PENDING_NEW and sets status and handle together. */
  lemma AckInStore(store: Store, cid: string, handle: string)
    ensures var ok, later := Succeeds(store, cid, Ack(handle)), Written(store, cid, Ack(handle));
            && ok == (cid in store && store[cid].status == PendingNew) && Touches(store, later, cid, ok)
            && (ok ==>
                  && MovedTo(store[cid], later[cid], New)
                  && later[cid].handle == Some(handle) && later[cid].fills == store[cid].fills)
  {
  }

  /** A replacement needs PENDING_REPLACE and writes the columns that are given. */
  lemma ReplaceInStore(store: Store, cid: string, price: Option<real>, qty: Option<int>)
    ensures var ok, later := Succeeds(store, cid, Replace(price, qty)), Written(store, cid, Replace(price, qty));
            && ok == (cid in store && store[cid].status == PendingReplace) && Touches(store, later, cid, ok)
            && (ok ==>
                  && MovedTo(store[cid], later[cid], New)
                  && later[cid].price == (if price == None then store[cid].price else price)
                  && later[cid].quantity == (if qty == None then store[cid].quantity else qty.value))
  {
  }

  /** A status update takes a frozen edge, or stays where it is without a trace; anything else fails. */
  lemma StatusInStore(store: Store, cid: string, to: OrderState)
    ensures var ok, later := Succeeds(store, cid, Status(to)), Written(store, cid, Status(to));
            && ok == (cid in store && (store[cid].status == to || LegalEdge(store[cid].status, to)))
            && Touches(store, later, cid, ok)
            && (ok && store[cid].status == to ==> later[cid] == store[cid])
            && (ok && store[cid].status != to ==>
                MovedTo(store[cid], later[cid], to) && later[cid].fills == store[cid].fills)
  {
  }

  /** A reason is written to any stored order, and nothing else with it. */
  lemma ReasonInStore(store: Store, cid: string, text: string)
    ensures var ok, later := Succeeds(store, cid, Reason(text)), Written(store, cid, Reason(text));
            && ok == (cid in store) && Touches(store, later, cid, ok)
            && (ok ==> later[cid] == store[cid].(reason := Some(text)))
  {
  }

  /** A fill is recorded once under its id, and the status follows the sum; an illegal status takes the fill with it. */
  lemma FillInStore(store: Store, cid: string, f: Fill, total: int)
    ensures var ok, later := Succeeds(store, cid, RecordFill(f, total)), Written(store, cid, RecordFill(f, total));
            && Touches(store, later, cid, ok)
            && (ok ==> cid in store)
            && (cid in store ==>
                  var o, known := store[cid], exists k :: 0 <= k < |store[cid].fills| && store[cid].fills[k].id == f.id;
                  var fills := if known then o.fills else o.fills + [f];
                  var to := if Total(fills) >= total then Filled else PartiallyFilled;
                  && ok == (o.status == to || LegalEdge(o.status, to))
                  && (ok ==>
                        && later[cid].fills == fills && later[cid].status == to
                        && later[cid].history == (if o.status == to then o.history else o.history + [to])
                        && later[cid].published == (if known then o.published else o.published + [to])))
  {
    hide Total;
  }

  class OrderStore {
    var orders: Store

    constructor ()
      ensures orders == map[]
    {
      orders := map[];
    }

    /** Post-commit publish; only the stream changes. */
    method PublishState(cid: string, s: OrderState)
      requires cid in orders
      modifies this
      ensures orders == old(orders)[cid := Publish(old(orders)[cid], s)]
    {
      orders := orders[cid := Publish(orders[cid], s)];
    }

    /** INSERT at the entry state; a primary-key collision is the duplicate signal. */
    method InsertOrder(r: OrderRequest, createdAt: int) returns (duplicate: bool)
      modifies this
      ensures duplicate == (r.cid in old(orders))
      ensures orders == if duplicate then old(orders) else old(orders)[r.cid := Inserted(r, createdAt)]
    {
      if r.cid in orders {
        return true;
      }
      orders := orders[r.cid := Order(r, createdAt, r.price, r.quantity, PendingNew, None, None, [], [PendingNew], [])];
      PublishState(r.cid, PendingNew);
      assert [PendingNew] == [] + [PendingNew];
      return false;
    }

    /** One UPDATE guarded on PENDING_NEW sets status and handle together. */
    method AckOrder(cid: string, handle: string) returns (ok: bool)
      modifies this
      ensures ok == Succeeds(old(orders), cid, Ack(handle))
      ensures orders == Written(old(orders), cid, Ack(handle))
    {
      if cid !in orders || orders[cid].status != PendingNew {
        return false;
      }
      orders := orders[cid := Move(orders[cid], New).(handle := Some(handle))];
      PublishState(cid, New);
      return true;
    }

    /** One UPDATE guarded on PENDING_REPLACE; an absent value keeps its column. */
    method ReplaceOrder(cid: string, newPrice: Option<real>, newQty: Option<int>) returns (ok: bool)
      modifies this
      ensures ok == Succeeds(old(orders), cid, Replace(newPrice, newQty))
      ensures orders == Written(old(orders), cid, Replace(newPrice, newQty))
    {
      if cid !in orders || orders[cid].status != PendingReplace {
        return false;
      }
      var row := Move(orders[cid], New);
      if newPrice.Some? {
        row := row.(price := newPrice);
      }
      if newQty.Some? {
        row := row.(quantity := newQty.value);
      }
      orders := orders[cid := row];
      PublishState(cid, New);
      return true;
    }

    /** Read, application guard, UPDATE; the same status is a no-op without an event. */
    method UpdateStatus(cid: string, to: OrderState) returns (ok: bool)
      modifies this
      ensures ok == Succeeds(old(orders), cid, Status(to))
      ensures orders == Written(old(orders), cid, Status(to))
    {
      if cid !in orders {
        return false;
      }
      var row := orders[cid];
      if row.status == to {
        return true;
      }
      if !IsLegal(row.status, to) {
        return false;
      }
      orders := orders[cid := Move(row, to)];
      PublishState(cid, to);
      return true;
    }

    method SetRejectReason(cid: string, text: string)
      modifies this
      ensures orders == Written(old(orders), cid, Reason(text))
    {
      if cid in orders {
        orders := orders[cid := orders[cid].(reason := Some(text))];
      }
    }

    /** One transaction: insert the fill, sum, flip the status; an illegal flip rolls all of it back. */
    method ApplyFill(cid: string, fill: Fill, total: int) returns (ok: bool)
      modifies this
      ensures ok == Succeeds(old(orders), cid, RecordFill(fill, total))
      ensures orders == Written(old(orders), cid, RecordFill(fill, total))
    {
      if cid !in orders {
        return false;
      }
      var saved := orders;
      var inserted := !HasFill(orders[cid].fills, fill.id);
      if inserted {
        orders := orders[cid := orders[cid].(fills := orders[cid].fills + [fill])];
      }
      var target := if Total(orders[cid].fills) >= total then Filled else PartiallyFilled;
      if orders[cid].status != target {
        if !LegalEdge(orders[cid].status, target) {
          orders := saved;
          assert orders == Written(saved, cid, RecordFill(fill, total));
          return false;
        }
        orders := orders[cid := Move(orders[cid], target)];
      }
      if inserted {
        PublishState(cid, target);
      }
      return true;
    }
  }
}
