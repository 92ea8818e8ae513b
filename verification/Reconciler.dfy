/** The reconciler's loops over rows, actions and account groups, proved against the pure model. */
module Reconcilers {
  import opened StateMachine
  import opened Common
  import opened Sequences
  import opened Orders
  import opened OrderStores
  import opened Reconcile
  import opened Passes

  /** The lost-ack match as the loop builds it. */
  method MatchByLoop(row: Order, items: seq<VenueItem>, claimed: set<string>) returns (m: MatchOutcome)
    ensures m == FuzzyMatch(row, items, claimed)
  {
    var candidates: seq<VenueItem> := [];
    for k := 0 to |items|
      invariant candidates == Candidates(row, items[..k], claimed)
    {
      var item := items[k];
      assert items[..k + 1][..k] == items[..k];
      if item.orderNo in claimed { continue; }
      if item.symbol != row.request.symbol || item.volume != row.quantity { continue; }
      if item.side != Some(row.request.side) { continue; }
      if HasPrice(item.price) && HasPrice(row.price) && item.price != row.price { continue; }
      if item.entryTime.None? { continue; }
      var skew := if item.entryTime.value >= row.createdAt
                  then item.entryTime.value - row.createdAt else row.createdAt - item.entryTime.value;
      if skew <= FUZZY_WINDOW {
        candidates := candidates + [item];
      }
    }
    assert items[..|items|] == items;
    if |candidates| == 1 {
      return MatchOutcome(Some(candidates[0]), 1);
    }
    return MatchOutcome(None, |candidates|);
  }

  /** The order-number index of a snapshot; a later row replaces an earlier one. */
  method BuildIndex(items: seq<VenueItem>) returns (index: map<string, VenueItem>)
    ensures forall no :: no in index <==> Lookup(items, no).Some?
    ensures forall no :: no in index ==> Lookup(items, no) == Some(index[no])
  {
    index := map[];
    for k := 0 to |items|
      invariant forall no :: no in index <==> Lookup(items[..k], no).Some?
      invariant forall no :: no in index ==> Lookup(items[..k], no) == Some(index[no])
    {
      index := index[items[k].orderNo := items[k]];
      assert items[..k + 1][..k] == items[..k];
    }
    assert items[..|items|] == items;
  }

  // ---------------------------------------------------------------- grouping

  /** Rows are grouped by account, or by account and market where the venue has one book per market. */
  type GroupKey = (string, Market)

  function KeyOf(v: Venue, o: Order): GroupKey {
    (o.request.account, if v.LiberatorVenue? then SET else o.request.market)
  }

  /** The rows of one group, in listing order. */
  function Members(v: Venue, store: Store, rows: seq<string>, key: GroupKey): seq<string>
    requires forall c :: c in rows ==> c in store
  {
    if rows == [] then []
    else
      var last := rows[|rows| - 1];
      Members(v, store, rows[..|rows| - 1], key) + (if KeyOf(v, store[last]) == key then [last] else [])
  }

  /** Group keys in order of first appearance. */
  function KeysInOrder(v: Venue, store: Store, rows: seq<string>): seq<GroupKey>
    requires forall c :: c in rows ==> c in store
  {
    if rows == [] then []
    else
      var before := KeysInOrder(v, store, rows[..|rows| - 1]);
      var key := KeyOf(v, store[rows[|rows| - 1]]);
      if key in before then before else before + [key]
  }

  method GroupRowsByKey(v: Venue, store: Store, rows: seq<string>)
    returns (keys: seq<GroupKey>, groups: map<GroupKey, seq<string>>)
    requires forall c :: c in rows ==> c in store
    ensures keys == KeysInOrder(v, store, rows)
    ensures forall key :: key in groups <==> key in keys
    ensures forall key :: key in groups ==> groups[key] == Members(v, store, rows, key)
    ensures forall key :: key !in groups ==> Members(v, store, rows, key) == []
  {
    keys, groups := [], map[];
    for k := 0 to |rows|
      invariant keys == KeysInOrder(v, store, rows[..k])
      invariant forall key :: key in groups <==> key in keys
      invariant forall key :: key in groups ==> groups[key] == Members(v, store, rows[..k], key)
      invariant forall key :: key !in groups ==> Members(v, store, rows[..k], key) == []
    {
      var key := KeyOf(v, store[rows[k]]);
      assert rows[..k + 1][..k] == rows[..k];
      if key !in groups {
        keys := keys + [key];
        groups := groups[key := []];
      }
      groups := groups[key := groups[key] + [rows[k]]];
    }
    assert rows[..|rows|] == rows;
  }

  /** The groups of a pass with the snapshot each one gets. */
  function GroupsOf(
    v: Venue, store: Store, rows: seq<string>, keys: seq<GroupKey>, venue: GroupKey -> Option<seq<VenueItem>>
  ): seq<Group>
    requires forall c :: c in rows ==> c in store
  {
    if keys == [] then []
    else
      var key := keys[|keys| - 1];
      GroupsOf(v, store, rows, keys[..|keys| - 1], venue) + [Group(Members(v, store, rows, key), venue(key))]
  }

  lemma {:induction false} MembersSound(v: Venue, store: Store, rows: seq<string>, key: GroupKey)
    requires forall c :: c in rows ==> c in store
    ensures forall c :: c in Members(v, store, rows, key) <==> c in rows && KeyOf(v, store[c]) == key
    ensures Distinct(rows) ==> Distinct(Members(v, store, rows, key))
  {
    hide Distinct;
    if rows == [] {
      EmptyDistinct<string>();
    } else {
      var init := rows[..|rows| - 1];
      MembersSound(v, store, init, key);
      assert rows == init + [rows[|rows| - 1]];
      if Distinct(rows) {
        InitDistinct(rows);
        AppendDistinct(Members(v, store, init, key), rows[|rows| - 1]);
        assert Members(v, store, init, key) + [] == Members(v, store, init, key);
      }
    }
  }

  // ---------------------------------------------------------------- frames of the pure pass

  lemma {:induction false} PassRowsFrame(v: Venue, s: PassState, rows: seq<string>, items: seq<VenueItem>, now: int)
    ensures var t := PassRows(v, s, rows, items, now);
            t.store.Keys == s.store.Keys && forall c :: c in s.store && c !in rows ==> t.store[c] == s.store[c]
  {
    hide RowStep, ClaimedAfter;
    if rows != [] {
      PassRowsFrame(v, s, rows[..|rows| - 1], items, now);
      assert rows == rows[..|rows| - 1] + [rows[|rows| - 1]];
    }
  }

  lemma {:induction false} WorkingAll(store: Store, cids: seq<string>)
    requires forall c :: c in cids ==> c in store && InWorkingSet(store[c])
    ensures Working(store, cids) == cids
  {
    if cids != [] {
      WorkingAll(store, cids[..|cids| - 1]);
    }
  }

  // ---------------------------------------------------------------- the loop shell

  class Reconciler {
    const venue: Venue
    const store: OrderStore

    constructor (venue: Venue, store: OrderStore)
      ensures this.venue == venue && this.store == store
    {
      this.venue := venue;
      this.store := store;
    }

    /** One planned action against the store; the result says whether it raised. */
    method ExecuteAction(cid: string, a: Action) returns (raised: bool)
      requires cid in store.orders
      modifies store
      ensures store.orders == old(store.orders)[cid := Execute(old(store.orders)[cid], a).order]
      ensures raised == Execute(old(store.orders)[cid], a).raised
    {
      hide Commit;
      forall o, text ensures Commit(o, Reason(text)).Some? { ReasonSucceeds(o, text); }
      var ok := true;
      match a {
        case DoAck(h) =>
          ok := store.AckOrder(cid, h);
        case DoFill(f, total) =>
          ok := store.ApplyFill(cid, f, total);
        case CancelTwoStep =>
          ok := store.UpdateStatus(cid, PendingCancel);
          if ok {
            ok := store.UpdateStatus(cid, Cancelled);
          }
        case CancelConfirm =>
          ok := store.UpdateStatus(cid, Cancelled);
        case Expire =>
          ok := store.UpdateStatus(cid, Expired);
        case Reject(why) =>
          ok := store.UpdateStatus(cid, Rejected);
          if ok {
            store.SetRejectReason(cid, why);
          }
        case PostAckReject(why) =>
          store.SetRejectReason(cid, why);
          ok := store.UpdateStatus(cid, PendingCancel);
          if ok {
            ok := store.UpdateStatus(cid, Cancelled);
          }
      }
      raised := !ok;
    }

    /** Resolve one row against one snapshot; a raising action is skipped, the rest still run. */
    method ApplyRow(
      row: Order, items: seq<VenueItem>, index: map<string, VenueItem>, claimed: set<string>, now: int,
      requireStuck: bool
    )
      returns (applied: nat, claimed': set<string>)
      requires row.request.cid in store.orders && store.orders[row.request.cid] == row
      requires forall no :: no in index <==> Lookup(items, no).Some?
      requires forall no :: no in index ==> Lookup(items, no) == Some(index[no])
      modifies store
      ensures var r := RowStep(venue, row, items, claimed, now, requireStuck);
              store.orders == old(store.orders)[row.request.cid := r.order] && applied == r.applied
      ensures claimed' == ClaimedAfter(row, items, claimed, now, requireStuck)
    {
      hide Execute, PlanActions, ClaimedAfter, Candidates;
      var cid := row.request.cid;
      var item, ambiguous := None, false;
      claimed' := claimed;
      if row.handle.Some? && row.handle.value != "" && row.handle.value in index {
        item := Some(index[row.handle.value]);
      }
      assert item == Bound(row, items);
      if item.None? && row.status.PendingNew? && (now - row.createdAt > STUCK_PENDING || !requireStuck) {
        var m := MatchByLoop(row, items, claimed);
        item, ambiguous := m.item, m.Ambiguous();
        if item.Some? {
          claimed' := claimed + {item.value.orderNo};
        }
      }
      assert Resolve(row, items, claimed, now, requireStuck) == Resolution(item, ambiguous);
      ClaimShape(row, items, claimed, now, requireStuck);
      var plan := PlanActions(venue, row, Total(store.orders[cid].fills), item, now, ambiguous);
      applied := 0;
      ghost var before := store.orders;
      assert before[cid := row] == before;
      for k := 0 to |plan|
        invariant store.orders == before[cid := ExecuteAll(row, plan[..k]).order]
        invariant applied == ExecuteAll(row, plan[..k]).applied
      {
        assert plan[..k + 1][..k] == plan[..k];
        var raised := ExecuteAction(cid, plan[k]);
        if !raised {
          applied := applied + 1;
        }
      }
      assert plan[..|plan|] == plan;
    }

    /** One account group against its snapshot: index, claimed handles, then row by row. */
    method ReconcileGroup(rows: seq<string>, fetched: Store, items: seq<VenueItem>, now: int) returns (applied: nat)
      requires Distinct(rows)
      requires forall c :: c in rows ==>
               c in store.orders && c in fetched && store.orders[c] == fetched[c] && fetched[c].request.cid == c
      modifies store
      ensures var t := AccountPass(venue, old(store.orders), rows, items, now);
              store.orders == t.store && applied == t.applied
    {
      hide RowStep, ClaimedAfter, Lookup;
      ghost var s := PassState(store.orders, HeldHandles(store.orders, rows), 0);
      var index := BuildIndex(items);
      var claimed := set c | c in rows && fetched[c].handle.Some? :: fetched[c].handle.value;
      assert claimed == HeldHandles(store.orders, rows);
      applied := 0;
      for k := 0 to |rows|
        invariant PassState(store.orders, claimed, applied) == PassRows(venue, s, rows[..k], items, now)
      {
        ghost var t := PassRows(venue, s, rows[..k], items, now);
        PassRowsFrame(venue, s, rows[..k], items, now);
        assert rows[k] !in rows[..k];
        assert rows[..k + 1][..k] == rows[..k];
        var n;
        n, claimed := ApplyRow(fetched[rows[k]], items, index, claimed, now, true);
        applied := applied + n;
        assert PassState(store.orders, claimed, applied) == PassRow(venue, t, rows[k], items, now);
      }
      assert rows[..|rows|] == rows;
    }

    /** One full pass over the working set; a group whose venue read failed is skipped. */
    method ReconcileOnce(rows: seq<string>, read: GroupKey -> Option<seq<VenueItem>>, now: int) returns (applied: nat)
      requires Distinct(rows)
      requires forall c :: c in rows ==>
               c in store.orders && InWorkingSet(store.orders[c]) && store.orders[c].request.cid == c
      modifies store
      ensures var before := old(store.orders);
              var groups := GroupsOf(venue, before, rows, KeysInOrder(venue, before, rows), read);
              var r := FullPass(venue, before, groups, now);
              store.orders == r.store && applied == r.applied
    {
      hide AccountPass, Members, Working, FullPass, GroupsOf, KeysInOrder, InWorkingSet;
      FullPassStart(venue, store.orders, rows, read, now);
      var fetched := store.orders;
      var keys, byKey := GroupRowsByKey(venue, fetched, rows);
      KeysDistinct(venue, fetched, rows);
      applied := 0;
      for k := 0 to |keys|
        invariant PassResult(store.orders, applied) ==
                  FullPass(venue, fetched, GroupsOf(venue, fetched, rows, keys[..k], read), now)
        invariant fetched.Keys == store.orders.Keys
        invariant forall c :: c in rows && KeyOf(venue, fetched[c]) !in keys[..k] ==> store.orders[c] == fetched[c]
      {
        var key := keys[k];
        FullPassStep(venue, fetched, rows, keys, k, read, now, PassResult(store.orders, applied));
        var items := read(key);
        if items.Some? {
          var members := byKey[key];
          MembersSound(venue, fetched, rows, key);
          assert key !in keys[..k] && keys[..k + 1] == keys[..k] + [key];
          WorkingAll(store.orders, members);
          AccountPassFrame(venue, store.orders, members, items.value, now);
          var n := ReconcileGroup(members, fetched, items.value, now);
          applied := applied + n;
        }
      }
      assert keys[..|keys|] == keys;
    }

    /** The order has its handle, or has ended. */
    static predicate IsResolved(o: Order) {
      o.handle.Some? || IsTerminal(o.status)
    }

    /**
      One venue read for one order, right after a placement that returned no handle; `None`
      when the venue could not be read. The stuck gate is off here.
     */
    method ResolveOrderNow(
      cid: string, rows: seq<string>, read: GroupKey -> Option<seq<VenueItem>>, now: int
    ) returns (resolved: Option<bool>)
      requires forall c :: c in store.orders ==> store.orders[c].request.cid == c
      modifies store
      ensures var before := old(store.orders);
              if cid !in before || IsResolved(before[cid]) then resolved == Some(true) && store.orders == before
              else
                var items := read(KeyOf(venue, before[cid]));
                if items.None? then resolved == None && store.orders == before
                else
                  var claimed := OthersHandles(venue, before, rows, cid);
                  && store.orders == before[cid := RowStep(venue, before[cid], items.value, claimed, now, false).order]
                  && resolved == Some(IsResolved(store.orders[cid]))
    {
      if cid !in store.orders || IsResolved(store.orders[cid]) {
        return Some(true);
      }
      var row := store.orders[cid];
      var claimed := OthersHandles(venue, store.orders, rows, cid);
      var items := read(KeyOf(venue, row));
      if items.None? {
        return None;
      }
      var index := BuildIndex(items.value);
      var _, _ := ApplyRow(row, items.value, index, claimed, now, false);
      return Some(IsResolved(store.orders[cid]));
    }
  }

  /** Handles the other working-set rows of the same account hold. */
  function OthersHandles(v: Venue, store: Store, rows: seq<string>, cid: string): set<string>
    requires cid in store
  {
    set c | c in rows && c in store && c != cid && store[c].handle.Some?
            && KeyOf(v, store[c]) == KeyOf(v, store[cid])
         :: store[c].handle.value
  }

  lemma {:induction false} KeysDistinct(v: Venue, store: Store, rows: seq<string>)
    requires forall c :: c in rows ==> c in store
    ensures Distinct(KeysInOrder(v, store, rows))
    ensures forall c :: c in rows ==> KeyOf(v, store[c]) in KeysInOrder(v, store, rows)
  {
    hide Distinct;
    if rows == [] {
      EmptyDistinct<GroupKey>();
    } else {
      KeysDistinct(v, store, rows[..|rows| - 1]);
      assert rows == rows[..|rows| - 1] + [rows[|rows| - 1]];
      var before, key := KeysInOrder(v, store, rows[..|rows| - 1]), KeyOf(v, store[rows[|rows| - 1]]);
      if key !in before {
        AppendDistinct(before, key);
      }
    }
  }

  /** The groups of a pass hold every row of their keys once. */
  lemma {:induction false} GroupsPartition(
    v: Venue, store: Store, rows: seq<string>, keys: seq<GroupKey>, read: GroupKey -> Option<seq<VenueItem>>
  )
    requires forall c :: c in rows ==> c in store
    requires Distinct(rows) && Distinct(keys)
    ensures var all := AllRows(GroupsOf(v, store, rows, keys, read));
            Distinct(all) && forall c :: c in all <==> c in rows && KeyOf(v, store[c]) in keys
  {
    hide Members;
    if keys != [] {
      var init, key := keys[..|keys| - 1], keys[|keys| - 1];
      InitDistinct(keys);
      assert keys == init + [key];
      GroupsPartition(v, store, rows, init, read);
      MembersSound(v, store, rows, key);
      var groups := GroupsOf(v, store, rows, keys, read);
      assert groups[..|groups| - 1] == GroupsOf(v, store, rows, init, read);
      ConcatDistinct(AllRows(GroupsOf(v, store, rows, init, read)), Members(v, store, rows, key));
    }
  }

  lemma FullPassStart(v: Venue, store: Store, rows: seq<string>, read: GroupKey -> Option<seq<VenueItem>>, now: int)
    requires forall c :: c in rows ==> c in store
    ensures FullPass(v, store, GroupsOf(v, store, rows, [], read), now) == PassResult(store, 0)
  {
  }

  lemma FullPassStep(
    v: Venue, store: Store, rows: seq<string>, keys: seq<GroupKey>, k: nat,
    read: GroupKey -> Option<seq<VenueItem>>, now: int, mid: PassResult
  )
    requires k < |keys| && forall c :: c in rows ==> c in store
    requires mid == FullPass(v, store, GroupsOf(v, store, rows, keys[..k], read), now)
    ensures FullPass(v, store, GroupsOf(v, store, rows, keys[..k + 1], read), now) ==
            var items := read(keys[k]);
            if items.None? then mid
            else
              var working := Working(mid.store, Members(v, store, rows, keys[k]));
              var t := AccountPass(v, mid.store, working, items.value, now);
              PassResult(t.store, mid.applied + t.applied)
  {
    hide AccountPass, Members, Working;
    var groups := GroupsOf(v, store, rows, keys[..k + 1], read);
    assert keys[..k + 1][..k] == keys[..k];
    assert groups[..|groups| - 1] == GroupsOf(v, store, rows, keys[..k], read);
  }

  lemma AccountPassFrame(v: Venue, store: Store, rows: seq<string>, items: seq<VenueItem>, now: int)
    ensures var t := AccountPass(v, store, rows, items, now);
            t.store.Keys == store.Keys && forall c :: c in store && c !in rows ==> t.store[c] == store[c]
  {
    PassRowsFrame(v, PassState(store, HeldHandles(store, rows), 0), rows, items, now);
  }

  lemma ClaimShape(o: Order, items: seq<VenueItem>, claimed: set<string>, now: int, requireStuck: bool)
    ensures ClaimedAfter(o, items, claimed, now, requireStuck) ==
            var r := Resolve(o, items, claimed, now, requireStuck);
            if TriesFuzzy(o, items, now, requireStuck) && r.item.Some? then claimed + {r.item.value.orderNo}
            else claimed
  {
  }
}
