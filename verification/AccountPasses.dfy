/** A pass seen from one row: which account pass it belongs to, and which step it takes there. */
module AccountPasses {
  import opened Common
  import opened Sequences
  import opened Orders
  import opened Reconcile
  import opened PlanSoundness
  import opened FillConservation
  import opened Passes
  import opened Claims
  import opened Reconcilers
  import opened Runs

  // ---------------------------------------------------------------- accounts do not mix

  /** Two stores agree on the given rows. */
  ghost predicate Agree(store: Store, other: Store, rows: seq<string>) {
    forall c :: c in rows ==> (c in store <==> c in other) && (c in store ==> store[c] == other[c])
  }

  /** A pass reads and writes nothing but its own rows. */
  lemma {:induction false} PassRowsLocal(
    v: Venue, s: PassState, t: PassState, all: seq<string>, rows: seq<string>, items: seq<VenueItem>, now: int
  )
    requires s.claimed == t.claimed && Agree(s.store, t.store, all) && forall c :: c in rows ==> c in all
    ensures var s', t' := PassRows(v, s, rows, items, now), PassRows(v, t, rows, items, now);
            s'.claimed == t'.claimed && Agree(s'.store, t'.store, all)
  {
    hide RowStep, ClaimedAfter;
    if rows != [] {
      PassRowsLocal(v, s, t, all, rows[..|rows| - 1], items, now);
      assert rows == rows[..|rows| - 1] + [rows[|rows| - 1]];
    }
  }

  lemma {:induction false} WorkingLocal(store: Store, other: Store, cids: seq<string>)
    requires Agree(store, other, cids)
    ensures Working(store, cids) == Working(other, cids)
  {
    hide InWorkingSet;
    if cids != [] {
      assert cids == cids[..|cids| - 1] + [cids[|cids| - 1]];
      WorkingLocal(store, other, cids[..|cids| - 1]);
    }
  }

  lemma AccountPassLocal(v: Venue, store: Store, other: Store, cids: seq<string>, items: seq<VenueItem>, now: int)
    requires Agree(store, other, cids)
    ensures var rows := Working(store, cids);
            && Working(other, cids) == rows
            && Agree(AccountPass(v, store, rows, items, now).store, AccountPass(v, other, rows, items, now).store, cids)
  {
    hide PassRows, InWorkingSet, Working;
    var rows := Working(store, cids);
    WorkingLocal(store, other, cids);
    WorkingSound(store, cids);
    assert HeldHandles(store, rows) == HeldHandles(other, rows);
    var held := HeldHandles(store, rows);
    PassRowsLocal(v, PassState(store, held, 0), PassState(other, held, 0), cids, rows, items, now);
  }

  lemma AgreeOutside(store: Store, later: Store, rows: seq<string>, cids: seq<string>)
    requires Advances(store, later, rows) && forall c :: c in cids ==> c !in rows
    ensures Agree(store, later, cids)
  {
    hide Continues;
  }

  lemma AgreeAt(store: Store, other: Store, cids: seq<string>, c: string)
    requires Agree(store, other, cids) && c in cids && c in store
    ensures c in other && other[c] == store[c]
  {
  }

  lemma KeepsOrder(store: Store, later: Store, rows: seq<string>, c: string)
    requires Advances(store, later, rows) && c in store
    ensures c in later
  {
    hide Continues;
  }

  /** In a pass over all groups, a row ends up as the pass over its own group leaves it. */
  lemma {:induction false} FullPassGroup(v: Venue, store: Store, groups: seq<Group>, now: int, g: Group, c: string)
    requires AllSettled(store) && Distinct(AllRows(groups)) && g in groups && c in g.cids && c in store
    ensures var later := FullPass(v, store, groups, now).store;
            && c in later
            && match g.snapshot
               case None => later[c] == store[c]
               case Some(items) =>
                 var t := AccountPass(v, store, Working(store, g.cids), items, now).store;
                 c in t && later[c] == t[c]
  {
    hide AllSettled, AllFresh, AccountPass, Working, Distinct, Advances, Agree;
    var init, last := groups[..|groups| - 1], groups[|groups| - 1];
    assert groups == init + [last];
    GroupRows(groups);
    FullPassAdvances(v, store, init, now);
    var before := FullPass(v, store, init, now).store;
    if g in init {
      RowsListed(init, g);
      FullPassGroup(v, store, init, now, g, c);
      if last.snapshot.Some? {
        AccountPassAdvances(v, before, last.cids, last.snapshot.value, now);
        var t := AccountPass(v, before, Working(before, last.cids), last.snapshot.value, now).store;
        UntouchedRow(before, t, last.cids, c);
      }
    } else {
      AgreeOutside(store, before, AllRows(init), g.cids);
      AgreeAt(store, before, g.cids, c);
      if g.snapshot.Some? {
        var items := g.snapshot.value;
        AccountPassAdvances(v, store, g.cids, items, now);
        var t := AccountPass(v, store, Working(store, g.cids), items, now).store;
        KeepsOrder(store, t, g.cids, c);
        AccountPassLocal(v, store, before, g.cids, items, now);
        AgreeAt(t, AccountPass(v, before, Working(store, g.cids), items, now).store, g.cids, c);
      }
    }
  }

  lemma {:induction false} RowsListed(groups: seq<Group>, g: Group)
    requires g in groups
    ensures forall c :: c in g.cids ==> c in AllRows(groups)
  {
    var init, last := groups[..|groups| - 1], groups[|groups| - 1];
    assert groups == init + [last];
    if g in init {
      RowsListed(init, g);
    }
  }

  lemma {:induction false} GroupListed(
    v: Venue, store: Store, rows: seq<string>, keys: seq<GroupKey>, read: GroupKey -> Option<seq<VenueItem>>,
    key: GroupKey
  )
    requires (forall c :: c in rows ==> c in store) && key in keys
    ensures Group(Members(v, store, rows, key), read(key)) in GroupsOf(v, store, rows, keys, read)
  {
    hide Members;
    var init, last := keys[..|keys| - 1], keys[|keys| - 1];
    assert keys == init + [last];
    if key in init {
      GroupListed(v, store, rows, init, read, key);
    }
  }

  /** The rows of the order's own account in a listing. */
  function Peers(v: Venue, store: Store, rows: seq<string>, c: string): seq<string>
    requires c in store && forall d :: d in rows ==> d in store
  {
    Members(v, store, rows, KeyOf(v, store[c]))
  }

  /**
    Who shares a snapshot and a claimed set: the listed rows of the same account, and of the same
    market where books are per market.
   */
  lemma PeersAre(v: Venue, store: Store, rows: seq<string>, c: string, d: string)
    requires c in store && forall e :: e in rows ==> e in store
    ensures d in Peers(v, store, rows, c) <==>
            && d in rows && store[d].request.account == store[c].request.account
            && (v == StreamingProVenue ==> store[d].request.market == store[c].request.market)
    ensures KeyOf(v, store[c]).0 == store[c].request.account
    ensures v == StreamingProVenue ==> KeyOf(v, store[c]).1 == store[c].request.market
  {
    MembersSound(v, store, rows, KeyOf(v, store[c]));
  }

  /** What a resolution has to leave alone: the handles of the other listed rows of the account. */
  lemma OthersHandlesAre(v: Venue, store: Store, rows: seq<string>, c: string, h: string)
    requires c in store && forall e :: e in rows ==> e in store
    ensures h in OthersHandles(v, store, rows, c) <==>
            exists d :: d in Peers(v, store, rows, c) && d in store && d != c && store[d].handle == Some(h)
  {
    MembersSound(v, store, rows, KeyOf(v, store[c]));
    if h in OthersHandles(v, store, rows, c) {
      var d :| d in rows && d != c && store[d].handle == Some(h) && KeyOf(v, store[d]) == KeyOf(v, store[c]);
      assert d in Peers(v, store, rows, c);
    }
  }

  /** What a pass starts with: the handles of the account's rows. */
  lemma HeldHandlesAre(store: Store, rows: seq<string>, h: string)
    ensures h in HeldHandles(store, rows) <==> exists d :: d in rows && d in store && store[d].handle == Some(h)
  {
    if h in HeldHandles(store, rows) {
      var d :| d in rows && d in store && store[d].handle == Some(h);
    }
  }

  lemma PeersListed(v: Venue, store: Store, rows: seq<string>, c: string)
    requires c in rows && Distinct(rows) && forall d :: d in rows ==> d in store && InWorkingSet(store[d])
    ensures var peers := Peers(v, store, rows, c);
            Distinct(peers) && c in peers && forall d :: d in peers ==> d in store && InWorkingSet(store[d])
  {
    hide Distinct, InWorkingSet;
    MembersSound(v, store, rows, KeyOf(v, store[c]));
  }

  lemma PeersAlike(v: Venue, store: Store, rows: seq<string>, c: string, d: string)
    requires (forall e :: e in rows ==> e in store) && c in store && d in Peers(v, store, rows, c)
    ensures d in rows && KeyOf(v, store[d]) == KeyOf(v, store[c])
            && Peers(v, store, rows, d) == Peers(v, store, rows, c)
  {
    MembersSound(v, store, rows, KeyOf(v, store[c]));
  }

  /** A pass adds no order. */
  lemma SameOrders(store: Store, v: Venue, rows: seq<string>, read: GroupKey -> Option<seq<VenueItem>>, now: int)
    requires Sound(store) && Enabled(store, OpReconcile(v, rows, read, now))
    ensures ApplyOp(store, OpReconcile(v, rows, read, now)).Keys == store.Keys
  {
    hide AllSettled, AllFresh, FullPass, GroupsOf, KeysInOrder, InWorkingSet, Distinct;
    KeysDistinct(v, store, rows);
    GroupsPartition(v, store, rows, KeysInOrder(v, store, rows), read);
    FullPassAdvances(v, store, GroupsOf(v, store, rows, KeysInOrder(v, store, rows), read), now);
  }

  /** A reconcile pass, seen from one order: its account's pass, or nothing. */
  lemma ReconcileByAccount(
    store: Store, v: Venue, rows: seq<string>, read: GroupKey -> Option<seq<VenueItem>>, now: int, c: string
  )
    requires Sound(store) && Enabled(store, OpReconcile(v, rows, read, now)) && c in store
    ensures var later := ApplyOp(store, OpReconcile(v, rows, read, now));
            var items := read(KeyOf(v, store[c]));
            && c in later
            && if c !in rows || items.None? then later[c] == store[c]
               else
                 var t := AccountPass(v, store, Peers(v, store, rows, c), items.value, now).store;
                 c in t && later[c] == t[c]
  {
    hide AllSettled, Keyed, FullPass, AccountPass, Distinct, InWorkingSet, AllFresh, Continues, GroupsOf;
    hide KeysInOrder, Members;
    var keys := KeysInOrder(v, store, rows);
    var groups := GroupsOf(v, store, rows, keys, read);
    KeysDistinct(v, store, rows);
    GroupsPartition(v, store, rows, keys, read);
    FullPassAdvances(v, store, groups, now);
    if c in rows {
      var key := KeyOf(v, store[c]);
      GroupListed(v, store, rows, keys, read, key);
      MembersSound(v, store, rows, key);
      WorkingAll(store, Members(v, store, rows, key));
      FullPassGroup(v, store, groups, now, Group(Members(v, store, rows, key), read(key)), c);
    }
  }

  // ---------------------------------------------------------------- one row of an account pass

  /** During the pass the stuck row `d` was matched to the venue row `j`, and has been planned against it. */
  ghost predicate Took(v: Venue, store: Store, later: Store, items: seq<VenueItem>, now: int, d: string, j: VenueItem) {
    && d in store && d in later && j in items
    && Rival(store[d], j, now) && later[d] == AgainstOwnRow(v, store[d], j)
  }

  /** The numbers claimed: those held from the start, and those that rows met so far took. */
  ghost predicate ClaimsExplained(
    v: Venue, store: Store, later: Store, rows: seq<string>, items: seq<VenueItem>, now: int,
    held: set<string>, claimed: set<string>
  ) {
    && held <= claimed
    && forall n :: n in claimed && n !in held ==>
         exists d, j :: d in rows && Took(v, store, later, items, now, d, j) && j.orderNo == n
  }

  lemma StepTakes(
    v: Venue, o: Order, items: seq<VenueItem>, claimed: set<string>, now: int
  ) returns (j: Option<VenueItem>)
    ensures match j
            case None => ClaimedAfter(o, items, claimed, now, true) == claimed
            case Some(i) =>
              && ClaimedAfter(o, items, claimed, now, true) == claimed + {i.orderNo} && i in items && Rival(o, i, now)
              && RowStep(v, o, items, claimed, now, true).order == AgainstOwnRow(v, o, i)
  {
    hide Candidates, Lookup, ExecuteAll, PlanPresent, PlanAbsent, SameShape, HasPrice;
    ResolveSound(o, items, claimed, now, true);
    j := if TriesFuzzy(o, items, now, true) then Resolve(o, items, claimed, now, true).item else None;
  }

  lemma {:induction false} PassExplainsClaims(
    v: Venue, s: PassState, rows: seq<string>, items: seq<VenueItem>, now: int
  )
    requires AllSettled(s.store) && Distinct(rows)
    requires forall c :: c in rows ==> c in s.store && InWorkingSet(s.store[c])
    ensures var t := PassRows(v, s, rows, items, now);
            ClaimsExplained(v, s.store, t.store, rows, items, now, s.claimed, t.claimed)
  {
    hide AllSettled, Advances, RowStep, ClaimedAfter, InWorkingSet, Rival, AgainstOwnRow, Distinct;
    if rows != [] {
      var init, d := rows[..|rows| - 1], rows[|rows| - 1];
      InitDistinct(rows);
      assert rows == init + [d];
      PassExplainsClaims(v, s, init, items, now);
      PassRowsAdvances(v, s, init, items, now);
      var t := PassRows(v, s, init, items, now);
      UntouchedRow(s.store, t.store, init, d);
      var j := StepTakes(v, s.store[d], items, t.claimed, now);
      ExplainOneMore(v, s, t, init, d, items, now, PassRows(v, s, rows, items, now), j);
    }
  }

  lemma ExplainOneMore(
    v: Venue, s: PassState, t: PassState, init: seq<string>, d: string, items: seq<VenueItem>, now: int,
    u: PassState, j: Option<VenueItem>
  )
    requires ClaimsExplained(v, s.store, t.store, init, items, now, s.claimed, t.claimed)
    requires d in s.store && d !in init && d in u.store && u.store == t.store[d := u.store[d]]
    requires match j
             case None => u.claimed == t.claimed
             case Some(i) => u.claimed == t.claimed + {i.orderNo} && Took(v, s.store, u.store, items, now, d, i)
    ensures ClaimsExplained(v, s.store, u.store, init + [d], items, now, s.claimed, u.claimed)
  {
    hide Rival, AgainstOwnRow;
    forall n | n in u.claimed && n !in s.claimed
      ensures exists x, i :: x in init + [d] && Took(v, s.store, u.store, items, now, x, i) && i.orderNo == n
    {
      if n in t.claimed {
        var x, i :| x in init && Took(v, s.store, t.store, items, now, x, i) && i.orderNo == n;
        assert x in init + [d] && Took(v, s.store, u.store, items, now, x, i);
      } else {
        assert d in init + [d] && Took(v, s.store, u.store, items, now, d, j.value);
      }
    }
  }

  /** What the poll that reached row `c` in a pass over `rows` had claimed: held numbers and those other rows took. */
  ghost predicate ClaimedByOthers(
    v: Venue, store: Store, later: Store, rows: seq<string>, items: seq<VenueItem>, now: int,
    held: set<string>, c: string, claimed: set<string>
  ) {
    && held <= claimed
    && forall n :: n in claimed && n !in held ==>
         exists d, j :: d in rows && d != c && Took(v, store, later, items, now, d, j) && j.orderNo == n
  }

  /**
    In a pass over an account every row takes one row step, on the row as the pass found it, with
    exactly the held handles and the numbers other rows took in this pass claimed.
   */
  lemma {:induction false} PassRowIsStep(
    v: Venue, s: PassState, rows: seq<string>, items: seq<VenueItem>, now: int, c: string
  )
    returns (claimed: set<string>)
    requires AllSettled(s.store) && Distinct(rows) && c in rows
    requires forall d :: d in rows ==> d in s.store && InWorkingSet(s.store[d])
    ensures var t := PassRows(v, s, rows, items, now);
            && c in t.store && t.store[c] == Step(v, s.store[c], Poll(items, claimed, now, true))
            && ClaimedByOthers(v, s.store, t.store, rows, items, now, s.claimed, c, claimed)
  {
    hide AllSettled, Advances, RowStep, ClaimedAfter, InWorkingSet, Rival, AgainstOwnRow, Distinct;
    var init, d := rows[..|rows| - 1], rows[|rows| - 1];
    InitDistinct(rows);
    assert rows == init + [d];
    PassRowsAdvances(v, s, init, items, now);
    var t := PassRows(v, s, init, items, now);
    UntouchedRow(s.store, t.store, init, d);
    var u := PassRows(v, s, rows, items, now);
    if d == c {
      PassExplainsClaims(v, s, init, items, now);
      claimed := t.claimed;
      OthersTook(v, s.store, t.store, u.store, init, items, now, s.claimed, c, claimed);
    } else {
      claimed := PassRowIsStep(v, s, init, items, now, c);
      OthersStillTook(v, s.store, t.store, u.store, init, d, items, now, s.claimed, c, claimed);
    }
  }

  lemma OthersTook(
    v: Venue, store: Store, mid: Store, later: Store, init: seq<string>, items: seq<VenueItem>, now: int,
    held: set<string>, c: string, claimed: set<string>
  )
    requires ClaimsExplained(v, store, mid, init, items, now, held, claimed)
    requires c !in init && c in later && later == mid[c := later[c]]
    ensures ClaimedByOthers(v, store, later, init + [c], items, now, held, c, claimed)
  {
    hide Rival, AgainstOwnRow;
    forall n | n in claimed && n !in held
      ensures exists d, j :: d in init + [c] && d != c && Took(v, store, later, items, now, d, j) && j.orderNo == n
    {
      var d, j :| d in init && Took(v, store, mid, items, now, d, j) && j.orderNo == n;
      assert d in init + [c] && d != c && Took(v, store, later, items, now, d, j);
    }
  }

  lemma OthersStillTook(
    v: Venue, store: Store, mid: Store, later: Store, init: seq<string>, e: string, items: seq<VenueItem>,
    now: int, held: set<string>, c: string, claimed: set<string>
  )
    requires ClaimedByOthers(v, store, mid, init, items, now, held, c, claimed)
    requires e !in init && e in later && later == mid[e := later[e]]
    ensures ClaimedByOthers(v, store, later, init + [e], items, now, held, c, claimed)
  {
    hide Rival, AgainstOwnRow;
    forall n | n in claimed && n !in held
      ensures exists d, j :: d in init + [e] && d != c && Took(v, store, later, items, now, d, j) && j.orderNo == n
    {
      var d, j :| d in init && d != c && Took(v, store, mid, items, now, d, j) && j.orderNo == n;
      assert d in init + [e] && Took(v, store, later, items, now, d, j);
    }
  }
}
