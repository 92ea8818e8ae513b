/** What every single write keeps, whoever issues it and in whatever interleaving. */
module Lifecycle {
  import opened StateMachine
  import opened Common
  import opened Orders

  /** The audit trail is a legal walk that ends in the current status, and fill ids are unique. */
  ghost predicate Audited(o: Order) {
    && LegalWalk(o.history)
    && o.history[|o.history| - 1] == o.status
    && forall i, j :: 0 <= i < j < |o.fills| ==> o.fills[i].id != o.fills[j].id
  }

  /** No venue handle exactly while the order is unacknowledged or rejected. */
  predicate HandleMatchesStatus(o: Order) {
    o.handle.None? <==> (o.status.PendingNew? || o.status.Rejected?)
  }

  /** The published engine states, repetitions collapsed, are the status history. */
  ghost predicate Mirrored(o: Order) {
    o.published != [] && Dedup(o.published) == o.history
  }

  /** `later` continues `o`: identity is kept; audit trail, fills and stream only grow. */
  ghost predicate Extends(o: Order, later: Order) {
    && o.request == later.request
    && o.createdAt == later.createdAt
    && o.history <= later.history
    && o.fills <= later.fills
    && o.published <= later.published
  }

  /** A recorded venue handle never changes. */
  predicate HandleKept(o: Order, later: Order) {
    o.handle.Some? ==> later.handle == o.handle
  }

  lemma ExtendsReflexive(o: Order)
    ensures Extends(o, o)
  {
  }

  lemma ExtendsTransitive(a: Order, b: Order, c: Order)
    requires Extends(a, b) && Extends(b, c)
    ensures Extends(a, c)
  {
  }

  /** A terminal order has the same status in every continuation. */
  lemma TerminalIsFinal(o: Order, later: Order)
    requires Audited(o) && Audited(later) && Extends(o, later) && IsTerminal(o.status)
    ensures later.status == o.status && later.history == o.history
  {
    TerminalEndsWalk(later.history, |o.history| - 1);
  }

  /** A frozen edge appends to a legal walk. */
  lemma WalkAppend(h: seq<OrderState>, to: OrderState)
    requires LegalWalk(h) && LegalEdge(h[|h| - 1], to)
    ensures LegalWalk(h + [to])
  {
  }

  /** What a write can do to trail and fills: one frozen edge or none, one new fill or none. */
  lemma WriteShape(o: Order, w: Write)
    ensures var later := After(o, w);
            && Extends(o, later)
            && (if later.status == o.status then later.history == o.history
                else later.history == o.history + [later.status] && LegalEdge(o.status, later.status))
            && (later.fills == o.fills
                || (w.RecordFill? && !HasFill(o.fills, w.fill.id) && later.fills == o.fills + [w.fill]))
  {
    hide HasFill, Total;
  }

  lemma WriteKeepsAudit(o: Order, w: Write)
    requires Audited(o)
    ensures Audited(After(o, w)) && Extends(o, After(o, w))
  {
    hide After, LegalWalk, Extends;
    var later := After(o, w);
    WriteShape(o, w);
    if later.status != o.status {
      WalkAppend(o.history, later.status);
    }
    assert w.RecordFill? && !HasFill(o.fills, w.fill.id) ==>
        forall i :: 0 <= i < |o.fills| ==> o.fills[i].id != w.fill.id;
  }

  /** A status update straight out of PENDING_NEW, bypassing the statement that sets the handle. */
  predicate BareAck(o: Order, w: Write) {
    w == Status(New) && o.status == PendingNew
  }

  /** A bare acknowledgement is the one write that separates handle and status. */
  lemma WriteKeepsHandle(o: Order, w: Write)
    requires HandleMatchesStatus(o)
    ensures HandleMatchesStatus(After(o, w)) <==> !BareAck(o, w)
    ensures HandleKept(o, After(o, w))
  {
  }

  /** A redelivered fill that still moves the status. */
  predicate SilentFlip(o: Order, w: Write) {
    && w.RecordFill?
    && HasFill(o.fills, w.fill.id)
    && FillTarget(o.fills, w.total) != o.status
    && LegalEdge(o.status, FillTarget(o.fills, w.total))
  }

  lemma PublishedMove(o: Order, s: OrderState)
    requires Audited(o) && Mirrored(o)
    ensures Dedup(o.published + [s]) == if s == o.status then o.history else o.history + [s]
  {
    DedupKeepsLast(o.published);
    DedupAppend(o.published, s);
  }

  /** The stream mirrors the durable history after a write unless a redelivered fill moved the status. */
  lemma WriteKeepsMirror(o: Order, w: Write)
    requires Audited(o) && Mirrored(o)
    ensures Mirrored(After(o, w)) <==> !SilentFlip(o, w)
  {
    match w
    case Ack(_) => if o.status == PendingNew { PublishedMove(o, New); }
    case Replace(_, _) => if o.status == PendingReplace { PublishedMove(o, New); }
    case Status(to) => if o.status != to && IsLegal(o.status, to) { PublishedMove(o, to); }
    case Reason(_) =>
    case RecordFill(f, total) =>
      var target := FillTarget(After(o, w).fills, total);
      PublishedMove(o, target);
  }

  /** A fill whose id is already recorded publishes nothing and adds nothing. */
  lemma RedeliveryIsSilent(o: Order, f: Fill, total: int)
    requires HasFill(o.fills, f.id)
    ensures var o' := After(o, RecordFill(f, total));
            o'.fills == o.fills && o'.published == o.published
  {
  }

  // ---------------------------------------------------------------- any interleaving of writes

  function AfterAll(o: Order, ws: seq<Write>): Order {
    if ws == [] then o else After(AfterAll(o, ws[..|ws| - 1]), ws[|ws| - 1])
  }

  /** No write of the sequence meets the order in the given bad situation. */
  ghost predicate Never(o: Order, ws: seq<Write>, bad: (Order, Write) -> bool) {
    forall k :: 0 <= k < |ws| ==> !bad(AfterAll(o, ws[..k]), ws[k])
  }

  lemma NeverPrefix(o: Order, ws: seq<Write>, bad: (Order, Write) -> bool)
    requires ws != [] && Never(o, ws, bad)
    ensures Never(o, ws[..|ws| - 1], bad)
    ensures !bad(AfterAll(o, ws[..|ws| - 1]), ws[|ws| - 1])
  {
    var init := ws[..|ws| - 1];
    forall k | 0 <= k < |init| ensures !bad(AfterAll(o, init[..k]), init[k]) {
      assert init[..k] == ws[..k] && init[k] == ws[k];
    }
  }

  /**
    Whatever writes arrive, from any actors, in any order and with any arguments: the audit
    trail stays a legal walk, fills are append-only with unique ids, and a terminal status is
    never left.
   */
  lemma {:induction false} AnyInterleavingIsAudited(o: Order, ws: seq<Write>)
    requires Audited(o)
    ensures Audited(AfterAll(o, ws)) && Extends(o, AfterAll(o, ws))
    ensures IsTerminal(o.status) ==> AfterAll(o, ws).status == o.status
  {
    if ws != [] {
      var mid := AfterAll(o, ws[..|ws| - 1]);
      AnyInterleavingIsAudited(o, ws[..|ws| - 1]);
      WriteKeepsAudit(mid, ws[|ws| - 1]);
    }
    if IsTerminal(o.status) {
      TerminalIsFinal(o, AfterAll(o, ws));
    }
  }

  /** Without a bare acknowledgement the handle is null exactly in PENDING_NEW and REJECTED, and write-once. */
  lemma {:induction false} AnyInterleavingKeepsHandle(o: Order, ws: seq<Write>)
    requires HandleMatchesStatus(o) && Never(o, ws, BareAck)
    ensures HandleMatchesStatus(AfterAll(o, ws)) && HandleKept(o, AfterAll(o, ws))
  {
    if ws != [] {
      NeverPrefix(o, ws, BareAck);
      AnyInterleavingKeepsHandle(o, ws[..|ws| - 1]);
      WriteKeepsHandle(AfterAll(o, ws[..|ws| - 1]), ws[|ws| - 1]);
    }
  }

  /** The stream refines the durable history along every sequence of writes without a silent flip. */
  lemma {:induction false} StreamRefinesHistory(o: Order, ws: seq<Write>)
    requires Audited(o) && Mirrored(o) && Never(o, ws, SilentFlip)
    ensures Dedup(AfterAll(o, ws).published) == AfterAll(o, ws).history
    ensures Mirrored(AfterAll(o, ws))
  {
    if ws != [] {
      var mid := AfterAll(o, ws[..|ws| - 1]);
      NeverPrefix(o, ws, SilentFlip);
      StreamRefinesHistory(o, ws[..|ws| - 1]);
      AnyInterleavingIsAudited(o, ws[..|ws| - 1]);
      WriteKeepsMirror(mid, ws[|ws| - 1]);
    }
  }

  /** `later` is the row with another status, and perhaps another reason; everything durable is kept. */
  predicate Moved(o: Order, later: Order, to: OrderState, reason: Option<string>) {
    && later.status == to && later.reason == reason
    && later.fills == o.fills && later.handle == o.handle && later.price == o.price && later.quantity == o.quantity
  }

  // ---------------------------------------------------------------- operation boundaries

  /** The lifecycle invariant that holds between operations. */
  ghost predicate Settled(o: Order) {
    && Audited(o) && HandleMatchesStatus(o) && Mirrored(o)
    && o.quantity > 0
    && (forall i :: 0 <= i < |o.fills| ==> o.fills[i].quantity > 0)
    && (o.status.Filled? <==> Total(o.fills) >= o.quantity)
    && (o.status.PartiallyFilled? ==> Total(o.fills) > 0)
    && (o.status.New? || o.status.PendingNew? || o.status.Rejected? ==> o.fills == [])
  }

  lemma {:induction false} TotalNonNegative(fills: seq<Fill>)
    requires forall i :: 0 <= i < |fills| ==> fills[i].quantity > 0
    ensures Total(fills) >= |fills|
  {
    if fills != [] {
      TotalNonNegative(fills[..|fills| - 1]);
    }
  }

  lemma InsertedIsSettled(r: OrderRequest, createdAt: int)
    requires ValidRequest(r)
    ensures Settled(Inserted(r, createdAt))
  {
  }

  /**
    Re-executing an already recorded fill on a settled order changes nothing at all, except
    when it carries a total that a later amend has raised the order's quantity above.
   */
  lemma RedeliveryChangesOnlyOnStaleTotal(o: Order, f: Fill, total: int)
    requires Settled(o) && HasFill(o.fills, f.id)
    ensures After(o, RecordFill(f, total)) != o <==> o.status.PartiallyFilled? && Total(o.fills) >= total
    ensures total == o.quantity ==> After(o, RecordFill(f, total)) == o
  {
  }

  /** An order amended from 10 to 20, with fills of 4 and 8. */
  function AmendedOrder(): Order {
    var r := OrderRequest("c", Sim, "a", SET, "S", Buy, Some(1.5), None, 10, None, Day, SimControl(None, None));
    var walk := [PendingNew, New, PartiallyFilled];
    var fills := [Fill("h:4", 1.5, 4), Fill("h:12", 1.5, 8)];
    Order(r, 0, Some(1.5), 20, PartiallyFilled, Some("h"), None, fills, walk, walk)
  }

  lemma AmendedOrderAudited()
    ensures Audited(AmendedOrder())
  {
    var o := AmendedOrder();
    assert |o.fills[0].id| != |o.fills[1].id|;
    hide Dedup, Total;
  }

  lemma AmendedOrderTotal()
    ensures Total(AmendedOrder().fills) == 12
  {
    var fills := AmendedOrder().fills;
    TotalAppend([fills[0]], fills[1]);
    TotalAppend([], fills[0]);
    assert [] + [fills[0]] == [fills[0]] && [fills[0]] + [fills[1]] == fills;
  }

  lemma AmendedOrderSettled()
    ensures Settled(AmendedOrder())
  {
    WalkIsItsDedup();
    AmendedOrderAudited();
    AmendedOrderTotal();
    hide Dedup, Total, Audited;
  }

  /**
    Its first fill redelivered with the total of 10 it was planned for: the order turns FILLED
    at 12 of 20, and no event says so.
   */
  lemma StaleTotalCloses()
    ensures var o := AmendedOrder();
            var later := After(o, RecordFill(o.fills[0], 10));
            Settled(o) && later.status.Filled? && later.published == o.published && !Mirrored(later)
  {
    var o := AmendedOrder();
    AmendedOrderSettled();
    AmendedOrderTotal();
    assert HasFill(o.fills, o.fills[0].id);
    hide Dedup, Total, AmendedOrder, HasFill;
    WriteKeepsMirror(o, RecordFill(o.fills[0], 10));
  }

  lemma WalkIsItsDedup()
    ensures var walk := [PendingNew, New, PartiallyFilled];
            Dedup(walk) == walk
  {
  }
}
