/** The deterministic simulator as the fill source of submit runs. */
module Sim {
  import opened StateMachine
  import opened Common
  import opened Orders
  import opened Lifecycle
  import opened PlanSoundness
  import opened Routers
  import Runs
  import Boundaries

  function Sum(q: seq<int>): int {
    if q == [] then 0 else Sum(q[..|q| - 1]) + q[|q| - 1]
  }

  datatype FillPlan = Plan(quantities: seq<int>) | Refused(why: string)

  predicate AllPositive(q: seq<int>) {
    forall i :: 0 <= i < |q| ==> q[i] > 0
  }

  function PlanFor(r: OrderRequest): FillPlan {
    if r.control.reject.Some? then Refused(r.control.reject.value)
    else
      var plan := if r.control.fills.None? then [r.quantity] else r.control.fills.value;
      if !AllPositive(plan) then Refused("invalid sim_fills: must be a list of positive integers")
      else if Sum(plan) > r.quantity then Refused("invalid sim_fills: sum exceeds order quantity")
      else if r.tif.Fok? && plan != [r.quantity] then Refused("FOK requires a single full fill")
      else Plan(plan)
  }

  function Prefix(cid: string): string {
    if |cid| <= 8 then cid else cid[..8]
  }

  function SimFillId(cid: string, i: nat): string {
    "SIMF-" + Prefix(cid) + "-" + Text.Render(i)
  }

  /** One report per planned quantity, numbered from one. */
  function Reports(cid: string, price: real, q: seq<int>): seq<Fill> {
    seq(|q|, i requires 0 <= i < |q| => Fill(SimFillId(cid, i + 1), price, q[i]))
  }

  function Place(r: OrderRequest, price: real): PlaceReply {
    match PlanFor(r)
    case Refused(why) => PlaceRejected(Some(why))
    case Plan(q) => Accepted("SIM-" + Prefix(r.cid), Reports(r.cid, price, q), r.tif.Ioc? && Sum(q) < r.quantity, false)
  }

  lemma SimFillIdInjective(cid: string, i: nat, j: nat)
    requires SimFillId(cid, i) == SimFillId(cid, j)
    ensures i == j
  {
    var k := |"SIMF-" + Prefix(cid) + "-"|;
    assert SimFillId(cid, i)[k..] == Text.Decimal(i);
    assert SimFillId(cid, j)[k..] == Text.Decimal(j);
    Text.DecimalInjective(i, j);
  }

  lemma {:induction false} ReportsTotal(cid: string, price: real, q: seq<int>)
    ensures Total(Reports(cid, price, q)) == Sum(q)
  {
    if q != [] {
      var n := |q| - 1;
      ReportsTotal(cid, price, q[..n]);
      assert Reports(cid, price, q)[..n] == Reports(cid, price, q[..n]);
    }
  }

  /** Every report is recorded: the ids are all different. */
  lemma {:induction false} ReportsAllRecorded(o: Order, price: real, q: seq<int>)
    requires Settled(o) && o.status.New? && AllPositive(q)
    ensures var e := FillAll(Effect(o, false), Reports(o.request.cid, price, q), o.quantity);
            && !e.raised && e.order.fills == Reports(o.request.cid, price, q)
            && Settled(e.order) && e.order.quantity == o.quantity
            && (q != [] ==> e.order.status.PartiallyFilled? || e.order.status.Filled?)
            && (q == [] ==> e.order == o)
  {
    hide Audited, Mirrored, Extends, Reports, Commit, HasFill;
    var fills := Reports(o.request.cid, price, q);
    ReportsShape(o.request.cid, price, q);
    if q != [] {
      var n := |q| - 1;
      ReportsAllRecorded(o, price, q[..n]);
      Runs.FillSettlesOrOverfills(FillAll(Effect(o, false), fills[..n], o.quantity).order, fills[n]);
      assert fills == fills[..n] + [fills[n]];
    }
  }

  /** The last report is for the last quantity, under an id no earlier report carries. */
  lemma ReportsShape(cid: string, price: real, q: seq<int>)
    ensures q == [] ==> Reports(cid, price, q) == []
    ensures q != [] ==>
              var fills, n := Reports(cid, price, q), |q| - 1;
              && |fills| == |q| && fills[..n] == Reports(cid, price, q[..n])
              && fills[n].quantity == q[n] && !HasFill(fills[..n], fills[n].id)
  {
    if q != [] {
      var fills, n := Reports(cid, price, q), |q| - 1;
      forall i | 0 <= i < n ensures fills[i].id != fills[n].id {
        if fills[i].id == fills[n].id {
          SimFillIdInjective(cid, i + 1, n + 1);
        }
      }
    }
  }

  /** The quantities asked for: the control's list, or else the whole order at once. */
  function Asked(r: OrderRequest): seq<int> {
    if r.control.fills == None then [r.quantity] else r.control.fills.value
  }

  /** Why the simulator refuses an order, if it does. */
  ghost function Refusal(r: OrderRequest): Option<string> {
    if r.control.reject.Some? then r.control.reject
    else if exists i :: 0 <= i < |Asked(r)| && Asked(r)[i] < 1 then
      Some("invalid sim_fills: must be a list of positive integers")
    else if Sum(Asked(r)) > r.quantity then Some("invalid sim_fills: sum exceeds order quantity")
    else if r.tif == Fok && Asked(r) != [r.quantity] then Some("FOK requires a single full fill")
    else None
  }

  /** The final state the simulator's documentation promises for each control input. */
  ghost predicate Documented(r: OrderRequest, price: real, later: Order) {
    match Refusal(r)
    case Some(why) =>
      && later.status == Rejected && later.fills == []
      && later.reason == Some(if why == "" then "rejected by adapter" else why)
    case None =>
      var q := Asked(r);
      && later.handle == Some("SIM-" + r.cid[..if |r.cid| > 8 then 8 else |r.cid|])
      && |later.fills| == |q|
      && (forall i :: 0 <= i < |q| ==> later.fills[i].quantity == q[i] && later.fills[i].price == price)
      && later.status == if Sum(q) == r.quantity then Filled
                         else if r.tif == Ioc then Cancelled
                         else if q == [] then New else PartiallyFilled
  }

  lemma PositiveIs(q: seq<int>)
    ensures AllPositive(q) <==> !exists i :: 0 <= i < |q| && q[i] < 1
  {
  }

  lemma PlanIs(r: OrderRequest)
    ensures PlanFor(r) == if Refusal(r).Some? then Refused(Refusal(r).value) else Plan(Asked(r))
  {
    PositiveIs(Asked(r));
    hide AllPositive, Sum;
    var q := if r.control.fills.None? then [r.quantity] else r.control.fills.value;
    assert q == Asked(r);
  }

  /** Reports have different ids, so each one is the first under its own. */
  lemma {:induction false} ReportsAreFirst(cid: string, price: real, q: seq<int>)
    ensures Runs.FirstOfEach(Reports(cid, price, q)) == Reports(cid, price, q)
  {
    hide Reports, HasFill;
    var fills := Reports(cid, price, q);
    ReportsShape(cid, price, q);
    if q != [] {
      var n := |q| - 1;
      ReportsAreFirst(cid, price, q[..n]);
      assert fills == fills[..n] + [fills[n]];
    }
  }

  lemma PlannedEnds(r: OrderRequest, createdAt: int, price: real, q: seq<int>)
    requires ValidRequest(r) && AllPositive(q) && Sum(q) <= r.quantity
    ensures var remainder := r.tif.Ioc? && Sum(q) < r.quantity;
            var reply := Accepted("SIM-" + Prefix(r.cid), Reports(r.cid, price, q), remainder, false);
            var e := PlaceAndSettle(Inserted(r, createdAt), reply);
            && !e.raised && e.order.handle == Some("SIM-" + Prefix(r.cid)) && e.order.fills == Reports(r.cid, price, q)
            && e.order.status == if Sum(q) == r.quantity then Filled
                                 else if r.tif.Ioc? then Cancelled
                                 else if q == [] then New else PartiallyFilled
  {
    var remainder := r.tif.Ioc? && Sum(q) < r.quantity;
    var reply := Accepted("SIM-" + Prefix(r.cid), Reports(r.cid, price, q), remainder, false);
    ReportsLength(r.cid, price, q);
    hide Settled, PlaceAndSettle, Reports, Total, Sum;
    InsertedIsSettled(r, createdAt);
    Runs.PlacementOutcome(Inserted(r, createdAt), reply);
    ReportsAreFirst(r.cid, price, q);
    ReportsTotal(r.cid, price, q);
  }

  lemma ReportsLength(cid: string, price: real, q: seq<int>)
    ensures |Reports(cid, price, q)| == |q|
    ensures forall i :: 0 <= i < |q| ==>
            Reports(cid, price, q)[i].quantity == q[i] && Reports(cid, price, q)[i].price == price
  {
  }

  lemma RefusedEnds(r: OrderRequest, createdAt: int, price: real)
    requires ValidRequest(r) && Refusal(r).Some?
    ensures var e := PlaceAndSettle(Inserted(r, createdAt), PlaceRejected(Refusal(r)));
            !e.raised && Documented(r, price, e.order)
  {
    hide Refusal, Settled, PlaceAndSettle;
    InsertedIsSettled(r, createdAt);
    Runs.PlacementOutcome(Inserted(r, createdAt), PlaceRejected(Refusal(r)));
  }

  lemma AskedIsPlannable(r: OrderRequest)
    requires Refusal(r).None?
    ensures AllPositive(Asked(r)) && Sum(Asked(r)) <= r.quantity
  {
    PositiveIs(Asked(r));
  }

  lemma PrefixIs(cid: string)
    ensures Prefix(cid) == cid[..if |cid| > 8 then 8 else |cid|]
  {
  }

  lemma AcceptedEnds(r: OrderRequest, createdAt: int, price: real)
    requires ValidRequest(r) && Refusal(r).None?
    ensures var q := Asked(r);
            var remainder := r.tif.Ioc? && Sum(q) < r.quantity;
            var reply := Accepted("SIM-" + Prefix(r.cid), Reports(r.cid, price, q), remainder, false);
            var e := PlaceAndSettle(Inserted(r, createdAt), reply);
            !e.raised && Documented(r, price, e.order)
  {
    hide Refusal, PlaceAndSettle, Reports, AllPositive, Sum, Prefix, Asked;
    AskedIsPlannable(r);
    PrefixIs(r.cid);
    ReportsLength(r.cid, price, Asked(r));
    PlannedEnds(r, createdAt, price, Asked(r));
  }

  /** A simulated submit never raises, ends in the documented state, and records exactly the planned quantities. */
  lemma SimulatedSubmitEnds(r: OrderRequest, createdAt: int, price: real)
    requires ValidRequest(r)
    ensures var e := PlaceAndSettle(Inserted(r, createdAt), Place(r, price));
            !e.raised && Settled(e.order) && Documented(r, price, e.order)
  {
    hide PlanFor, Refusal, Settled, PlaceAndSettle, Reports, Documented, Sum, Boundaries.ForeignReports, ValidReply;
    PlanIs(r);
    ReportsAreForeign(r, price);
    Runs.PlacedRequest(r, createdAt, Place(r, price));
    if Refusal(r).Some? {
      RefusedEnds(r, createdAt, price);
    } else {
      AcceptedEnds(r, createdAt, price);
    }
  }

  lemma {:induction false} SumPositive(q: seq<int>)
    requires AllPositive(q)
    ensures Sum(q) >= |q|
  {
    if q != [] {
      SumPositive(q[..|q| - 1]);
    }
  }

  /** Simulated reports are valid, and their ids are never those of a venue counter. */
  lemma ReportsAreForeign(r: OrderRequest, price: real)
    ensures ValidReply(Place(r, price)) && Boundaries.ForeignReports(Place(r, price))
  {
    var reply := Place(r, price);
    if reply.Accepted? {
      forall f, m: nat | f in reply.fills ensures f.id != FillId(reply.handle, m) {
        assert f.id[3] == 'F' && FillId(reply.handle, m)[3] == '-';
      }
    }
  }
}
