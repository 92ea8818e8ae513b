/** The durable order row, its fills, and the five writes the repository layer issues on it. */
module Orders {
  import opened StateMachine
  import opened Common
  import Text

  datatype Side = Buy | Sell
  datatype Broker = Sim | Liberator | StreamingPro
  datatype Tif = Day | Gtc | Ioc | Fok

  /** The simulator's control channel (`metadata`); a real venue never sees it. */
  datatype SimControl = SimControl(reject: Option<string>, fills: Option<seq<int>>)

  datatype OrderRequest = OrderRequest(
    cid: string, broker: Broker, account: string, market: Market, symbol: string, side: Side,
    price: Option<real>, stopPrice: Option<real>, quantity: int, displayQty: Option<int>,
    tif: Tif, control: SimControl)

  /** What the request contract validates before an order enters the engine. */
  predicate ValidRequest(r: OrderRequest) {
    && r.quantity > 0
    && (r.price.Some? ==> r.price.value > 0.0)
    && (r.stopPrice.Some? ==> r.stopPrice.value > 0.0)
    && (r.displayQty.Some? ==> 0 < r.displayQty.value <= r.quantity)
  }

  datatype Fill = Fill(id: string, price: real, quantity: int)

  /**
    One `execution.orders` row joined with its fills, with the statuses its audit trigger has
    appended (`history`) and the engine states published for it (`published`).
    Timestamps are integers, in microseconds.
   */
  datatype Order = Order(
    request: OrderRequest, createdAt: int, price: Option<real>, quantity: int,
    status: OrderState, handle: Option<string>, reason: Option<string>, fills: seq<Fill>,
    history: seq<OrderState>, published: seq<OrderState>)

  /** The row an INSERT leaves: entry state, no venue handle, one birth event. */
  function Inserted(r: OrderRequest, createdAt: int): Order {
    Order(r, createdAt, r.price, r.quantity, PendingNew, None, None, [], [PendingNew], [PendingNew])
  }

  // ---------------------------------------------------------------- fills

  function Total(fills: seq<Fill>): int {
    if fills == [] then 0 else Total(fills[..|fills| - 1]) + fills[|fills| - 1].quantity
  }

  predicate HasFill(fills: seq<Fill>, id: string) {
    exists i :: 0 <= i < |fills| && fills[i].id == id
  }

  /** The deterministic id of the fill that brings the venue counter to `matched`. */
  function FillId(orderNo: string, matched: int): string {
    orderNo + ":" + Text.Render(matched)
  }

  lemma TotalAppend(fills: seq<Fill>, f: Fill)
    ensures Total(fills + [f]) == Total(fills) + f.quantity
  {
  }

  lemma FillIdInjective(orderNo: string, m: nat, n: nat)
    requires FillId(orderNo, m) == FillId(orderNo, n)
    ensures m == n
  {
    var k := |orderNo| + 1;
    assert FillId(orderNo, m)[k..] == Text.Decimal(m);
    assert FillId(orderNo, n)[k..] == Text.Decimal(n);
    Text.DecimalInjective(m, n);
  }

  /** A fill id is the order number, a colon, and the counter in decimal. */
  lemma FillIdReadsBack(orderNo: string, m: nat)
    ensures var id, n := FillId(orderNo, m), |orderNo|;
            |id| > n && id[..n] == orderNo && id[n] == ':' && Text.Value(id[n + 1..]) == m
  {
    Text.DecimalReadsBack(m);
    assert FillId(orderNo, m)[|orderNo| + 1..] == Text.Decimal(m);
  }

  // ---------------------------------------------------------------- writes

  datatype Write =
    | Ack(handle: string)
    | Replace(newPrice: Option<real>, newQty: Option<int>)
    | Status(to: OrderState)
    | Reason(text: string)
    | RecordFill(fill: Fill, total: int)

  /** The status column is written, the trigger appends its audit row. */
  function Move(o: Order, to: OrderState): Order {
    o.(status := to, history := o.history + [to])
  }

  function Publish(o: Order, s: OrderState): Order {
    o.(published := o.published + [s])
  }

  function FillTarget(fills: seq<Fill>, total: int): OrderState {
    if Total(fills) >= total then Filled else PartiallyFilled
  }

  /**
    The row after one repository write, or `None` when the write raises. A raising write leaves
    nothing behind: the guarded UPDATEs match no row, and an illegal status flip rolls the fill
    insert back with it.
   */
  function Commit(o: Order, w: Write): Option<Order> {
    match w
    case Ack(h) =>
      if o.status != PendingNew then None
      else Some(Publish(Move(o, New).(handle := Some(h)), New))
    case Replace(p, q) =>
      if o.status != PendingReplace then None
      else Some(Publish(Move(o, New).(price := if p.Some? then p else o.price,
                                      quantity := if q.Some? then q.value else o.quantity), New))
    case Status(to) =>
      if o.status == to then Some(o)
      else if !IsLegal(o.status, to) then None
      else Some(Publish(Move(o, to), to))
    case Reason(text) => Some(o.(reason := Some(text)))
    case RecordFill(f, total) =>
      var unseen := !HasFill(o.fills, f.id);
      var fills := if unseen then o.fills + [f] else o.fills;
      var target := FillTarget(fills, total);
      if o.status != target && !LegalEdge(o.status, target) then None
      else
        var o1 := o.(fills := fills);
        var o2 := if o.status != target then Move(o1, target) else o1;
        Some(if unseen then Publish(o2, target) else o2)
  }

  lemma ReasonSucceeds(o: Order, text: string)
    ensures Commit(o, Reason(text)).Some?
  {
  }

  /** The row after an attempted write, raised or not. */
  function After(o: Order, w: Write): Order {
    var r := Commit(o, w);
    if r.Some? then r.value else o
  }

  /** Several writes in a row, abandoned at the first one that raises. */
  datatype Effect = Effect(order: Order, raised: bool)

  function Try(o: Order, w: Write): Effect {
    match Commit(o, w)
    case Some(o') => Effect(o', false)
    case None => Effect(o, true)
  }

  function Then(e: Effect, w: Write): Effect {
    if e.raised then e else Try(e.order, w)
  }
}
