/**
  The pure side of reconciliation: matching a local row to a venue snapshot, planning the
  repairs, and what executing a plan does to the row. Both venue twins share this model; they
  differ in `FillPriceFor` and in how absence from the venue book is read.
 */
module Reconcile {
  import opened StateMachine
  import opened Common
  import opened Orders

  datatype Venue = LiberatorVenue | StreamingProVenue

  datatype VenueState = Resting | VenueCancelled | VenueRejected | VenueExpired

  /** One row of the venue's order book; `matched` is cumulative. */
  datatype VenueItem = VenueItem(
    orderNo: string, symbol: string, side: Option<Side>, volume: int, price: Option<real>,
    matched: int, amount: Option<real>, state: VenueState, entryTime: Option<int>, note: string)

  const SECOND: int := 1_000_000
  const STUCK_PENDING: int := 5 * SECOND
  const ACK_LOST_TIMEOUT: int := 60 * SECOND
  const FUZZY_WINDOW: int := 5 * SECOND

  // ---------------------------------------------------------------- prices and days

  /** Half-even rounding to six decimals, the precision of the price column. */
  function Quantize(x: real): real {
    var scaled := x * 1000000.0;
    var low := scaled.Floor;
    var rest := scaled - low as real;
    var n := if rest < 0.5 || (rest == 0.5 && low % 2 == 0) then low else low + 1;
    n as real / 1000000.0
  }

  predicate HasPrice(p: Option<real>) {
    p.Some? && p.value > 0.0
  }

  function FillPriceFor(v: Venue, o: Order, item: VenueItem): Option<real> {
    if HasPrice(item.price) then item.price
    else if v.LiberatorVenue? && HasPrice(item.amount) && item.matched > 0 then
      Some(Quantize(item.amount.value / item.matched as real))
    else if o.price.Some? then o.price
    else o.request.stopPrice
  }

  /** The Bangkok calendar day (UTC+7, no daylight saving) of a UTC timestamp. */
  function VenueDay(ts: int): int {
    (ts + 7 * 3600 * SECOND) / (24 * 3600 * SECOND)
  }

  /** Only the venue that keeps a current-day book needs the row to be of that day. */
  predicate AbsenceIsInformative(v: Venue, o: Order, now: int) {
    v.StreamingProVenue? || VenueDay(o.createdAt) == VenueDay(now)
  }

  // ---------------------------------------------------------------- matching

  /** Symbol, volume and side agree and the entry time is within the window. */
  predicate SameShape(o: Order, item: VenueItem) {
    && item.symbol == o.request.symbol && item.volume == o.quantity
    && item.side == Some(o.request.side)
    && item.entryTime.Some?
    && -FUZZY_WINDOW <= item.entryTime.value - o.createdAt <= FUZZY_WINDOW
  }

  predicate IsCandidate(o: Order, item: VenueItem, claimed: set<string>) {
    && item.orderNo !in claimed
    && SameShape(o, item)
    && (HasPrice(item.price) && HasPrice(o.price) ==> item.price == o.price)
  }

  function Candidates(o: Order, items: seq<VenueItem>, claimed: set<string>): seq<VenueItem> {
    if items == [] then []
    else
      var last := items[|items| - 1];
      Candidates(o, items[..|items| - 1], claimed) + (if IsCandidate(o, last, claimed) then [last] else [])
  }

  datatype MatchOutcome = MatchOutcome(item: Option<VenueItem>, count: nat) {
    predicate Ambiguous() {
      item.None? && count > 1
    }
  }

  function FuzzyMatch(o: Order, items: seq<VenueItem>, claimed: set<string>): MatchOutcome {
    var c := Candidates(o, items, claimed);
    MatchOutcome(if |c| == 1 then Some(c[0]) else None, |c|)
  }

  /** The index built from a snapshot: a repeated order number keeps its last row. */
  function Lookup(items: seq<VenueItem>, orderNo: string): Option<VenueItem> {
    if items == [] then None
    else if items[|items| - 1].orderNo == orderNo then Some(items[|items| - 1])
    else Lookup(items[..|items| - 1], orderNo)
  }

  /** The venue row found for an order, and whether the matcher declined to choose. */
  datatype Resolution = Resolution(item: Option<VenueItem>, ambiguous: bool)

  function Bound(o: Order, items: seq<VenueItem>): Option<VenueItem> {
    if o.handle.Some? && o.handle.value != "" then Lookup(items, o.handle.value) else None
  }

  predicate TriesFuzzy(o: Order, items: seq<VenueItem>, now: int, requireStuck: bool) {
    && Bound(o, items).None? && o.status.PendingNew?
    && (now - o.createdAt > STUCK_PENDING || !requireStuck)
  }

  function Resolve(o: Order, items: seq<VenueItem>, claimed: set<string>, now: int, requireStuck: bool): Resolution {
    if TriesFuzzy(o, items, now, requireStuck) then
      var m := FuzzyMatch(o, items, claimed);
      Resolution(m.item, m.Ambiguous())
    else
      Resolution(Bound(o, items), false)
  }

  /** A fuzzy match claims its venue row for the rest of the pass. */
  function ClaimedAfter(
    o: Order, items: seq<VenueItem>, claimed: set<string>, now: int, requireStuck: bool
  ): set<string> {
    var r := Resolve(o, items, claimed, now, requireStuck);
    if TriesFuzzy(o, items, now, requireStuck) && r.item.Some? then claimed + {r.item.value.orderNo} else claimed
  }

  // ---------------------------------------------------------------- planning

  datatype Action =
    | DoAck(handle: string)
    | DoFill(fill: Fill, total: int)
    | CancelTwoStep
    | CancelConfirm
    | Expire
    | Reject(reason: string)
    | PostAckReject(reason: string)

  function RejectText(v: Venue, item: VenueItem): string {
    (if v.LiberatorVenue? then "liberator reject" else "streaming_pro reject")
    + (if item.note == "" then "" else " " + item.note)
  }

  function TerminalActions(v: Venue, o: Order, item: VenueItem): seq<Action> {
    match item.state
    case VenueCancelled => [CancelTwoStep]
    case VenueExpired => [Expire]
    case VenueRejected =>
      if o.status.PendingNew? then [Reject(RejectText(v, item))] else [PostAckReject(RejectText(v, item))]
    case Resting => []
  }

  function PlanAbsent(v: Venue, o: Order, now: int, ambiguous: bool): seq<Action> {
    if o.status.PendingNew? then
      if ambiguous then []
      else if now - o.createdAt > ACK_LOST_TIMEOUT then [Reject("ack_lost_unmatched")]
      else []
    else if o.status.PendingCancel? && AbsenceIsInformative(v, o, now) then [CancelConfirm]
    else []
  }

  /** The fill that brings the durable sum up to the venue counter, when it has a price. */
  function PlanFill(v: Venue, o: Order, filled: int, item: VenueItem): seq<Action> {
    var price := FillPriceFor(v, o, item);
    if item.matched - filled > 0 && price.Some? then
      [DoFill(Fill(FillId(item.orderNo, item.matched), price.value, item.matched - filled), o.quantity)]
    else []
  }

  function PlanPresent(v: Venue, o: Order, filled: int, item: VenueItem): seq<Action> {
    if o.status.PendingNew? && item.state.VenueRejected? then TerminalActions(v, o, item)
    else if o.status.PendingCancel? then
      if item.state.VenueCancelled? || item.state.VenueExpired? then [CancelConfirm] else []
    else
      (if o.status.PendingNew? then [DoAck(item.orderNo)] else [])
      + PlanFill(v, o, filled, item)
      + (if item.matched < o.quantity then TerminalActions(v, o, item) else [])
  }

  function PlanActions(
    v: Venue, o: Order, filled: int, item: Option<VenueItem>, now: int, ambiguous: bool
  ): seq<Action> {
    match item
    case None => PlanAbsent(v, o, now, ambiguous)
    case Some(i) => PlanPresent(v, o, filled, i)
  }

  // ---------------------------------------------------------------- execution

  function Execute(o: Order, a: Action): Effect {
    match a
    case DoAck(h) => Try(o, Ack(h))
    case DoFill(f, total) => Try(o, RecordFill(f, total))
    case CancelTwoStep => Then(Try(o, Status(PendingCancel)), Status(Cancelled))
    case CancelConfirm => Try(o, Status(Cancelled))
    case Expire => Try(o, Status(Expired))
    case Reject(why) => Then(Try(o, Status(Rejected)), Reason(why))
    case PostAckReject(why) => Then(Then(Try(o, Reason(why)), Status(PendingCancel)), Status(Cancelled))
  }

  /** A plan executed action by action; a raising action is logged and the next one still runs. */
  datatype Outcome = Outcome(order: Order, applied: nat)

  function ExecuteAll(o: Order, plan: seq<Action>): Outcome {
    if plan == [] then Outcome(o, 0)
    else
      var before := ExecuteAll(o, plan[..|plan| - 1]);
      var e := Execute(before.order, plan[|plan| - 1]);
      Outcome(e.order, if e.raised then before.applied else before.applied + 1)
  }

  predicate InWorkingSet(o: Order) {
    o.status.PendingNew? || o.status.New? || o.status.PartiallyFilled? || o.status.PendingCancel?
  }

  function PlanFor(
    v: Venue, o: Order, items: seq<VenueItem>, claimed: set<string>, now: int, requireStuck: bool
  ): seq<Action> {
    var r := Resolve(o, items, claimed, now, requireStuck);
    PlanActions(v, o, Total(o.fills), r.item, now, r.ambiguous)
  }

  /** One row against one snapshot: read the fills, plan, execute. */
  function RowStep(
    v: Venue, o: Order, items: seq<VenueItem>, claimed: set<string>, now: int, requireStuck: bool
  ): Outcome {
    ExecuteAll(o, PlanFor(v, o, items, claimed, now, requireStuck))
  }

  // ---------------------------------------------------------------- facts about matching

  lemma {:induction false} CandidatesSound(o: Order, items: seq<VenueItem>, claimed: set<string>)
    ensures forall c :: c in Candidates(o, items, claimed) <==> c in items && IsCandidate(o, c, claimed)
  {
    if items != [] {
      CandidatesSound(o, items[..|items| - 1], claimed);
      assert items == items[..|items| - 1] + [items[|items| - 1]];
    }
  }

  lemma {:induction false} LookupSound(items: seq<VenueItem>, orderNo: string)
    ensures var r := Lookup(items, orderNo);
            if r.Some? then r.value in items && r.value.orderNo == orderNo
            else forall i :: i in items ==> i.orderNo != orderNo
  {
    if items != [] {
      LookupSound(items[..|items| - 1], orderNo);
      assert items == items[..|items| - 1] + [items[|items| - 1]];
    }
  }

  lemma ResolveSound(o: Order, items: seq<VenueItem>, claimed: set<string>, now: int, requireStuck: bool)
    ensures var r := Resolve(o, items, claimed, now, requireStuck).item;
            r.Some? ==> r.value in items
                        && (if TriesFuzzy(o, items, now, requireStuck) then IsCandidate(o, r.value, claimed)
                            else o.handle == Some(r.value.orderNo))
  {
    CandidatesSound(o, items, claimed);
    if Bound(o, items).Some? {
      LookupSound(items, o.handle.value);
    }
  }

  /** A listed handle settles the matter: that row is the order's, nothing is matched and nothing claimed. */
  lemma HandleComesFirst(o: Order, items: seq<VenueItem>, claimed: set<string>, now: int, requireStuck: bool)
    requires o.handle.Some? && o.handle.value != "" && Lookup(items, o.handle.value).Some?
    ensures Resolve(o, items, claimed, now, requireStuck) == Resolution(Lookup(items, o.handle.value), false)
    ensures ClaimedAfter(o, items, claimed, now, requireStuck) == claimed
  {
  }

  // ---------------------------------------------------------------- facts about prices

  /** Rounding lands on a six-decimal value, the nearest one, and on an even one in a tie. */
  lemma QuantizeNearest(x: real) returns (n: int)
    ensures Quantize(x) == n as real / 1000000.0
    ensures -0.0000005 <= Quantize(x) - x <= 0.0000005
    ensures Quantize(x) - x == 0.0000005 || Quantize(x) - x == -0.0000005 ==> n % 2 == 0
  {
    var scaled := x * 1000000.0;
    var low := scaled.Floor;
    var rest := scaled - low as real;
    n := if rest < 0.5 || (rest == 0.5 && low % 2 == 0) then low else low + 1;
  }

  /** Where a fill's price comes from: the venue row if it has one, then its average, then the order's own columns. */
  lemma FillPriceOrder(v: Venue, o: Order, item: VenueItem)
    ensures item.price.Some? && item.price.value > 0.0 ==> FillPriceFor(v, o, item) == item.price
    ensures item.price.None? || item.price.value <= 0.0 ==>
              FillPriceFor(v, o, item) ==
              if v.LiberatorVenue? && item.amount.Some? && item.amount.value > 0.0 && item.matched > 0
              then Some(Quantize(item.amount.value / item.matched as real))
              else if o.price.Some? then o.price else o.request.stopPrice
  {
  }

  ghost predicate Near(x: real, y: real, d: real) {
    y - d <= x <= y + d
  }

  lemma ScaledNear(x: real, y: real, d: real, m: real)
    requires Near(x, y, d) && m > 0.0
    ensures Near(x * m, y * m, d * m)
  {
    var above, below := x - y + d, y + d - x;
    assert above * m >= 0.0 && below * m >= 0.0;
    assert above * m == x * m - y * m + d * m;
    assert below * m == y * m + d * m - x * m;
  }

  /** Priced at the cumulative average, the fill of everything matched is worth the venue's amount up to rounding. */
  lemma AverageKeepsNotional(o: Order, item: VenueItem)
    requires !HasPrice(item.price) && HasPrice(item.amount) && item.matched > 0
    ensures var price, m := FillPriceFor(LiberatorVenue, o, item), item.matched as real;
            price.Some? && Near(price.value * m, item.amount.value, 0.0000005 * m)
  {
    hide Quantize;
    var m := item.matched as real;
    var price := Quantize(item.amount.value / m);
    assert FillPriceFor(LiberatorVenue, o, item) == Some(price);
    RoundedAverage(item.amount.value, m);
  }

  lemma RoundedAverage(amount: real, m: real)
    requires m > 0.0
    ensures Near(Quantize(amount / m) * m, amount, 0.0000005 * m)
  {
    hide Quantize;
    var average := amount / m;
    var _ := QuantizeNearest(average);
    assert Near(Quantize(average), average, 0.0000005);
    hide Near;
    ScaledNear(Quantize(average), average, 0.0000005, m);
    assert average * m == amount;
  }
}
