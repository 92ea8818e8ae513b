/**
  What a row step answers, case by case, in terms of the snapshot and the clock alone: which venue
  row is found for an order, and where the order ends when one is, or is not.
 */
module Outcomes {
  import opened StateMachine
  import opened Common
  import opened Sequences
  import opened Orders
  import opened Lifecycle
  import opened Reconcile
  import opened PlanSoundness
  import opened FillConservation
  import opened Passes
  import opened Claims
  import opened Reconcilers
  import opened Runs
  import opened AccountPasses
  import Boundaries

  // ---------------------------------------------------------------- which venue row is found

  predicate Positive(p: Option<real>) {
    p.Some? && p.value > 0.0
  }

  /** Symbol, volume and side agree, entered within five seconds of the order, and no two prices differ. */
  predicate Agrees(o: Order, i: VenueItem) {
    && i.symbol == o.request.symbol && i.volume == o.quantity && i.side == Some(o.request.side)
    && i.entryTime.Some? && o.createdAt - 5_000_000 <= i.entryTime.value <= o.createdAt + 5_000_000
    && (Positive(i.price) && Positive(o.price) ==> i.price.value == o.price.value)
  }

  /** The k-th row of the snapshot could be this unacknowledged order. */
  predicate Possible(o: Order, p: Poll, k: int) {
    0 <= k < |p.items| && p.items[k].orderNo !in p.claimed && Agrees(o, p.items[k])
  }

  ghost predicate OnlyPossible(o: Order, p: Poll, k: int) {
    Possible(o, p, k) && forall j :: Possible(o, p, j) ==> j == k
  }

  /** Sent more than five seconds ago, or read without that gate. */
  predicate Due(o: Order, p: Poll) {
    !p.requireStuck || p.now > o.createdAt + 5_000_000
  }

  /** The k-th row is the last one under the number. */
  ghost predicate LastUnder(items: seq<VenueItem>, no: string, k: int) {
    0 <= k < |items| && items[k].orderNo == no && forall j :: k < j < |items| ==> items[j].orderNo != no
  }

  /** The order's venue row: the last one under its handle, or the only one it could be. */
  ghost predicate Found(o: Order, p: Poll, i: VenueItem) {
    if o.status.PendingNew? then
      Due(o, p) && exists k :: OnlyPossible(o, p, k) && p.items[k] == i
    else
      && o.handle == Some(i.orderNo) && i.orderNo != ""
      && exists k :: LastUnder(p.items, i.orderNo, k) && p.items[k] == i
  }

  ghost predicate NotFound(o: Order, p: Poll) {
    forall i :: !Found(o, p, i)
  }

  /** More than one row of the snapshot could be the order. */
  ghost predicate Several(o: Order, p: Poll) {
    exists j, k :: Possible(o, p, j) && Possible(o, p, k) && j < k
  }

  lemma AgreesIsCandidate(o: Order, i: VenueItem, claimed: set<string>)
    ensures IsCandidate(o, i, claimed) <==> i.orderNo !in claimed && Agrees(o, i)
  {
  }

  ghost function PossibleBelow(o: Order, p: Poll, n: nat): set<int> {
    set k: int | 0 <= k < n && Possible(o, p, k)
  }

  lemma {:induction false} CandidatesCount(o: Order, p: Poll, n: nat)
    requires n <= |p.items|
    ensures |Candidates(o, p.items[..n], p.claimed)| == |PossibleBelow(o, p, n)|
  {
    hide IsCandidate, Agrees;
    if n > 0 {
      CandidatesCount(o, p, n - 1);
      assert p.items[..n][..n - 1] == p.items[..n - 1];
      AgreesIsCandidate(o, p.items[n - 1], p.claimed);
      var before := PossibleBelow(o, p, n - 1);
      if Possible(o, p, n - 1) {
        assert PossibleBelow(o, p, n) == before + {n - 1};
      } else {
        assert PossibleBelow(o, p, n) == before;
      }
    } else {
      assert PossibleBelow(o, p, 0) == {};
    }
  }

  /** None, one or several rows are possible, as the size of the set says. */
  lemma CountPossible(o: Order, p: Poll)
    ensures var all := PossibleBelow(o, p, |p.items|);
            && (|all| == 0 <==> forall k :: !Possible(o, p, k))
            && (|all| == 1 <==> exists k :: OnlyPossible(o, p, k))
            && (|all| > 1 <==> Several(o, p))
  {
    var all := PossibleBelow(o, p, |p.items|);
    PossibleInRange(o, p);
    hide Possible, PossibleBelow;
    if |all| == 0 {
      assert all == {};
    } else if |all| == 1 {
      assert all != {};
      var k :| k in all;
      OnlyOne(all, k);
      assert OnlyPossible(o, p, k);
    } else {
      var j, k := TwoOf(all);
      assert Possible(o, p, j) && Possible(o, p, k);
    }
    if Several(o, p) {
      var j, k :| Possible(o, p, j) && Possible(o, p, k) && j < k;
      Atleast(all, j, k);
    }
  }

  /** The matcher finds a row exactly when it is the only one possible, and is ambiguous exactly when several are. */
  lemma MatchIsUnique(o: Order, p: Poll)
    ensures var m := FuzzyMatch(o, p.items, p.claimed);
            && (m.Ambiguous() <==> Several(o, p))
            && (m.item.None? <==> forall k :: !OnlyPossible(o, p, k))
            && (forall k :: OnlyPossible(o, p, k) ==> m.item == Some(p.items[k]))
  {
    var n := |p.items|;
    assert p.items[..n] == p.items;
    CandidatesCount(o, p, n);
    CountPossible(o, p);
    CandidatesSound(o, p.items, p.claimed);
    hide Candidates, PossibleBelow, Several, Agrees, IsCandidate;
    forall k | OnlyPossible(o, p, k) ensures FuzzyMatch(o, p.items, p.claimed).item == Some(p.items[k]) {
      AgreesIsCandidate(o, p.items[k], p.claimed);
      assert p.items[k] in Candidates(o, p.items, p.claimed);
    }
  }

  lemma PossibleInRange(o: Order, p: Poll)
    ensures forall k :: Possible(o, p, k) <==> k in PossibleBelow(o, p, |p.items|)
  {
  }

  lemma OnlyOne(s: set<int>, k: int)
    requires |s| == 1 && k in s
    ensures s == {k}
  {
    assert |s - {k}| == 0;
  }

  lemma Atleast(s: set<int>, j: int, k: int)
    requires j in s && k in s && j != k
    ensures |s| >= 2
  {
    assert |s - {j}| == |s| - 1 && k in s - {j};
  }

  lemma AnyOf(s: set<int>) returns (k: int)
    requires |s| > 0
    ensures k in s
  {
    assert (forall x :: x !in s) ==> s == {};
    k :| k in s;
  }

  lemma TwoOf(s: set<int>) returns (j: int, k: int)
    requires |s| > 1
    ensures j in s && k in s && j < k
  {
    var a := AnyOf(s);
    var b := AnyOf(s - {a});
    j, k := if a < b then a else b, if a < b then b else a;
  }

  lemma {:induction false} LookupIsLast(items: seq<VenueItem>, no: string, i: VenueItem)
    ensures Lookup(items, no) == Some(i) <==>
            exists k :: LastUnder(items, no, k) && items[k] == i
  {
    if items != [] {
      var init, last := items[..|items| - 1], items[|items| - 1];
      LookupIsLast(init, no, i);
      if last.orderNo == no {
        assert LastUnder(items, no, |items| - 1);
      } else {
        assert forall k :: LastUnder(items, no, k) <==> LastUnder(init, no, k);
      }
    }
  }

  lemma FoundIsResolved(o: Order, p: Poll, i: VenueItem)
    requires HandleMatchesStatus(o) && InWorkingSet(o)
    ensures Resolve(o, p.items, p.claimed, p.now, p.requireStuck).item == Some(i) <==> Found(o, p, i)
  {
    hide Agrees, Candidates;
    if o.status.PendingNew? {
      hide Lookup;
      MatchIsUnique(o, p);
    } else if o.handle.value != "" {
      LookupIsLast(p.items, o.handle.value, i);
      hide Lookup;
    }
  }

  /**
    Nothing found: nothing resolved, and the match was ambiguous exactly when several rows were
    possible and it was tried.
   */
  lemma NotFoundIsUnresolved(o: Order, p: Poll)
    requires HandleMatchesStatus(o) && InWorkingSet(o) && NotFound(o, p)
    ensures var r := Resolve(o, p.items, p.claimed, p.now, p.requireStuck);
            r.item == None && r.ambiguous == (o.status.PendingNew? && Due(o, p) && Several(o, p))
  {
    hide Found, Possible, Candidates, Lookup, Several;
    var r := Resolve(o, p.items, p.claimed, p.now, p.requireStuck);
    if r.item.Some? {
      FoundIsResolved(o, p, r.item.value);
      assert false;
    }
    MatchIsUnique(o, p);
  }

  // ---------------------------------------------------------------- where the order ends

  /** The Bangkok calendar day, seven hours ahead of UTC. */
  function BangkokDay(ts: int): int {
    (ts + 25_200_000_000) / 86_400_000_000
  }

  /** The day changes at five in the afternoon, UTC. */
  lemma BangkokMidnight(day: int, ts: int)
    ensures BangkokDay(ts) == day <==>
            day * 86_400_000_000 - 25_200_000_000 <= ts < (day + 1) * 86_400_000_000 - 25_200_000_000
  {
  }

  /** No venue row: a lost acknowledgement is given up after a minute, a pending cancel confirmed if absence tells. */
  ghost predicate AbsentAnswer(v: Venue, o: Order, p: Poll, later: Order) {
    if o.status.PendingNew? && !Several(o, p) && p.now > o.createdAt + 60_000_000 then
      Moved(o, later, Rejected, Some("ack_lost_unmatched"))
    else if o.status.PendingCancel? && (v.StreamingProVenue? || BangkokDay(o.createdAt) == BangkokDay(p.now)) then
      Moved(o, later, Cancelled, o.reason)
    else later == o
  }

  /** How a venue rejection is recorded. */
  function RejectReason(v: Venue, i: VenueItem): string {
    if v.LiberatorVenue? then (if i.note == "" then "liberator reject" else "liberator reject " + i.note)
    else (if i.note == "" then "streaming_pro reject" else "streaming_pro reject " + i.note)
  }

  lemma RejectReasonIs(v: Venue, i: VenueItem)
    ensures RejectText(v, i) == RejectReason(v, i)
  {
    assert "liberator reject" + (" " + i.note) == "liberator reject " + i.note;
    assert "streaming_pro reject" + (" " + i.note) == "streaming_pro reject " + i.note;
    assert "liberator reject" + "" == "liberator reject" && "streaming_pro reject" + "" == "streaming_pro reject";
  }

  /** The fill that brings the recorded sum to the venue's counter, if there is more and it has a price. */
  ghost predicate FillAnswer(v: Venue, o: Order, i: VenueItem, later: Order) {
    var sum, price := Total(o.fills), FillPriceFor(v, o, i);
    later.fills ==
    if i.matched > sum && price.Some? then o.fills + [Fill(FillId(i.orderNo, i.matched), price.value, i.matched - sum)]
    else o.fills
  }

  /** The venue row closes the order: not fully matched, and no longer resting. */
  predicate ClosesOrder(o: Order, i: VenueItem) {
    i.matched < o.quantity && !i.state.Resting?
  }

  ghost predicate LiveAnswer(v: Venue, o: Order, i: VenueItem, later: Order) {
    && later.handle == Some(i.orderNo) && FillAnswer(v, o, i, later)
    && later.price == o.price && later.quantity == o.quantity
    && later.reason == (if ClosesOrder(o, i) && i.state.VenueRejected? then Some(RejectReason(v, i)) else o.reason)
    && later.status == if ClosesOrder(o, i) then (if i.state.VenueExpired? then Expired else Cancelled)
                       else if Total(later.fills) >= o.quantity then Filled
                       else if later.fills == [] then New else PartiallyFilled
  }

  /** A venue row: a pending cancel waits for it to close; else acknowledge, record, and follow it. */
  ghost predicate FoundAnswer(v: Venue, o: Order, i: VenueItem, later: Order) {
    if o.status.PendingCancel? then
      if i.state.VenueCancelled? || i.state.VenueExpired? then Moved(o, later, Cancelled, o.reason) else later == o
    else if o.status.PendingNew? && i.state.VenueRejected? then Moved(o, later, Rejected, Some(RejectReason(v, i)))
    else LiveAnswer(v, o, i, later)
  }

  lemma ExecuteReason(o: Order, a: Action)
    ensures !a.Reject? && !a.PostAckReject? ==> Execute(o, a).order.reason == o.reason
    ensures a.PostAckReject? ==> Execute(o, a).order.reason == Some(a.reason)
    ensures a.Reject? && o.status.PendingNew? ==> Execute(o, a).order.reason == Some(a.reason)
  {
  }

  lemma {:induction false} QuietPlan(o: Order, plan: seq<Action>)
    requires forall a :: a in plan ==> !a.Reject? && !a.PostAckReject?
    ensures ExecuteAll(o, plan).order.reason == o.reason
  {
    hide Execute;
    if plan != [] {
      QuietPlan(o, plan[..|plan| - 1]);
      ExecuteReason(ExecuteAll(o, plan[..|plan| - 1]).order, plan[|plan| - 1]);
    }
  }

  lemma HeadIsQuiet(v: Venue, o: Order, i: VenueItem, a: Action)
    requires a in AckPart(o, i) + PlanFill(v, o, Total(o.fills), i)
    ensures !a.Reject? && !a.PostAckReject?
  {
    hide FillPriceFor, FillId, Total;
  }

  lemma TailCloses(v: Venue, o: Order, i: VenueItem)
    requires Fillable(o, i)
    ensures var tail := ClosePart(v, o, i);
            && |tail| <= 1 && (tail != [] <==> ClosesOrder(o, i))
            && (tail != [] ==> !tail[0].Reject? && (tail[0].PostAckReject? <==> i.state.VenueRejected?))
            && (tail != [] && i.state.VenueRejected? ==> tail[0].reason == RejectReason(v, i))
  {
    hide RejectText, RejectReason;
    RejectReasonIs(v, i);
  }

  lemma PlanParts(v: Venue, o: Order, i: VenueItem)
    requires Fillable(o, i)
    ensures PlanPresent(v, o, Total(o.fills), i) ==
            AckPart(o, i) + PlanFill(v, o, Total(o.fills), i) + ClosePart(v, o, i)
  {
    hide PlanFill, TerminalActions, Total;
  }

  /** Only the closing of a rejected order writes a reason. */
  lemma PlanReason(v: Venue, o: Order, i: VenueItem)
    requires Fillable(o, i)
    ensures ExecuteAll(o, PlanPresent(v, o, Total(o.fills), i)).order.reason ==
            if ClosesOrder(o, i) && i.state.VenueRejected? then Some(RejectReason(v, i)) else o.reason
  {
    hide Execute, ExecuteAll, Total, PlanPresent, RejectReason, AckPart, PlanFill, ClosePart, Fillable, ClosesOrder;
    var head, tail := AckPart(o, i) + PlanFill(v, o, Total(o.fills), i), ClosePart(v, o, i);
    PlanParts(v, o, i);
    TailCloses(v, o, i);
    ExecuteConcat(o, head, tail);
    forall a | a in head ensures !a.Reject? && !a.PostAckReject? { HeadIsQuiet(v, o, i, a); }
    QuietPlan(o, head);
    var mid := ExecuteAll(o, head).order;
    if tail == [] {
      NoPlan(mid);
    } else {
      assert tail == [tail[0]];
      ExecuteOne(mid, tail[0]);
      ExecuteReason(mid, tail[0]);
    }
  }

  lemma CounterIsFill(v: Venue, o: Order, i: VenueItem, later: Order)
    requires CounterStep(v, o, Some(i), later) && Fillable(o, i) && later.handle == Some(i.orderNo)
    ensures FillAnswer(v, o, i, later)
  {
    hide FillPriceFor, FillId, Total;
    if i.matched > Total(o.fills) && FillPriceFor(v, o, i).Some? {
      assert later.fills == o.fills + [later.fills[|o.fills|]];
    }
  }

  lemma LiveColumns(v: Venue, o: Order, i: VenueItem)
    requires Settled(o) && Fillable(o, i) && (o.handle.Some? ==> o.handle == Some(i.orderNo))
    ensures var later := ExecuteAll(o, PlanPresent(v, o, Total(o.fills), i)).order;
            && later.handle == Some(i.orderNo) && later.price == o.price && later.quantity == o.quantity
            && later.status == if ClosesOrder(o, i) then (if i.state.VenueExpired? then Expired else Cancelled)
                               else if Total(later.fills) >= o.quantity then Filled
                               else if later.fills == [] then New else PartiallyFilled
  {
    SettledBasics(o);
    hide Settled, Extends, ExecuteAll, PlanPresent, Total;
    PresentOutcome(v, o, i);
    if !ClosesOrder(o, i) {
      SettledStatus(ExecuteAll(o, PlanPresent(v, o, Total(o.fills), i)).order);
    }
  }

  lemma LiveStep(v: Venue, o: Order, i: VenueItem)
    requires Settled(o) && Fillable(o, i) && CounterFresh(o) && (o.handle.Some? ==> o.handle == Some(i.orderNo))
    ensures LiveAnswer(v, o, i, ExecuteAll(o, PlanPresent(v, o, Total(o.fills), i)).order)
  {
    hide Settled, ExecuteAll, PlanPresent, CounterFresh, CounterStep, FillAnswer, Total, RejectReason;
    hide Fillable, ClosesOrder;
    LiveColumns(v, o, i);
    PresentCounter(v, o, i);
    CounterIsFill(v, o, i, ExecuteAll(o, PlanPresent(v, o, Total(o.fills), i)).order);
    PlanReason(v, o, i);
  }

  lemma SettledStatus(o: Order)
    requires Settled(o) && (o.status.New? || o.status.PartiallyFilled? || o.status.Filled?)
    ensures o.status == if Total(o.fills) >= o.quantity then Filled else if o.fills == [] then New else PartiallyFilled
  {
  }

  lemma OneMove(o: Order, a: Action)
    requires (a.CancelConfirm? && o.status.PendingCancel?) || (a.Reject? && o.status.PendingNew?)
    ensures var later := ExecuteAll(o, [a]).order;
            if a.CancelConfirm? then Moved(o, later, Cancelled, o.reason) else Moved(o, later, Rejected, Some(a.reason))
  {
    hide ExecuteAll;
    ExecuteOne(o, a);
  }

  lemma DayIs(v: Venue, o: Order, now: int)
    ensures AbsenceIsInformative(v, o, now) <==> v.StreamingProVenue? || BangkokDay(o.createdAt) == BangkokDay(now)
  {
  }

  lemma UnfoundStep(v: Venue, o: Order, now: int, ambiguous: bool)
    requires Settled(o) && InWorkingSet(o)
    ensures var later := ExecuteAll(o, PlanActions(v, o, Total(o.fills), None, now, ambiguous)).order;
            if o.status.PendingNew? && !ambiguous && now > o.createdAt + 60_000_000 then
              Moved(o, later, Rejected, Some("ack_lost_unmatched"))
            else if o.status.PendingCancel? && (v.StreamingProVenue? || BangkokDay(o.createdAt) == BangkokDay(now)) then
              Moved(o, later, Cancelled, o.reason)
            else later == o
  {
    hide Settled, ExecuteAll, Total, Moved, AbsenceIsInformative, BangkokDay;
    DayIs(v, o, now);
    NoPlan(o);
    var plan := PlanActions(v, o, Total(o.fills), None, now, ambiguous);
    if plan != [] {
      assert plan == [plan[0]];
      OneMove(o, plan[0]);
    }
  }

  lemma UnfilledStep(v: Venue, o: Order, i: VenueItem)
    requires Settled(o) && InWorkingSet(o) && !Fillable(o, i)
    ensures FoundAnswer(v, o, i, ExecuteAll(o, PlanPresent(v, o, Total(o.fills), i)).order)
  {
    hide Settled, ExecuteAll, Total, Moved, RejectText, RejectReason, PlanFill, LiveAnswer;
    RejectReasonIs(v, i);
    NoPlan(o);
    var plan := PlanPresent(v, o, Total(o.fills), i);
    if plan != [] {
      assert plan == [plan[0]];
      OneMove(o, plan[0]);
    }
  }

  lemma AbsentStep(v: Venue, o: Order, p: Poll)
    requires Settled(o) && InWorkingSet(o) && NotFound(o, p)
    ensures AbsentAnswer(v, o, p, Step(v, o, p))
  {
    SettledBasics(o);
    NotFoundIsUnresolved(o, p);
    var r := Resolve(o, p.items, p.claimed, p.now, p.requireStuck);
    hide Settled, NotFound, ExecuteAll, PlanActions, Several, Total, BangkokDay, Resolve;
    UnfoundStep(v, o, p.now, r.ambiguous);
  }

  /**
    The row step answered in full: where the order ends for every snapshot, clock, claimed set
    and gate, said without the plan that takes it there.
   */
  lemma StepOutcome(v: Venue, o: Order, p: Poll)
    requires Settled(o) && InWorkingSet(o) && CounterFresh(o)
    ensures forall i :: Found(o, p, i) ==> FoundAnswer(v, o, i, Step(v, o, p))
    ensures NotFound(o, p) ==> AbsentAnswer(v, o, p, Step(v, o, p))
  {
    SettledBasics(o);
    hide Settled, Found, FoundAnswer, Step, Resolve, CounterFresh, AbsentAnswer;
    forall i | Found(o, p, i) ensures FoundAnswer(v, o, i, Step(v, o, p)) {
      FoundIsResolved(o, p, i);
      FoundStep(v, o, p, i);
    }
    if NotFound(o, p) {
      AbsentStep(v, o, p);
    }
  }

  lemma FoundStep(v: Venue, o: Order, p: Poll, i: VenueItem)
    requires Settled(o) && InWorkingSet(o) && CounterFresh(o)
    requires Resolve(o, p.items, p.claimed, p.now, p.requireStuck).item == Some(i)
    ensures FoundAnswer(v, o, i, Step(v, o, p))
  {
    var r := Resolve(o, p.items, p.claimed, p.now, p.requireStuck);
    SettledBasics(o);
    ResolveSound(o, p.items, p.claimed, p.now, p.requireStuck);
    hide Settled, ExecuteAll, PlanPresent, CounterFresh, LiveAnswer, Resolve, Moved;
    if Fillable(o, i) {
      LiveStep(v, o, i);
    } else {
      UnfilledStep(v, o, i);
    }
  }

  // ---------------------------------------------------------------- what follows for an order

  lemma NoneIsNotFound(o: Order, p: Poll)
    requires o.status.PendingNew? && forall k :: !Possible(o, p, k)
    ensures NotFound(o, p) && !Several(o, p)
  {
    hide Possible;
  }

  /** A lost acknowledgement is rejected after a minute without a possible row, and waits until then. */
  lemma LostAckIsRejected(v: Venue, o: Order, p: Poll)
    requires Settled(o) && o.status.PendingNew? && forall k :: !Possible(o, p, k)
    ensures if p.now > o.createdAt + 60_000_000 then Moved(o, Step(v, o, p), Rejected, Some("ack_lost_unmatched"))
            else Step(v, o, p) == o
  {
    hide Settled, Step, Possible, Moved;
    NoneIsNotFound(o, p);
    AbsentStep(v, o, p);
  }

  /** While several rows are possible the order stays as it is, however long. */
  lemma AmbiguousStays(v: Venue, o: Order, p: Poll)
    requires Settled(o) && o.status.PendingNew? && Several(o, p)
    ensures Step(v, o, p) == o
  {
    hide Settled, Step, Possible, Moved;
    assert NotFound(o, p);
    AbsentStep(v, o, p);
  }

  /** Within five seconds of being sent, a gated step leaves an unacknowledged order alone. */
  lemma GatedStepWaits(v: Venue, o: Order, p: Poll)
    requires Settled(o) && o.status.PendingNew? && p.requireStuck && p.now <= o.createdAt + 5_000_000
    ensures Step(v, o, p) == o
  {
    hide Settled, Step, Moved;
    assert NotFound(o, p);
    AbsentStep(v, o, p);
  }

  /** A pending cancel that the book does not show is confirmed exactly when absence tells. */
  lemma AbsentCancel(v: Venue, o: Order, p: Poll)
    requires Settled(o) && o.status.PendingCancel?
    requires forall k :: 0 <= k < |p.items| ==> o.handle != Some(p.items[k].orderNo)
    ensures if v.StreamingProVenue? || BangkokDay(o.createdAt) == BangkokDay(p.now)
            then Moved(o, Step(v, o, p), Cancelled, o.reason) else Step(v, o, p) == o
  {
    hide Settled, Step, Moved, BangkokDay;
    assert NotFound(o, p);
    AbsentStep(v, o, p);
  }

  /** The only possible row is taken: the order ends under its number, or REJECTED if the venue rejected it. */
  lemma OnlyRowIsTaken(v: Venue, o: Order, p: Poll, k: int)
    requires Settled(o) && o.status.PendingNew? && Due(o, p) && OnlyPossible(o, p, k)
    ensures if p.items[k].state.VenueRejected?
            then Moved(o, Step(v, o, p), Rejected, Some(RejectReason(v, p.items[k])))
            else LiveAnswer(v, o, p.items[k], Step(v, o, p)) && Step(v, o, p).handle == Some(p.items[k].orderNo)
  {
    SettledBasics(o);
    hide Settled, Step, Moved, FillAnswer, RejectReason;
    NoFillsIsFresh(o);
    assert Found(o, p, p.items[k]);
    StepOutcome(v, o, p);
  }

  // ---------------------------------------------------------------- a single resolution, a pass

  /** Resolved means that the order has its handle or has ended. */
  lemma ResolvedIs(o: Order)
    ensures Reconciler.IsResolved(o) <==>
            || o.handle.Some?
            || o.status == Filled || o.status == Cancelled || o.status == Rejected || o.status == Expired
  {
  }

  /**
    The read right after a placement works at any age: with exactly one possible row the order gets
    its number, or is rejected, and the resolution answers that it is resolved.
   */
  lemma ResolutionFinds(
    store: Store, v: Venue, cid: string, rows: seq<string>, read: GroupKey -> Option<seq<VenueItem>>, now: int, k: int
  )
    requires Sound(store) && cid in store && store[cid].status.PendingNew? && read(KeyOf(v, store[cid])).Some?
    requires var items := read(KeyOf(v, store[cid])).value;
             OnlyPossible(store[cid], Poll(items, OthersHandles(v, store, rows, cid), now, false), k)
    ensures var i, later := read(KeyOf(v, store[cid])).value[k], ApplyOp(store, OpResolveNow(v, cid, rows, read, now));
            && cid in later && Reconciler.IsResolved(later[cid])
            && if i.state.VenueRejected? then later[cid].status == Rejected else later[cid].handle == Some(i.orderNo)
  {
    hide Sound, Settled, RowStep, OthersHandles, OnlyPossible, LiveAnswer, RejectReason, InWorkingSet;
    SoundAt(store, cid);
    SettledBasics(store[cid]);
    var p := Poll(read(KeyOf(v, store[cid])).value, OthersHandles(v, store, rows, cid), now, false);
    Boundaries.UnresolvedIsWorking(store[cid]);
    OnlyRowIsTaken(v, store[cid], p, k);
  }

  /** What a single resolution does: nothing to a resolved order or an unread book, else the answer of its account. */
  lemma ResolutionOutcome(
    store: Store, v: Venue, cid: string, rows: seq<string>, read: GroupKey -> Option<seq<VenueItem>>, now: int
  )
    requires Sound(store)
    ensures var later := ApplyOp(store, OpResolveNow(v, cid, rows, read, now));
            if cid !in store || store[cid].handle.Some? || store[cid].status != PendingNew then later == store
            else if read(KeyOf(v, store[cid])).None? then later == store
            else
              var p := Poll(read(KeyOf(v, store[cid])).value, OthersHandles(v, store, rows, cid), now, false);
              && cid in later && later == store[cid := later[cid]]
              && (forall i :: Found(store[cid], p, i) ==> FoundAnswer(v, store[cid], i, later[cid]))
              && (NotFound(store[cid], p) ==> AbsentAnswer(v, store[cid], p, later[cid]))
  {
    hide Sound, Settled, RowStep, OthersHandles, Found, FoundAnswer, AbsentAnswer, InWorkingSet;
    if cid in store {
      SoundAt(store, cid);
      SettledBasics(store[cid]);
      PendingUnlessResolved(store[cid]);
      if !Reconciler.IsResolved(store[cid]) && read(KeyOf(v, store[cid])).Some? {
        NoFillsIsFresh(store[cid]);
        Boundaries.UnresolvedIsWorking(store[cid]);
        var items := read(KeyOf(v, store[cid])).value;
        StepOutcome(v, store[cid], Poll(items, OthersHandles(v, store, rows, cid), now, false));
      }
    }
  }

  lemma PendingUnlessResolved(o: Order)
    requires HandleMatchesStatus(o)
    ensures Reconciler.IsResolved(o) <==> o.handle.Some? || o.status != PendingNew
  {
  }

  /** Every row of a pass is answered, on its account's snapshot and what was claimed by then. */
  lemma PassOutcome(
    store: Store, v: Venue, rows: seq<string>, read: GroupKey -> Option<seq<VenueItem>>, now: int, c: string
  )
    returns (claimed: set<string>)
    requires Sound(store) && Enabled(store, OpReconcile(v, rows, read, now)) && c in rows && CounterFresh(store[c])
    requires read(KeyOf(v, store[c])).Some?
    ensures var later := ApplyOp(store, OpReconcile(v, rows, read, now));
            var p := Poll(read(KeyOf(v, store[c])).value, claimed, now, true);
            && c in later && HeldHandles(store, Peers(v, store, rows, c)) <= claimed
            && (forall i :: Found(store[c], p, i) ==> FoundAnswer(v, store[c], i, later[c]))
            && (NotFound(store[c], p) ==> AbsentAnswer(v, store[c], p, later[c]))
  {
    hide AllSettled, Keyed, ApplyOp, PassRows, InWorkingSet, Peers, HeldHandles, Distinct, Settled, CounterFresh;
    hide Step, Found, FoundAnswer, AbsentAnswer, NotFound;
    ReconcileByAccount(store, v, rows, read, now, c);
    PeersListed(v, store, rows, c);
    SoundAt(store, c);
    var items, peers := read(KeyOf(v, store[c])).value, Peers(v, store, rows, c);
    claimed := PassRowIsStep(v, PassState(store, HeldHandles(store, peers), 0), peers, items, now, c);
    StepOutcome(v, store[c], Poll(items, claimed, now, true));
  }

  /** In a pass: an order no unheld row agrees with is rejected after a minute, and untouched until then. */
  lemma LostAckInPass(
    store: Store, v: Venue, rows: seq<string>, read: GroupKey -> Option<seq<VenueItem>>, now: int, c: string
  )
    requires Sound(store) && Enabled(store, OpReconcile(v, rows, read, now)) && c in rows && store[c].status.PendingNew?
    requires read(KeyOf(v, store[c])).Some?
    requires forall i :: i in read(KeyOf(v, store[c])).value && Agrees(store[c], i) ==>
               i.orderNo in HeldHandles(store, Peers(v, store, rows, c))
    ensures var later := ApplyOp(store, OpReconcile(v, rows, read, now));
            && c in later
            && if now > store[c].createdAt + 60_000_000
               then Moved(store[c], later[c], Rejected, Some("ack_lost_unmatched"))
               else later[c] == store[c]
  {
    SoundAt(store, c);
    SettledBasics(store[c]);
    hide Sound, ApplyOp, InWorkingSet, Peers, HeldHandles, Settled, Agrees, Moved, Enabled, FoundAnswer;
    NoFillsIsFresh(store[c]);
    var claimed := PassOutcome(store, v, rows, read, now, c);
    NoneIsNotFound(store[c], Poll(read(KeyOf(v, store[c])).value, claimed, now, true));
  }
}
