/** A reconcile run enters a terminal state only on evidence. */
module Evidence {
  import opened StateMachine
  import opened Common
  import opened Orders
  import opened Lifecycle
  import opened Reconcile
  import opened PlanSoundness
  import opened FillConservation

  /** The venue row that speaks for an order: the one under its handle, or its only candidate. */
  ghost predicate SpeaksFor(i: VenueItem, o: Order, items: seq<VenueItem>, claimed: set<string>) {
    && i in items
    && if o.status.PendingNew? then
         IsCandidate(o, i, claimed) && forall j :: j in items && IsCandidate(o, j, claimed) ==> j == i
       else o.handle == Some(i.orderNo)
  }

  ghost predicate NoCandidate(o: Order, items: seq<VenueItem>, claimed: set<string>) {
    forall j :: j in items ==> !IsCandidate(o, j, claimed)
  }

  /** No row of the snapshot carries the order's (non-empty) handle. */
  ghost predicate Absent(o: Order, items: seq<VenueItem>) {
    forall j :: j in items && o.handle == Some(j.orderNo) ==> j.orderNo == ""
  }

  /** What justifies moving the order to each terminal state. */
  ghost predicate Justified(v: Venue, o: Order, to: OrderState, p: Poll) {
    match to
    case Rejected =>
      && o.status.PendingNew?
      && ((exists i :: SpeaksFor(i, o, p.items, p.claimed) && i.state.VenueRejected?)
          || (p.now - o.createdAt > ACK_LOST_TIMEOUT && NoCandidate(o, p.items, p.claimed)))
    case Cancelled =>
      || (exists i :: SpeaksFor(i, o, p.items, p.claimed) && !i.state.Resting?)
      || (o.status.PendingCancel? && Absent(o, p.items)
          && (v.LiberatorVenue? ==> VenueDay(o.createdAt) == VenueDay(p.now)))
    case Expired => exists i :: SpeaksFor(i, o, p.items, p.claimed) && i.state.VenueExpired?
    case Filled => exists i :: SpeaksFor(i, o, p.items, p.claimed) && i.matched >= o.quantity
    case _ => false
  }

  lemma {:induction false} SingleCandidate(o: Order, items: seq<VenueItem>, claimed: set<string>)
    requires |Candidates(o, items, claimed)| == 1
    ensures forall j :: j in items && IsCandidate(o, j, claimed) ==> j == Candidates(o, items, claimed)[0]
  {
    CandidatesSound(o, items, claimed);
  }

  /** The row a step resolves to speaks for the order; no row means no candidate, or no such handle. */
  lemma ResolvedSpeaks(o: Order, p: Poll)
    requires HandleMatchesStatus(o) && InWorkingSet(o)
    ensures var r := Resolve(o, p.items, p.claimed, p.now, p.requireStuck);
            && (r.item.Some? ==> SpeaksFor(r.item.value, o, p.items, p.claimed))
            && (r.item.None? && !o.status.PendingNew? ==> Absent(o, p.items))
            && (r.item.None? && o.status.PendingNew? && !r.ambiguous && p.now - o.createdAt > STUCK_PENDING
                ==> NoCandidate(o, p.items, p.claimed))
  {
    CandidatesSound(o, p.items, p.claimed);
    var c := Candidates(o, p.items, p.claimed);
    if o.status.PendingNew? {
      if |c| == 1 {
        SingleCandidate(o, p.items, p.claimed);
        assert c[0] in c;
      }
    } else {
      LookupSound(p.items, o.handle.value);
    }
  }

  lemma StepJustified(v: Venue, o: Order, p: Poll)
    requires Settled(o) && InWorkingSet(o)
    ensures var later := Step(v, o, p); IsTerminal(later.status) ==> Justified(v, o, later.status, p)
  {
    hide Settled, Extends, ExecuteAll, PlanPresent, Resolve, SpeaksFor, NoCandidate, Absent, VenueDay;
    var r := Resolve(o, p.items, p.claimed, p.now, p.requireStuck);
    SettledHandle(o);
    ResolvedSpeaks(o, p);
    if r.item.Some? && Fillable(o, r.item.value) {
      PresentOutcome(v, o, r.item.value);
    } else {
      OtherOutcome(v, o, r.item, p.now, r.ambiguous);
      if r.item.Some? {
        UnfillablePlan(v, o, r.item.value);
      }
    }
  }

  lemma SettledHandle(o: Order)
    requires Settled(o)
    ensures HandleMatchesStatus(o)
  {
  }

  /** A venue row found for a row that cannot take fills acts only on its own terminal. */
  lemma UnfillablePlan(v: Venue, o: Order, i: VenueItem)
    requires InWorkingSet(o) && !Fillable(o, i)
    ensures PlanPresent(v, o, Total(o.fills), i) != [] <==>
            o.status.PendingNew? || i.state.VenueCancelled? || i.state.VenueExpired?
    ensures o.status.PendingNew? ==> i.state.VenueRejected?
    ensures !o.status.PendingNew? ==> o.status.PendingCancel?
  {
  }

  /**
    Over every run: an order that was open and is now terminal was moved there by some step
    whose snapshot justified that very state.
   */
  lemma {:induction false} TerminalOnlyOnEvidence(v: Venue, o: Order, polls: seq<Poll>) returns (k: nat)
    requires Settled(o) && !IsTerminal(o.status) && IsTerminal(Follow(v, o, polls).status)
    ensures k < |polls|
    ensures var mid := Follow(v, o, polls[..k]);
            InWorkingSet(mid) && Justified(v, mid, Follow(v, o, polls).status, polls[k])
  {
    hide Settled, Justified, RowStep, Extends;
    var init := polls[..|polls| - 1];
    var mid := Follow(v, o, init);
    if IsTerminal(mid.status) {
      k := TerminalOnlyOnEvidence(v, o, init);
      assert polls[..k] == init[..k];
    } else {
      k := |polls| - 1;
      FollowSettles(v, o, init);
      StepJustified(v, mid, polls[k]);
    }
  }

  // ---------------------------------------------------------------- fills before terminals

  /** The cases in which a matched quantity the snapshot shows is not recorded before the order closes. */
  predicate DropsMatched(v: Venue, o: Order, i: VenueItem) {
    && i.matched > Total(o.fills)
    && (|| (o.status.PendingNew? && i.state.VenueRejected?)
        || (o.status.PendingCancel? && (i.state.VenueCancelled? || i.state.VenueExpired?))
        || (Fillable(o, i) && FillPriceFor(v, o, i).None? && i.matched < o.quantity && !i.state.Resting?))
  }

  /**
    A step that finds a venue row closes the order with part of the shown matched quantity
    unrecorded exactly in those cases; otherwise every shown quantity is recorded first.
   */
  lemma MatchedRecordedBeforeTerminal(v: Venue, o: Order, p: Poll)
    requires Settled(o) && InWorkingSet(o) && CounterFresh(o)
    requires Resolve(o, p.items, p.claimed, p.now, p.requireStuck).item.Some?
    ensures var i := Resolve(o, p.items, p.claimed, p.now, p.requireStuck).item.value;
            var later := Step(v, o, p);
            IsTerminal(later.status) && Total(later.fills) < i.matched <==> DropsMatched(v, o, i)
  {
    hide Audited, Mirrored, Extends, ExecuteAll, FillPriceFor, FillId, PlanPresent, Resolve, CounterFresh, Total;
    var i := Resolve(o, p.items, p.claimed, p.now, p.requireStuck).item.value;
    RowCounter(v, o, p.items, p.claimed, p.now, p.requireStuck);
    if Fillable(o, i) {
      PresentOutcome(v, o, i);
    } else {
      OtherOutcome(v, o, Some(i), p.now, Resolve(o, p.items, p.claimed, p.now, p.requireStuck).ambiguous);
      UnfillablePlan(v, o, i);
    }
  }

  /**
    A lost fill, with a derivable price and no cancel in flight: the venue matched 4 of 10
    and rejected the rest before the order was acknowledged; the row closes without a fill.
   */
  lemma FillLostOnEarlyRejection() returns (o: Order, i: VenueItem, p: Poll)
    ensures Settled(o) && o.status.PendingNew? && p.items == [i] && i.matched == 4
    ensures Resolve(o, p.items, p.claimed, p.now, p.requireStuck).item == Some(i)
    ensures FillPriceFor(LiberatorVenue, o, i) == Some(1.5)
    ensures Step(LiberatorVenue, o, p).status == Rejected && Total(Step(LiberatorVenue, o, p).fills) == 0
  {
    var r := OrderRequest("c", Liberator, "a", SET, "S", Buy, Some(1.5), None, 10, None, Day, SimControl(None, None));
    o := Inserted(r, 0);
    i := VenueItem("1", "S", Some(Buy), 10, Some(1.5), 4, None, VenueRejected, Some(0), "");
    p := Poll([i], {}, 10 * SECOND, true);
    InsertedIsSettled(r, 0);
    assert Candidates(o, [i], {}) == [i] by {
      assert [i][..0] == [];
      assert IsCandidate(o, i, {});
    }
    ExecuteOne(o, Reject(RejectText(LiberatorVenue, i)));
    hide Settled, RejectText;
  }
}
