/** The frozen nine-state order machine: thirteen edges, four terminal states. */
module StateMachine {

  datatype OrderState =
    | PendingNew | New | PartiallyFilled | Filled | PendingCancel
    | PendingReplace | Cancelled | Rejected | Expired

  predicate IsTerminal(s: OrderState) {
    s.Filled? || s.Cancelled? || s.Rejected? || s.Expired?
  }

  predicate LegalEdge(a: OrderState, b: OrderState) {
    match a
    case PendingNew => b.New? || b.Rejected?
    case New => b.PartiallyFilled? || b.Filled? || b.Expired? || b.PendingCancel? || b.PendingReplace?
    case PartiallyFilled => b.Filled? || b.Expired? || b.PendingCancel? || b.PendingReplace?
    case PendingCancel => b.Cancelled?
    case PendingReplace => b.New?
    case _ => false
  }

  /** The table of the frozen edges, pair by pair. */
  lemma FrozenEdges(a: OrderState, b: OrderState)
    ensures LegalEdge(a, b) <==> (a, b) in {
              (PendingNew, New), (PendingNew, Rejected),
              (New, PartiallyFilled), (New, Filled), (New, Expired), (New, PendingCancel), (New, PendingReplace),
              (PartiallyFilled, Filled), (PartiallyFilled, Expired), (PartiallyFilled, PendingCancel),
              (PartiallyFilled, PendingReplace), (PendingCancel, Cancelled), (PendingReplace, New)}
  {
  }

  /** Terminal are exactly the states without a way out. */
  lemma TerminalHasNoExit(a: OrderState)
    ensures IsTerminal(a) <==> forall b :: !LegalEdge(a, b)
  {
    assert LegalEdge(PendingNew, New) && LegalEdge(New, Filled) && LegalEdge(PartiallyFilled, Filled);
    assert LegalEdge(PendingCancel, Cancelled) && LegalEdge(PendingReplace, New);
  }

  /** Staying put is always allowed; every other move has to be a frozen edge. */
  predicate IsLegal(a: OrderState, b: OrderState) {
    a == b || LegalEdge(a, b)
  }

  /** A status history that starts at the entry state and follows frozen edges only. */
  ghost predicate LegalWalk(h: seq<OrderState>) {
    && |h| > 0
    && h[0] == PendingNew
    && forall i, j :: 0 <= i && j == i + 1 && j < |h| ==> LegalEdge(h[i], h[j])
  }

  /** A terminal state can only be the last one of a legal history. */
  lemma TerminalEndsWalk(h: seq<OrderState>, i: nat)
    requires LegalWalk(h) && i < |h| && IsTerminal(h[i])
    ensures i == |h| - 1
  {
    assert i + 1 < |h| ==> LegalEdge(h[i], h[i + 1]);
  }

  /** A sequence with every run of equal neighbours collapsed to one element. */
  function Dedup(p: seq<OrderState>): seq<OrderState> {
    if |p| <= 1 then p
    else
      var rest := Dedup(p[..|p| - 1]);
      if p[|p| - 1] == p[|p| - 2] then rest else rest + [p[|p| - 1]]
  }

  lemma DedupAppend(p: seq<OrderState>, s: OrderState)
    ensures Dedup(p + [s]) == if p != [] && p[|p| - 1] == s then Dedup(p) else Dedup(p) + [s]
  {
  }

  lemma {:induction false} DedupKeepsLast(p: seq<OrderState>)
    requires p != []
    ensures Dedup(p) != [] && Dedup(p)[|Dedup(p)| - 1] == p[|p| - 1]
  {
    if |p| > 1 {
      DedupKeepsLast(p[..|p| - 1]);
    }
  }
}
