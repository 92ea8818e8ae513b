/**
  Any number of concurrent submits of one client order id, as small steps: dedupe read, gates,
  lock, primary-key insert, place, settle, compare-and-delete release. The lock may be refused,
  unavailable or expire at any point; a submit may raise or die at any point.
 */
module ConcurrentSubmit {

  import opened Common

  /** A submit is identified by its lock token, unique per call. */
  type Token = nat

  /** What a submit reports: whose row it read, and whether it says so as a duplicate. */
  datatype Outcome = Outcome(row: Token, duplicate: bool)

  /** How a submit leaves the locked section. */
  datatype Exit = WithDuplicate(row: Token) | ToFinalRead | WithError

  datatype Pc =
    | Start | Gates | Locking | Waiting | Inserting | Placing | Settling
    | Releasing(exit: Exit) | FinalRead | Returned(outcome: Outcome) | Failed

  /** `row` is the durable row (named by its inserter), `placed` the calls that reached the venue. */
  datatype State = State(row: Option<Token>, placed: seq<Token>, lock: Option<Token>, pcs: map<Token, Pc>)

  datatype Reply = Acquired | Contended | Unavailable(stored: bool)

  datatype Step =
    | Dedupe(t: Token)
    | PassGates(t: Token, ok: bool)
    | AcquireLock(t: Token, reply: Reply)
    | Poll(t: Token, budgetLeft: bool)
    | Insert(t: Token, ok: bool)
    | Place(t: Token, ok: bool)
    | Settle(t: Token, ok: bool)
    | Release(t: Token, reachable: bool)
    | Read(t: Token)
    | Die(t: Token)
    | Arrive(t: Token)
    | ExpireLock

  function Goto(s: State, t: Token, pc: Pc): State {
    s.(pcs := s.pcs[t := pc])
  }

  predicate At(s: State, t: Token, pc: Pc) {
    t in s.pcs && s.pcs[t] == pc
  }

  /** The reply SET NX can give in a lock state; an error may hide a write that did happen. */
  predicate Possible(lock: Option<Token>, reply: Reply) {
    match reply
    case Acquired => lock.None?
    case Contended => lock.Some?
    case Unavailable(stored) => stored ==> lock.None?
  }

  function AfterLock(s: State, t: Token, reply: Reply): State {
    match reply
    case Acquired => Goto(s, t, Inserting).(lock := Some(t))
    case Contended => Goto(s, t, Waiting)
    case Unavailable(stored) => Goto(s, t, Inserting).(lock := if stored then Some(t) else s.lock)
  }

  predicate Next(s: State, step: Step, s': State) {
    match step
    case Arrive(t) => t !in s.pcs && s' == Goto(s, t, Start)
    case Dedupe(t) =>
      At(s, t, Start) && s' == Goto(s, t, if s.row.Some? then Returned(Outcome(s.row.value, true)) else Gates)
    case PassGates(t, ok) => At(s, t, Gates) && s' == Goto(s, t, if ok then Locking else Failed)
    case AcquireLock(t, reply) =>
      At(s, t, Locking) && Possible(s.lock, reply) && s' == AfterLock(s, t, reply)
    case Poll(t, budgetLeft) =>
      && At(s, t, Waiting)
      && s' == if s.row.Some? then Goto(s, t, Returned(Outcome(s.row.value, true)))
               else Goto(s, t, if budgetLeft then Waiting else Failed)
    case Insert(t, ok) =>
      && At(s, t, Inserting)
      && s' == if !ok then Goto(s, t, Releasing(WithError))
               else if s.row.Some? then Goto(s, t, Releasing(WithDuplicate(s.row.value)))
               else Goto(s, t, Placing).(row := Some(t))
    case Place(t, ok) =>
      At(s, t, Placing) && s' == Goto(s, t, if ok then Settling else Releasing(WithError)).(placed := s.placed + [t])
    case Settle(t, ok) => At(s, t, Settling) && s' == Goto(s, t, Releasing(if ok then ToFinalRead else WithError))
    case Release(t, reachable) =>
      && t in s.pcs && s.pcs[t].Releasing?
      && s' == Goto(s, t, AfterRelease(s.pcs[t].exit)).(lock := if reachable && s.lock == Some(t) then None else s.lock)
    case Read(t) =>
      At(s, t, FinalRead) && s' == Goto(s, t, if s.row.Some? then Returned(Outcome(s.row.value, false)) else Failed)
    case Die(t) => t in s.pcs && !s.pcs[t].Returned? && s' == Goto(s, t, Failed)
    case ExpireLock => s' == s.(lock := None)
  }

  function AfterRelease(exit: Exit): Pc {
    match exit
    case WithDuplicate(row) => Returned(Outcome(row, true))
    case ToFinalRead => FinalRead
    case WithError => Failed
  }

  predicate Initial(s: State) {
    s == State(None, [], None, map[])
  }

  // ---------------------------------------------------------------- the inductive invariant

  /** The submit has not inserted yet. */
  predicate BeforeInsert(pc: Pc) {
    pc.Start? || pc.Gates? || pc.Locking? || pc.Waiting? || pc.Inserting?
  }

  /** What the position of one submit says about the shared state. */
  predicate Consistent(s: State, t: Token, pc: Pc) {
    && (BeforeInsert(pc) ==> s.row != Some(t))
    && (pc.Placing? ==> s.row == Some(t) && s.placed == [])
    && (pc.Settling? || pc.FinalRead? || pc == Releasing(ToFinalRead) ==> s.row == Some(t) && s.placed == [t])
    && (pc.Releasing? && pc.exit.WithDuplicate? ==> s.row == Some(pc.exit.row) && pc.exit.row != t)
    && (pc.Returned? ==> s.row == Some(pc.outcome.row) && (pc.outcome.duplicate <==> pc.outcome.row != t))
    && (pc.Returned? && !pc.outcome.duplicate ==> s.placed == [t])
  }

  ghost predicate Inv(s: State) {
    && (forall t :: t in s.pcs ==> Consistent(s, t, s.pcs[t]))
    && (s.row.Some? ==> s.row.value in s.pcs)
    && (s.placed == [] || (s.row.Some? && s.placed == [s.row.value]))
  }

  predicate Moves(step: Step, u: Token) {
    !step.ExpireLock? && step.t == u
  }

  /** The submit that takes the step stays consistent with the state it leaves. */
  lemma MoverConsistent(s: State, step: Step, s': State, u: Token)
    requires Inv(s) && Next(s, step, s') && Moves(step, u)
    ensures u in s'.pcs && Consistent(s', u, s'.pcs[u])
  {
    assert u in s.pcs ==> Consistent(s, u, s.pcs[u]);
  }

  /** Every other submit stays where it is and stays consistent. */
  lemma OthersConsistent(s: State, step: Step, s': State, u: Token)
    requires Inv(s) && Next(s, step, s') && !Moves(step, u) && u in s'.pcs
    ensures u in s.pcs && s'.pcs[u] == s.pcs[u] && Consistent(s', u, s'.pcs[u])
  {
    assert u in s.pcs && Consistent(s, u, s.pcs[u]);
    if step.Place? {
      assert Consistent(s, step.t, s.pcs[step.t]);
    }
  }

  lemma SharedConsistent(s: State, step: Step, s': State)
    requires Inv(s) && Next(s, step, s')
    ensures s'.row.Some? ==> s'.row.value in s'.pcs
    ensures s'.placed == [] || (s'.row.Some? && s'.placed == [s'.row.value])
  {
    if step.Place? {
      assert Consistent(s, step.t, s.pcs[step.t]);
    }
  }

  lemma StepKeepsInv(s: State, step: Step, s': State)
    requires Inv(s) && Next(s, step, s')
    ensures Inv(s')
  {
    SharedConsistent(s, step, s');
    forall u | u in s'.pcs ensures Consistent(s', u, s'.pcs[u]) {
      hide Next, Consistent;
      if Moves(step, u) {
        MoverConsistent(s, step, s', u);
      } else {
        OthersConsistent(s, step, s', u);
      }
    }
  }

  // ---------------------------------------------------------------- runs

  ghost predicate IsRun(states: seq<State>, steps: seq<Step>) {
    && |states| == |steps| + 1 && Initial(states[0])
    && forall i :: 0 <= i < |steps| ==> Next(states[i], steps[i], states[i + 1])
  }

  lemma {:induction false} RunKeepsInv(states: seq<State>, steps: seq<Step>, i: nat)
    requires IsRun(states, steps) && i < |states|
    ensures Inv(states[i])
  {
    if i > 0 {
      RunKeepsInv(states, steps, i - 1);
      assert Next(states[i - 1], steps[i - 1], states[i - 1 + 1]);
      StepKeepsInv(states[i - 1], steps[i - 1], states[i]);
    }
  }

  /**
    In every interleaving the venue is called at most once; every submit that returns normally
    reports the one durable row, and says "duplicate" exactly when another submit inserted it.
   */
  lemma AtMostOncePlacement(states: seq<State>, steps: seq<Step>, i: nat)
    requires IsRun(states, steps) && i < |states|
    ensures |states[i].placed| <= 1
    ensures forall t :: t in states[i].pcs && states[i].pcs[t].Returned? ==>
              var o := states[i].pcs[t].outcome;
              states[i].row == Some(o.row) && (o.duplicate <==> o.row != t)
  {
    RunKeepsInv(states, steps, i);
    forall t | t in states[i].pcs && states[i].pcs[t].Returned?
      ensures var o := states[i].pcs[t].outcome;
              states[i].row == Some(o.row) && (o.duplicate <==> o.row != t)
    {
      assert Consistent(states[i], t, states[i].pcs[t]);
    }
  }

  /** The venue is called only by the submit whose row is already durable, and the row never changes afterwards. */
  lemma PlacedOnlyAfterDurable(states: seq<State>, steps: seq<Step>, i: nat)
    requires IsRun(states, steps) && i < |steps|
    ensures steps[i].Place? ==> states[i].row == Some(steps[i].t) && states[i].placed == []
    ensures states[i + 1].placed != states[i].placed ==> steps[i].Place?
    ensures states[i].row.Some? ==> states[i + 1].row == states[i].row
  {
    RunKeepsInv(states, steps, i);
    assert Next(states[i], steps[i], states[i + 1]);
    if steps[i].Place? {
      assert Consistent(states[i], steps[i].t, states[i].pcs[steps[i].t]);
    }
  }

  /** A lock held under a token disappears only by expiry or by that token's own release. */
  lemma ReleaseIsOwn(s: State, step: Step, s': State, holder: Token)
    requires Next(s, step, s') && s.lock == Some(holder) && s'.lock != Some(holder)
    ensures step.ExpireLock? || (step.Release? && step.t == holder && s'.lock == None)
  {
  }

  /** Two submits that both report success without "duplicate" are the same submit. */
  lemma OneOriginal(states: seq<State>, steps: seq<Step>, i: nat, t: Token, u: Token)
    requires IsRun(states, steps) && i < |states| && t in states[i].pcs && u in states[i].pcs
    requires states[i].pcs[t].Returned? && !states[i].pcs[t].outcome.duplicate
    requires states[i].pcs[u].Returned? && !states[i].pcs[u].outcome.duplicate
    ensures t == u && states[i].placed == [t]
  {
    RunKeepsInv(states, steps, i);
    assert Consistent(states[i], t, states[i].pcs[t]) && Consistent(states[i], u, states[i].pcs[u]);
  }

  /** What a submit has returned stays returned. */
  lemma ReturnedStays(s: State, step: Step, s': State, t: Token)
    requires Next(s, step, s') && t in s.pcs && s.pcs[t].Returned?
    ensures t in s'.pcs && s'.pcs[t] == s.pcs[t]
  {
  }

  // ---------------------------------------------------------------- what a submit gets when nothing disturbs it

  /** The states an undisturbed submit goes through, from its arrival to the insert. */
  lemma SoloInsert(s: State, t: Token)
    requires s.row == None && s.lock == None && t !in s.pcs
    ensures var inserting := Goto(s, t, Inserting).(lock := Some(t));
            && Next(s, Arrive(t), Goto(s, t, Start))
            && Next(Goto(s, t, Start), Dedupe(t), Goto(s, t, Gates))
            && Next(Goto(s, t, Gates), PassGates(t, true), Goto(s, t, Locking))
            && Next(Goto(s, t, Locking), AcquireLock(t, Acquired), inserting)
            && Next(inserting, Insert(t, true), Goto(inserting, t, Placing).(row := Some(t)))
  {
    hide Next;
    SoloArrives(s, t);
    SoloLocks(s, t);
  }

  lemma GotoTwice(s: State, t: Token, a: Pc, b: Pc)
    ensures Goto(Goto(s, t, a), t, b) == Goto(s, t, b)
  {
    assert s.pcs[t := a][t := b] == s.pcs[t := b];
  }

  lemma SoloArrives(s: State, t: Token)
    requires s.row == None && t !in s.pcs
    ensures Next(s, Arrive(t), Goto(s, t, Start))
    ensures Next(Goto(s, t, Start), Dedupe(t), Goto(s, t, Gates))
    ensures Next(Goto(s, t, Gates), PassGates(t, true), Goto(s, t, Locking))
  {
    GotoTwice(s, t, Start, Gates);
    GotoTwice(s, t, Gates, Locking);
  }

  lemma SoloLocks(s: State, t: Token)
    requires s.row == None && s.lock == None
    ensures var inserting := Goto(s, t, Inserting).(lock := Some(t));
            && Next(Goto(s, t, Locking), AcquireLock(t, Acquired), inserting)
            && Next(inserting, Insert(t, true), Goto(inserting, t, Placing).(row := Some(t)))
  {
    GotoTwice(s, t, Locking, Inserting);
  }

  /** And from there: it places once, settles, gives the lock back, and reports its own row. */
  lemma SoloPlace(s: State, t: Token)
    requires s.row == Some(t) && s.lock == Some(t) && At(s, t, Placing)
    ensures var settling := Goto(s, t, Settling).(placed := s.placed + [t]);
            var releasing := Goto(settling, t, Releasing(ToFinalRead));
            var reading := Goto(releasing, t, FinalRead).(lock := None);
            && Next(s, Place(t, true), settling)
            && Next(settling, Settle(t, true), releasing)
            && Next(releasing, Release(t, true), reading)
            && Next(reading, Read(t), Goto(reading, t, Returned(Outcome(t, false))))
  {
    SoloReturns(Goto(Goto(s, t, Settling).(placed := s.placed + [t]), t, Releasing(ToFinalRead)), t);
  }

  lemma SoloReturns(releasing: State, t: Token)
    requires releasing.row == Some(t) && releasing.lock == Some(t) && At(releasing, t, Releasing(ToFinalRead))
    ensures var reading := Goto(releasing, t, FinalRead).(lock := None);
            && Next(releasing, Release(t, true), reading)
            && Next(reading, Read(t), Goto(reading, t, Returned(Outcome(t, false))))
  {
  }

  /** Every refusal on the way ends the submit with an error; what was locked is released and what is durable stays. */
  lemma RefusalEnds(s: State, step: Step, s': State)
    requires Next(s, step, s')
    ensures match step
            case PassGates(t, false) => s' == Goto(s, t, Failed)
            case Insert(t, false) => s' == Goto(s, t, Releasing(WithError))
            case Place(t, false) => s' == Goto(s, t, Releasing(WithError)).(placed := s.placed + [t])
            case Settle(t, false) => s' == Goto(s, t, Releasing(WithError))
            case Poll(t, false) => s.row == None ==> s' == Goto(s, t, Failed)
            case Poll(t, true) => s.row == None ==> s' == s
            case Die(t) => s' == Goto(s, t, Failed)
            case _ => true
  {
    assert step.Poll? && s.row == None && step.budgetLeft ==> s.pcs[step.t := Waiting] == s.pcs;
  }

  /** With the row durable, every way of looking at it answers with that row, as a duplicate. */
  lemma DurableRowAnswers(s: State, step: Step, s': State, row: Token)
    requires Next(s, step, s') && s.row == Some(row)
    ensures match step
            case Dedupe(t) => s' == Goto(s, t, Returned(Outcome(row, true)))
            case Poll(t, _) => s' == Goto(s, t, Returned(Outcome(row, true)))
            case Insert(t, true) => s' == Goto(s, t, Releasing(WithDuplicate(row)))
            case Read(t) => s' == Goto(s, t, Returned(Outcome(row, false)))
            case _ => true
  {
  }

  /** What the lock holds after each reply, after a release and after it expires; and how a submit begins. */
  lemma LockReplies(s: State, step: Step, s': State)
    requires Next(s, step, s')
    ensures match step
            case AcquireLock(t, Acquired) => s.lock == None && s' == Goto(s, t, Inserting).(lock := Some(t))
            case AcquireLock(t, Contended) => s.lock != None && s' == Goto(s, t, Waiting)
            case AcquireLock(t, Unavailable(true)) => s.lock == None && s' == Goto(s, t, Inserting).(lock := Some(t))
            case AcquireLock(t, Unavailable(false)) => s' == Goto(s, t, Inserting)
            case Release(t, reachable) =>
              && s'.lock == (if reachable && s.lock == Some(t) then None else s.lock)
              && s.pcs[t].Releasing? && s'.row == s.row && s'.placed == s.placed
              && s'.pcs == s.pcs[t := match s.pcs[t].exit
                                      case WithDuplicate(row) => Returned(Outcome(row, true))
                                      case ToFinalRead => FinalRead
                                      case WithError => Failed]
            case ExpireLock => s'.lock == None && s' == State(s.row, s.placed, None, s.pcs)
            case Arrive(t) => t !in s.pcs && s' == Goto(s, t, Start)
            case _ => true
  {
  }
}
