# Verification of the quant execution engine

This project models the order core of the execution engine in Dafny and proves what it
promises. An order is a durable row that several actors drive through a frozen state machine:
submit, cancel, two kinds of amend, mass-cancel, and a reconciliation loop that matches rows to
venue snapshots, plans repairs purely and executes them against the store. Around it stand the
order-update hub with its replaying event stream, the order-book cache and failover router, two
timed loops, keyset pagination behind an opaque cursor, and a dated append-only fee series.

`dafny verify dfyconfig.toml` checks the whole project.

## How it is organised

- `StateMachine`, `Orders`, `Lifecycle`: the thirteen edges, the row with its fills, audit trail
  and published states, the five writes the repository layer issues, and what each write keeps.
  `OrderStore` is the mutable store whose methods are proved equal to those writes.
- `Reconcile`, `PlanSoundness`, `FillConservation`, `Evidence`: matching, planning and executing
  one row, for both venues; the two differ in how they price a fill and in how they read absence.
- `Passes`, `Claims`, `Convergence`: whole passes over accounts. `Reconciler` holds the loops,
  proved equal to the pure passes.
- `Outcomes`: what a row step, a pass and a resolution answer, case by case, without the plan.
- `Router` and `Runs`: the router's operations on the store, and the lifecycle invariant over
  every run of all operations. `Boundaries` carries conservation and convergence to every boundary
  of such a run. `AccountPasses` shows what a pass is to one row; `Causes` and `Handles` carry
  evidence and claims from single passes to whole runs. `Sim` is the simulated venue.
- `ConcurrentSubmit`: any number of submits of one id as small steps around a lock that may be
  refused, unavailable or lost at any point.
- `EventHub`, `OrderStream`: bounded queues with gap markers, the ring, and the stream generator
  interleaved with publishes.
- `BookCache`, `BookRouting`: the recency cache, reference counts and provider failover.
- `TokenBucket`, `HandleRecovery`: rate limiting over exact reals, and the floor-then-ceiling burst.
- `Bytes`, `Base64Url`, `Cursor`, `Sorting`, `OrderHistory`, `PageWalk`: cursor text and paging.
- `FeeSeries`: which fee was in force on a day.
- `Common`, `Sequences`, `Text`: shared values, sequences without repetition, decimal numbers.

State that the engine changes in place is a class; each method's postcondition ties the new state
to a function of the old one, and the theorems are about those functions. Clocks, venue replies,
lock replies and risk decisions are parameters, so every theorem holds for all of them.

## Where code and documentation part

- The database trigger is modelled as the documentation describes it: every status change outside
  the frozen edges fails, and takes the fill of its transaction with it.
- A redelivered fill is documented as harmless. `apply_fill` still recomputes the status from the
  total the call carries, so a redelivery planned for a smaller quantity can turn a partly filled,
  upward-amended order FILLED without an event (`Lifecycle.StaleTotalCloses`). The row level
  theorems say exactly when; no operation sequence of `Runs` produces such a call.
- The plan is documented to record fills before any terminal state. An unacknowledged order the
  venue has partly matched and then rejected closes without its fill
  (`Evidence.FillLostOnEarlyRejection`).
- A gap frame understates its loss: the marker takes the slot the dropped event freed, so the
  arriving event is lost too and not counted; each window loses one more event than it reports.
- A ring of no capacity never reports that a cursor fell off (`OrderStream.RinglessHubLosesSilently`).
- A price ladder resolves rung by rung, but a single venue row of the same shape without a price
  makes every rung ambiguous (`Claims.PricelessRowBlocksRung`), and a stuck order of the same shape
  without a price of its own may be given a rung's venue row (`Claims.RivalTakesRow`).
- An override that names a provider which is not configured is ignored by routing but still
  exempts its key from migration, so the key stays on the failed provider
  (`BookRouting.StrandedAfterFailover`).
- A cancel-and-replace amend is documented to leave the old order CANCELLED. When that order was
  already in PENDING_CANCEL the replacement is submitted without waiting
  (`Runs.ReplacementAfterCancel`).

## Model

| member | source | states |
|---|---|---|
| StateMachine.FrozenEdges | src/quant_execution_engine/core/state_machine.py:22-37 | the legal moves are exactly the thirteen pairs of the table |
| StateMachine.TerminalHasNoExit | src/quant_execution_engine/core/state_machine.py:18-37 | the terminal states are exactly those no edge leaves |
| StateMachine.TerminalEndsWalk | src/quant_execution_engine/core/state_machine.py:18-50 | along any history that follows the thirteen frozen edges, a terminal state can only be the last one |
| Lifecycle.WriteKeepsAudit | src/quant_execution_engine/db/repositories.py:124-313 | whichever write arrives with whatever arguments, accepted or refused, the audit trail stays a legal walk ending in the current status, fill ids stay unique, and history, fills and stream only grow |
| Lifecycle.WriteKeepsHandle | src/quant_execution_engine/db/repositories.py:183-258 | a write keeps "handle is null exactly in PENDING_NEW and REJECTED" if and only if it is not a bare status update from PENDING_NEW to NEW; a recorded handle is never overwritten |
| Lifecycle.WriteKeepsMirror | src/quant_execution_engine/db/repositories.py:160-168 | after a write the published states, neighbours collapsed, still equal the durable status history if and only if the write is not a redelivered fill that flips the status |
| Lifecycle.RedeliveryIsSilent | src/quant_execution_engine/db/repositories.py:283-313 | a fill whose id is already recorded adds no fill and publishes nothing |
| Lifecycle.RedeliveryChangesOnlyOnStaleTotal | src/quant_execution_engine/db/repositories.py:266-313 | on a row satisfying the lifecycle invariant, a redelivered fill changes anything if and only if the row is PARTIALLY_FILLED and the fill carries a total the recorded sum has already reached |
| Lifecycle.StaleTotalCloses | src/quant_execution_engine/db/repositories.py:290-313 | the failing case made concrete: an order amended from 10 to 20 with 12 filled turns FILLED, without an event, when a fill planned for the old total comes again |
| Lifecycle.AnyInterleavingIsAudited | src/quant_execution_engine/db/repositories.py:124-313 | over every sequence of writes from any actors, the audit trail stays legal, fills are append-only, and a terminal status is never left |
| Lifecycle.AnyInterleavingKeepsHandle | src/quant_execution_engine/db/repositories.py:183-258 | over every sequence of writes without a bare acknowledgement, the handle is null exactly in PENDING_NEW and REJECTED, and is write-once |
| Lifecycle.StreamRefinesHistory | src/quant_execution_engine/db/repositories.py:160-168 | over every sequence of writes without a silent flip, the published stream with repetitions removed is the status history |
| OrderStores.AckInStore | src/quant_execution_engine/db/repositories.py:183-201 | an acknowledgement succeeds exactly on a stored PENDING_NEW order, sets status and handle, audits and publishes once, and touches no other order |
| OrderStores.ReplaceInStore | src/quant_execution_engine/db/repositories.py:204-234 | a replacement succeeds exactly on a stored PENDING_REPLACE order and writes exactly the columns given |
| OrderStores.StatusInStore | src/quant_execution_engine/db/repositories.py:237-258 | a status update succeeds exactly along a frozen edge, or stays put without a trace |
| OrderStores.FillInStore | src/quant_execution_engine/db/repositories.py:266-313 | a fill is recorded once under its id, the status follows the sum, an illegal status takes the fill with it, and only a new fill is published |
| OrderStores.OrderStore.InsertOrder | src/quant_execution_engine/db/repositories.py:124-168 | a primary-key collision is reported and changes nothing; otherwise the row enters at PENDING_NEW with no handle and one birth event |
| OrderStores.OrderStore.AckOrder | src/quant_execution_engine/db/repositories.py:183-201 | succeeds exactly on a PENDING_NEW row, setting status and handle together; the new store is the old one with that write applied |
| OrderStores.OrderStore.ReplaceOrder | src/quant_execution_engine/db/repositories.py:204-234 | succeeds exactly on a PENDING_REPLACE row; an absent price or quantity keeps its column |
| OrderStores.OrderStore.UpdateStatus | src/quant_execution_engine/db/repositories.py:237-258 | a legal move is applied, audited and published; the same status is a silent no-op; an illegal one changes nothing |
| OrderStores.OrderStore.SetRejectReason | src/quant_execution_engine/db/repositories.py:261-263 | writes the reason and neither status nor stream |
| OrderStores.OrderStore.ApplyFill | src/quant_execution_engine/db/repositories.py:266-313 | fill insert, sum and status flip commit together or roll back together; a repeated id inserts and publishes nothing |
| Reconcile.CandidatesSound | src/quant_execution_engine/adapters/liberator/reconciler.py:166-194 | the matcher's candidates are exactly the unclaimed venue rows that agree on symbol, volume, side, price where both have one, and entry time within five seconds |
| Reconcile.ResolveSound | src/quant_execution_engine/adapters/liberator/reconciler.py:436-480 | the venue row a step acts on is the one under the order's handle, or an unclaimed candidate of an unacknowledged order |
| Orders.FillIdReadsBack | src/quant_execution_engine/adapters/liberator/reconciler.py:369-384 | a fill id is the order number, a colon, and the counter in decimal digits that read back as it |
| Reconcile.HandleComesFirst | src/quant_execution_engine/adapters/liberator/reconciler.py:459-468 | a row listed under the order's handle is the order's: nothing is matched and nothing claimed |
| Outcomes.MatchIsUnique | src/quant_execution_engine/adapters/liberator/reconciler.py:132-194 | the matcher finds a venue row exactly when it is the only unclaimed one that agrees in symbol, volume, side, price where both have one, and time within five seconds; it is ambiguous exactly when several do |
| Outcomes.StepOutcome | src/quant_execution_engine/adapters/liberator/reconciler.py:260-391 | the row step in full: for every snapshot, clock, claimed set and gate, the status, fill, handle, reason and columns the order ends with, said without the plan |
| Outcomes.LostAckIsRejected | src/quant_execution_engine/adapters/liberator/reconciler.py:277-309 | an unacknowledged order no unclaimed row agrees with is REJECTED as ack_lost_unmatched after sixty seconds, and untouched until then |
| Outcomes.AmbiguousStays | src/quant_execution_engine/adapters/liberator/reconciler.py:277-309 | while several rows agree the order stays as it is, however long |
| Outcomes.GatedStepWaits | src/quant_execution_engine/adapters/liberator/reconciler.py:459-468 | within five seconds of being sent a gated step leaves an unacknowledged order alone |
| Outcomes.AbsentCancel | src/quant_execution_engine/adapters/liberator/reconciler.py:234-331 | a pending cancel the book does not show is confirmed exactly when the venue keeps no daily book or the Bangkok day is still the same |
| Outcomes.BangkokMidnight | src/quant_execution_engine/adapters/liberator/reconciler.py:234-245 | the venue's day changes at 17:00 UTC |
| Outcomes.OnlyRowIsTaken | src/quant_execution_engine/adapters/liberator/reconciler.py:459-468 | a due order with exactly one possible row ends under its number, or REJECTED with the venue's reason |
| Outcomes.PassOutcome | src/quant_execution_engine/adapters/liberator/reconciler.py:410-480 | every row of a pass is answered so, on its own account's snapshot and what was claimed by then |
| Outcomes.LostAckInPass | src/quant_execution_engine/adapters/liberator/reconciler.py:410-480 | in a pass, an order no unheld row agrees with is rejected after a minute and untouched until then |
| Outcomes.ResolutionOutcome | src/quant_execution_engine/adapters/liberator/reconciler.py:482-512 | what a single resolution does to every order: nothing to a resolved one or an unread book, else the answer of its account, at any age |
| Outcomes.ResolutionFinds | src/quant_execution_engine/adapters/liberator/reconciler.py:482-512 | with exactly one possible row it gives the order that row's number, or rejects it, and answers that the order is resolved |
| AccountPasses.PeersAre | src/quant_execution_engine/adapters/liberator/reconciler.py:415-434 | rows share a snapshot and a claimed set exactly when account, and for the venue with one book per market also market, agree |
| AccountPasses.OthersHandlesAre | src/quant_execution_engine/adapters/liberator/reconciler.py:495-503 | a resolution leaves alone exactly the handles of the other listed rows of the account |
| AccountPasses.HeldHandlesAre | src/quant_execution_engine/adapters/liberator/reconciler.py:428-430 | a pass starts with exactly the handles its rows hold claimed |
| Reconcile.FillPriceOrder | src/quant_execution_engine/adapters/liberator/reconciler.py:88-98 | a fill is priced by the venue row if it has a price, then by its average, then by the order's price, then by its stop price |
| Reconcile.QuantizeNearest | src/quant_execution_engine/adapters/liberator/reconciler.py:88-98 | rounding lands on the nearest six-decimal value, on the even one in a tie |
| Reconcile.AverageKeepsNotional | src/quant_execution_engine/adapters/liberator/reconciler.py:88-98 | priced at the cumulative average, the fill of everything matched is worth the venue's amount within half a unit of the sixth decimal per share |
| Reconcilers.MatchByLoop | src/quant_execution_engine/adapters/liberator/reconciler.py:166-194 | the candidate loop computes the matcher's specification: the unique candidate, or none with the candidate count |
| Reconcilers.BuildIndex | src/quant_execution_engine/adapters/liberator/reconciler.py:428-434 | the dictionary keeps the last row of a repeated order number, and knows exactly the listed numbers |
| Reconcilers.GroupRowsByKey | src/quant_execution_engine/adapters/liberator/reconciler.py:410-434 | the grouping loop puts every row under its own account key, in listing order |
| Reconcilers.GroupsPartition | src/quant_execution_engine/adapters/liberator/reconciler.py:410-434 | the groups of a pass hold every row of the working set exactly once |
| Reconcilers.Reconciler.ExecuteAction | src/quant_execution_engine/adapters/liberator/reconciler.py:514-547 | each kind of action performs its sequence of store writes and raises exactly when one of them does |
| Reconcilers.Reconciler.ApplyRow | src/quant_execution_engine/adapters/liberator/reconciler.py:436-480 | the store and the claimed set after one row are those of the pure row step; a raising action is skipped and not counted |
| Reconcilers.Reconciler.ReconcileGroup | src/quant_execution_engine/adapters/liberator/reconciler.py:425-434 | one account group processed by loops equals the pure account pass, with the claimed set threaded from row to row |
| Reconcilers.Reconciler.ReconcileOnce | src/quant_execution_engine/adapters/liberator/reconciler.py:410-434 | a whole pass over grouped rows equals the pure full pass; a group whose venue read failed is skipped |
| Reconcilers.Reconciler.ResolveOrderNow | src/quant_execution_engine/adapters/liberator/reconciler.py:482-512 | one read for one order: answers true without a read when already resolved, raises when the venue cannot be read, else applies one ungated row step against the other rows' handles and says whether the order is now resolved |
| PlanSoundness.PlanSound | src/quant_execution_engine/adapters/liberator/reconciler.py:260-391 | for every row satisfying the lifecycle invariant and every venue row, clock and ambiguity flag, every planned action applies along frozen edges, none raises, and the row satisfies the invariant again |
| PlanSoundness.PresentPlan | src/quant_execution_engine/adapters/liberator/reconciler.py:346-391 | a plan against a venue row is acknowledgement, then fill, then the venue's terminal, and runs as those three stages |
| PlanSoundness.PresentOutcome | src/quant_execution_engine/adapters/liberator/reconciler.py:346-391 | where such a plan ends: FILLED only if matched reached the quantity, closed only by a venue terminal short of it, otherwise still live under the venue row's number |
| PlanSoundness.OtherOutcome | src/quant_execution_engine/adapters/liberator/reconciler.py:260-344 | where every other plan ends: nothing happens, a pending cancel is confirmed, or an unacknowledged order is rejected, with fills and handle untouched |
| PlanSoundness.FillSettles | src/quant_execution_engine/adapters/liberator/reconciler.py:369-384 | recording a planned fill on a live order keeps the lifecycle invariant and lands in FILLED exactly when the sum reaches the quantity |
| PlanSoundness.CloseSettles | src/quant_execution_engine/adapters/liberator/reconciler.py:197-231 | each terminal action closes a live order by frozen edges and keeps the invariant |
| FillConservation.FreshAfterFill | src/quant_execution_engine/adapters/liberator/reconciler.py:369-384 | after recording the counter value m the sum is m, and the ids of all higher values are still unused |
| FillConservation.RowCounter | src/quant_execution_engine/adapters/liberator/reconciler.py:436-480 | one row step records exactly the difference between the counter and the recorded sum, at the derived price and under a fresh id named after the counter, or nothing |
| FillConservation.FillSumIsHighWater | src/quant_execution_engine/adapters/liberator/reconciler.py:369-384 | over every run of row steps, whatever the venue reports, the durable sum is the highest recordable counter value seen, each new fill is named after the running sum it reaches, and older fills are kept |
| FillConservation.ReplayedFillChangesNothing | src/quant_execution_engine/adapters/liberator/reconciler.py:369-384 | executing any fill of a reconcile run again, at any later point of it, changes nothing at all |
| FillConservation.RestingOrderFollowsPeak | src/quant_execution_engine/adapters/liberator/reconciler.py:369-391 | for a bound order the venue shows resting, the fill sum is the peak of the counters shown with a derivable price, up to completion, and the order is FILLED exactly when that peak reaches its quantity |
| FillConservation.FollowSettles | src/quant_execution_engine/adapters/liberator/reconciler.py:436-480 | every run of row steps keeps the lifecycle invariant, the handle, the quantity and the price |
| Boundaries.ConservationAtBoundaries | src/quant_execution_engine/adapters/liberator/reconciler.py:369-384 | fill conservation from any order at any boundary of a run of submits, cancels, amends, sweeps and passes |
| Boundaries.PeakAtBoundaries | src/quant_execution_engine/adapters/liberator/reconciler.py:369-391 | the same for the peak of a resting order's counters |
| Boundaries.ConvergenceAtBoundaries | src/quant_execution_engine/adapters/liberator/reconciler.py:410-480 | convergence from the store at any boundary of such a run |
| Boundaries.PassesFollow | src/quant_execution_engine/adapters/liberator/reconciler.py:410-512 | over any number of passes and single resolutions, an order follows the snapshots they read of its own account, one row step each |
| Boundaries.ConservationOverPasses | src/quant_execution_engine/adapters/liberator/reconciler.py:369-384 | so its durable fill sum is the highest counter those snapshots could record, with every new fill named after the running sum |
| AccountPasses.FullPassGroup | src/quant_execution_engine/adapters/liberator/reconciler.py:410-434 | a row ends a pass as the pass over its own account leaves it: accounts do not mix |
| AccountPasses.PassRowIsStep | src/quant_execution_engine/adapters/liberator/reconciler.py:436-480 | in a pass over an account every row takes one row step with exactly the held handles and the numbers that other rows took in this pass claimed |
| Causes.OperationCause | src/quant_execution_engine/adapters/liberator/reconciler.py:410-512 | whichever operation ends an order carries the cause: a placement reply that closes it, a confirmed cancel, or the evidence of the snapshot and claims its pass or resolution had |
| Causes.TerminalHasCause | src/quant_execution_engine/adapters/liberator/reconciler.py:410-512 | over every run, an order that is terminal at one boundary and was not at an earlier one was ended by one operation in between that carries the cause |
| Evidence.StepJustified | src/quant_execution_engine/adapters/liberator/reconciler.py:197-391 | a row step that ends in a terminal state had, in its own snapshot and clock, the evidence that state requires |
| Evidence.TerminalOnlyOnEvidence | src/quant_execution_engine/adapters/liberator/reconciler.py:132-391 | over every run: REJECTED needs a rejected row that speaks for the order, or more than 60 s with no unclaimed candidate; CANCELLED a closed venue row, or absence on the same Bangkok day while a cancel is pending; EXPIRED an expired row; FILLED matched at or above the quantity |
| Evidence.MatchedRecordedBeforeTerminal | src/quant_execution_engine/adapters/liberator/reconciler.py:346-391 | a step closes an order with shown matched quantity unrecorded if and only if it is in one of three named situations: rejected before acknowledgement, cancel pending, or no derivable price |
| Evidence.FillLostOnEarlyRejection | src/quant_execution_engine/adapters/liberator/reconciler.py:346-352 | the first of them made concrete: a priced order the venue matched 4 of 10 and then rejected before the acknowledgement closes REJECTED with no fill |
| Passes.AccountPassAdvances | src/quant_execution_engine/adapters/liberator/reconciler.py:425-480 | a pass over an account changes only its own rows, each to a continuation of itself, and keeps the invariant of every order |
| Passes.FullPassAdvances | src/quant_execution_engine/adapters/liberator/reconciler.py:410-480 | the same for a pass over all accounts, including those skipped |
| Claims.BindingClaims | src/quant_execution_engine/adapters/liberator/reconciler.py:459-468 | a row step, in a pass or in a single resolution, binds only a number nobody has claimed, and claims it |
| Claims.ClaimInjectivity | src/quant_execution_engine/adapters/liberator/reconciler.py:428-468 | within one pass over an account, newly bound handles are pairwise distinct and disjoint from every handle the working set already held |
| Handles.ResolutionBindsNew | src/quant_execution_engine/adapters/liberator/reconciler.py:482-512 | a single resolution never binds a handle that another working order of the account holds |
| Handles.PassKeepsUnique | src/quant_execution_engine/adapters/liberator/reconciler.py:410-434 | a pass that lists the whole working set keeps its handles pairwise different within each account |
| Handles.HandlesOverRuns | src/quant_execution_engine/adapters/liberator/reconciler.py:410-512 | over every run of all operations in which the reconcilers list their whole working set and the venue acknowledges under new numbers, no two working orders of an account hold the same handle |
| Claims.RungMatchesOwnRow | src/quant_execution_engine/adapters/liberator/reconciler.py:166-194 | a row with exactly one unclaimed venue row at its own price is matched to it if and only if every unclaimed venue row of its shape reports a price; otherwise the match is ambiguous |
| Claims.PricelessRowBlocksRung | src/quant_execution_engine/adapters/liberator/reconciler.py:166-194 | the ambiguous case made concrete: one venue row without a price beside the right one |
| Claims.RungResolves | src/quant_execution_engine/adapters/liberator/reconciler.py:428-480 | a stuck row with exactly one unclaimed venue row at its own price ends the pass as its plan against that row leaves it, whatever the processing order, as long as no other stuck row of the account could be given that venue row |
| Claims.RivalTakesRow | src/quant_execution_engine/adapters/liberator/reconciler.py:166-194 | such another row does take it when it has no other candidate, and the first is then not matched to it |
| Claims.LadderResolves | src/quant_execution_engine/adapters/liberator/reconciler.py:428-480 | any number of such rows resolve in one pass, each against its own venue row, whatever the processing order; every other unacknowledged row may be there, with or without a price or a venue row, that is just sent, differs in symbol, side or quantity, or is at another price |
| Convergence.RowBudget | src/quant_execution_engine/adapters/liberator/reconciler.py:436-480 | a row step applies no more actions than it takes off the row's budget, and a step that applies none changes nothing |
| Convergence.FullPassSpend | src/quant_execution_engine/adapters/liberator/reconciler.py:410-480 | the same for whole passes, against the budgets of all rows together |
| Convergence.ReconciliationConverges | src/quant_execution_engine/adapters/liberator/reconciler.py:410-480 | against fixed snapshots with distinct numbers and a fixed clock, any number of passes over n rows applies at most 3n actions, and after 3n passes a further pass applies none and changes nothing |
| Routers.Router.Submit | src/quant_execution_engine/core/router.py:178-227 | kill switch, dedupe, gates, insert, place, settle: the new store, the duplicate flag and whether the caller sees an exception, for every reply |
| Routers.Router.Settle | src/quant_execution_engine/core/router.py:229-273 | a placement reply becomes its sequence of writes; the first one that raises ends it |
| Routers.Router.SettleAccepted | src/quant_execution_engine/core/router.py:248-272 | acknowledge, fills, then the two-step cancel of a remainder, stopping where a write or the venue raises |
| Routers.Router.ApplyFills | src/quant_execution_engine/core/router.py:250-259 | fills are recorded one by one until the first that raises |
| Routers.Router.Cancel | src/quant_execution_engine/core/router.py:320-349 | which states refuse, which is already being cancelled, and CANCELLED only on a confirmed venue cancel |
| Routers.Router.AmendInPlace | src/quant_execution_engine/core/router.py:420-511 | pre-flight, PENDING_REPLACE, then the amended or the restored values, back to PARTIALLY_FILLED when partly filled |
| Routers.Router.AmendByReplacement | src/quant_execution_engine/core/router.py:351-418 | the replacement is submitted only when the cancel did not raise; the store and the exception for every reply |
| Routers.Router.MassCancel | src/quant_execution_engine/core/router.py:513-533 | the sweep visits every open order and reports each one as cancelled or failed |
| Routers.SweepOutcome | src/quant_execution_engine/core/router.py:513-533 | after the sweep a listed order is CANCELLED and reported so exactly when its cancel was confirmed; otherwise it is PENDING_CANCEL, or untouched where no adapter resolved, and reported as failed |
| Runs.PlacementOutcome | src/quant_execution_engine/core/router.py:229-273 | where every placement reply leaves the row: untouched and raising, untouched without a handle, REJECTED with its reason, or under the venue's handle with the first report of each id, FILLED, resting, CANCELLED or stuck in PENDING_CANCEL by what the reports add up to |
| Runs.AmendOutcome | src/quant_execution_engine/core/router.py:420-511 | an accepted native amend changes exactly the given columns and keeps fills, handle and status; a refused one leaves the row as it was; a raising one leaves it in PENDING_REPLACE; anything the pre-flight refuses changes nothing |
| Runs.SubmitOutcome | src/quant_execution_engine/core/router.py:178-227 | what a submit does, gate by gate: refused, answered from the stored row, or inserted with its own columns and placed; and which replies reach the caller as an exception |
| Runs.CancelOutcome | src/quant_execution_engine/core/router.py:320-349 | where a cancel leaves the order for every status, gate and reply: CANCELLED when confirmed, PENDING_CANCEL when not, everything else untouched, and when it raises |
| Runs.AmendInStore | src/quant_execution_engine/core/router.py:420-511 | a native amend in the store: the order as the amend leaves it, every other as it was |
| Runs.ReplacementNeedsId | src/quant_execution_engine/core/router.py:404-412 | without a fresh id the amend is refused before anything is cancelled |
| Routers.SweptPartition | src/quant_execution_engine/core/router.py:513-533 | every listed order is reported once: as cancelled exactly when its cancel was confirmed, else as failed |
| Runs.PlacementEvolves | src/quant_execution_engine/core/router.py:229-273 | every placement reply leaves a row that satisfies the lifecycle invariant |
| Runs.AmendEvolves | src/quant_execution_engine/core/router.py:420-511 | so does every native amend, up or down, accepted, refused or raising |
| Runs.OperationSound | src/quant_execution_engine/core/router.py:178-533 | every operation on a sound store leaves a sound store in which each order continues itself |
| Runs.LifecycleOverRuns | src/quant_execution_engine/core/router.py:178-533 | over every run of submits, cancels, both amends, mass-cancels, reconcile passes and single resolutions, at every boundary: handle null exactly in PENDING_NEW and REJECTED and write-once; FILLED exactly when the sum reaches the quantity; PARTIALLY_FILLED strictly between; no fills in NEW, PENDING_NEW and REJECTED; orders, fills and audit trail only grow |
| Runs.TerminalForever | src/quant_execution_engine/core/router.py:178-533 | an order that is terminal at one boundary has the same status and history at every later one |
| Runs.StreamMirrorsRuns | src/quant_execution_engine/core/router.py:178-533 | along every such run the published states of an order, repetitions collapsed, are its durable history, which is a legal walk |
| Runs.ReplacementAfterCancel | src/quant_execution_engine/core/router.py:351-418 | a replacement enters the store if and only if the amend is acceptable, the cancel leg passes, the replacement is valid, its id is unused and the submit gates pass; the old order is then CANCELLED, or still in PENDING_CANCEL if it already was, the new row carries the given price and quantity, else the old row's, and the rest of the old request, and no other order changes; and when the caller sees an exception |
| Boundaries.OperationFresh | src/quant_execution_engine/core/router.py:178-533 | every operation whose placement reply carries no counter ids leaves every order free to record every higher counter value |
| Boundaries.HealthyOverRuns | src/quant_execution_engine/core/router.py:178-533 | so at every boundary of every such run all orders satisfy what conservation and convergence start from |
| ConcurrentSubmit.StepKeepsInv | src/quant_execution_engine/core/router.py:186-227 | every step of every submit, and the expiry of the lock, keeps the invariant that ties positions, row, placements and outcomes together |
| ConcurrentSubmit.AtMostOncePlacement | src/quant_execution_engine/core/router.py:186-227 | in every interleaving of any number of submits of one id the venue is called at most once, and every normal return reports the one durable row, as a duplicate exactly when another submit inserted it |
| ConcurrentSubmit.PlacedOnlyAfterDurable | src/quant_execution_engine/core/router.py:205-222 | the venue is called only by the submit whose row is already durable, and that row is never replaced |
| ConcurrentSubmit.SoloInsert | src/quant_execution_engine/core/router.py:186-222 | with a free lock and no row, an undisturbed submit can go step by step to its insert, holding the lock |
| ConcurrentSubmit.SoloPlace | src/quant_execution_engine/core/router.py:205-227 | and from there to placing once, giving the lock back and reporting its own row, not as a duplicate |
| ConcurrentSubmit.DurableRowAnswers | src/quant_execution_engine/core/router.py:190-222 | with the row durable, every way of looking at it answers with that row |
| ConcurrentSubmit.RefusalEnds | src/quant_execution_engine/core/router.py:186-317 | every refusal on the way ends the submit with an error and keeps what is durable |
| ConcurrentSubmit.ReturnedStays | src/quant_execution_engine/core/router.py:186-227 | what a submit has returned stays returned |
| ConcurrentSubmit.OneOriginal | src/quant_execution_engine/core/router.py:186-227 | two submits that both return without the duplicate flag are the same submit, and it is the one that placed |
| ConcurrentSubmit.LockReplies | src/quant_execution_engine/cache/single_flight.py:25-46 | what the lock holds after each reply of the store, and after a release |
| ConcurrentSubmit.ReleaseIsOwn | src/quant_execution_engine/cache/single_flight.py:31-46 | a lock held under a token disappears only by expiry or by that token's own release |
| Sim.ReportsAllRecorded | src/quant_execution_engine/adapters/sim.py:108-131 | every simulated report is recorded, in order, because their ids differ |
| Sim.ReportsAreForeign | src/quant_execution_engine/adapters/sim.py:108-131 | simulated reports carry positive quantities, and ids that are never those of a venue counter |
| Sim.SimulatedSubmitEnds | src/quant_execution_engine/adapters/sim.py:88-131 | a simulated submit never raises, ends in the documented state for its control input, and records exactly the planned quantity |
| EventHubs.Subscription.OfferEvent | src/quant_execution_engine/events/hub.py:74-106 | never blocks; on overflow the oldest item goes, the gap is flagged and the event is tried once more |
| EventHubs.Subscription.Take | src/quant_execution_engine/events/hub.py:85-90 | a dequeued marker reports the drop count and closes the gap |
| EventHubs.EventHub.Publish | src/quant_execution_engine/events/hub.py:142-184 | one more sequence number, the ring keeps the newest events, and every subscriber is offered the event once |
| EventHubs.EventHub.Replay | src/quant_execution_engine/events/hub.py:186-198 | the retained events after the cursor, and whether the cursor predates the oldest of them |
| EventHubs.OfferEffect | src/quant_execution_engine/events/hub.py:74-106 | what an offer does to the queued events in every case: which event goes, which is kept, how many markers remain |
| EventHubs.GapAccounting | src/quant_execution_engine/events/hub.py:74-106 | over every history of offers and reads: length within capacity, exactly one marker queued while a gap is pending and none otherwise, losses equal the reports plus one each, and an empty queue has nothing unreported |
| EventHubs.GapWindow | src/quant_execution_engine/events/hub.py:74-106 | in each gap window the events lost are the reported count plus exactly one |
| EventHubs.OfferConserves | src/quant_execution_engine/events/hub.py:74-106 | every offered event is read, queued or listed as lost, in one of the three and once, and those not lost stay in strictly increasing order |
| EventHubs.ReadConserves | src/quant_execution_engine/events/hub.py:74-106 | reading moves an event from queued to read and loses nothing |
| OrderStream.RunKeeps | src/quant_execution_engine/api/streams.py:200-231 | every interleaving of publish, subscribe, replay, reads and time-outs keeps the invariant between ring, live tap and frames sent |
| OrderStream.ExactlyOnceOrTold | src/quant_execution_engine/api/streams.py:200-231 | sent frames, unsent replay and queued events above the replay mark are strictly increasing; without a gap they are exactly the published events after the cursor; the cursor is honoured if and only if no resync frame was sent and the ring has room or nothing was missed |
| OrderStream.VisibleIs | src/quant_execution_engine/api/streams.py:200-231 | whatever the visible stream lacks is a lost event above the replay mark, and no lost event above it is visible |
| OrderStream.EveryLossIsTold | src/quant_execution_engine/api/streams.py:214-231 | every loss is covered by the gap frames sent and the marker still queued |
| OrderStream.MissingIsTold | src/quant_execution_engine/api/streams.py:200-231 | the events a client misses are exactly those lost above the replay mark, and no more than the gap frames and the marker still queued account for |
| OrderStream.GeneratorSends | src/quant_execution_engine/api/streams.py:206-231 | each step that is due sends what it should: the next replayed event, a gap frame with its count, an event above the replay mark, a keep-alive when idle |
| OrderStream.DrainSendsAll | src/quant_execution_engine/api/streams.py:206-231 | left to itself the generator sends everything that was visible and leaves nothing pending or queued |
| OrderStream.RinglessHubLosesSilently | src/quant_execution_engine/api/streams.py:200-231 | the exception made concrete: with a ring of no capacity an event is missed and no frame says so |
| BookCache.OrderBookService.Publish | src/quant_execution_engine/order_book/service.py:70-89 | the book becomes the most recent key and the oldest keys beyond capacity are gone |
| BookCache.OrderBookService.Get | src/quant_execution_engine/order_book/service.py:91-101 | a fresh hit returns the book and touches its key; a stale or missing one changes nothing |
| BookCache.OrderBookService.Evict | src/quant_execution_engine/order_book/service.py:103-110 | the loop leaves exactly the newest keys and their books |
| BookCache.CacheRefinesHistory | src/quant_execution_engine/order_book/service.py:70-110 | after any history of publishes and reads, a read returns the last published book of a recently touched key if it is fresh, and nothing otherwise |
| BookCache.RecencyByTouch | src/quant_execution_engine/order_book/service.py:70-110 | the unbounded list the cache is cut from is ordered by the time of the last touch |
| BookCache.MostRecentlyTouched | src/quant_execution_engine/order_book/service.py:70-110 | every cached key was touched after every published key that is not cached, and then the cache is full |
| BookCache.TouchNewest | src/quant_execution_engine/order_book/service.py:70-110 | touching after eviction and evicting after touching leave the same keys |
| BookRouting.BookRouter.AcquireKey | src/quant_execution_engine/order_book/service.py:153-166 | the first live queue of a key makes the router subscribe it |
| BookRouting.BookRouter.ReleaseKey | src/quant_execution_engine/order_book/service.py:168-179 | the last released queue of a key makes the router unsubscribe it |
| BookRouting.RoutingConsistentOverRuns | src/quant_execution_engine/order_book/service.py:153-179 | over every run of acquires, releases and errors: reference count equals live queues, a key is served exactly while counted, each provider holds exactly the keys mapped to it, and, overrides naming configured providers, every key is on its routed provider |
| BookRouting.BookRouter.SubscribeKey | src/quant_execution_engine/order_book/router.py:62-73 | the key goes to its configured override or else to the active provider |
| BookRouting.BookRouter.UnsubscribeKey | src/quant_execution_engine/order_book/router.py:75-81 | the key leaves the provider that served it |
| BookRouting.BookRouter.FindSecondary | src/quant_execution_engine/order_book/router.py:106-111 | the first configured provider other than the active one |
| BookRouting.BookRouter.SwitchProvider | src/quant_execution_engine/order_book/router.py:113-130 | failover moves the keys without an override and clears the failed provider's errors |
| BookRouting.BookRouter.RecordError | src/quant_execution_engine/order_book/router.py:83-104 | only the active provider reaching the threshold within the window fails over |
| BookRouting.Prune | src/quant_execution_engine/order_book/router.py:83-104 | the loop keeps exactly the error times since the cutoff, in their order |
| BookRouting.RecentConcat | src/quant_execution_engine/order_book/router.py:83-104 | pruning keeps or drops each recorded time where it stands, so none is dropped twice or merged |
| BookRouting.FailoverExactly | src/quant_execution_engine/order_book/router.py:83-130 | over every run with a clock that never runs back, an error changes the active provider if and only if it is the active provider's, another one is configured, and that provider's errors since the run last switched away from it that lie within the window number at least the threshold; otherwise nobody moves |
| BookRouting.OnlyErrorsFailOver | src/quant_execution_engine/order_book/router.py:83-111 | no other operation changes the active provider, and a failover goes to the first other one |
| BookRouting.WithoutIs | src/quant_execution_engine/order_book/router.py:168-172 | a released queue is taken out once, where it first stands, and the others stay |
| BookRouting.FailOverConsistent | src/quant_execution_engine/order_book/router.py:113-130 | failover serves the same keys, moves exactly those of the failing provider without an override, and keeps providers and map in step |
| BookRouting.FailOverRouted | src/quant_execution_engine/order_book/router.py:113-130 | after a failover every key is on its routed provider if and only if none has an override naming an unconfigured provider |
| BookRouting.StrandedAfterFailover | src/quant_execution_engine/order_book/router.py:113-130 | the failing case made concrete: such a key stays on the failed provider |
| TokenBuckets.TokenBucket.RefillAt | src/quant_execution_engine/adapters/rate_limit.py:69-75 | one refill of the balance at a clock reading, never above capacity |
| TokenBuckets.TokenBucket.Acquire | src/quant_execution_engine/adapters/rate_limit.py:77-101 | the balance after one acquire and the wait it asked for; without a positive rate nothing happens |
| TokenBuckets.RefillBound | src/quant_execution_engine/adapters/rate_limit.py:69-75 | a refill adds at most what the elapsed time earns and stays within zero and capacity |
| TokenBuckets.WaitBound | src/quant_execution_engine/adapters/rate_limit.py:93-96 | every requested wait is positive, at most one token's time, and exactly the missing fraction's |
| TokenBuckets.RefillBackwards | src/quant_execution_engine/adapters/rate_limit.py:69-75 | a clock that stands still or runs back earns nothing and costs nothing |
| TokenBuckets.GrantedBalance | src/quant_execution_engine/adapters/rate_limit.py:86-101 | the balance a grant leaves, exactly: what has accrued, capped at the rate, less one token, never negative |
| TokenBuckets.GrantStep | src/quant_execution_engine/adapters/rate_limit.py:86-101 | with a monotone clock and a sleep that lasts as asked, a grant costs one token against the time passed, and the balance stays within range |
| TokenBuckets.RateBound | src/quant_execution_engine/adapters/rate_limit.py:86-101 | in any interval the grants number at most the rate times its length plus the burst, which is the rate when that is at least one |
| HandleRecovery.RecoverHandle | src/quant_execution_engine/core/handle_recovery.py:98-136 | CONFIRMED exactly when some attempt resolved, UNKNOWN exactly when every attempt raised, PENDING otherwise; without confirmation at least the floor of attempts was made |
| HandleRecovery.ExhaustedIs | src/quant_execution_engine/core/handle_recovery.py:118-141 | the burst stops without an answer exactly when the floor is met and another cadence would pass the deadline, a clock before the submit counting as no time |
| HandleRecovery.BurstIsBounded | src/quant_execution_engine/core/handle_recovery.py:100-125 | with a positive cadence and a clock that advances by it, the burst ends within max(1, floor, deadline / cadence rounded down + 1) attempts |
| HandleRecovery.BudgetIsReached | src/quant_execution_engine/core/handle_recovery.py:100-125 | that bound is exact: reads that take no time and never resolve use all of it |
| HandleRecovery.NoLateStart | src/quant_execution_engine/core/handle_recovery.py:118-125 | with exact sleeps no attempt beyond the floor starts after the deadline |
| Bytes.Utf8RoundTrip | src/quant_execution_engine/api/routes.py:355-358 | the UTF-8 form of any text decodes to that text |
| Bytes.EncodedForm | src/quant_execution_engine/api/routes.py:355-358 | the byte counts and ranges of section 3 of RFC 3629 |
| Bytes.Utf8DecodeIsStrict | src/quant_execution_engine/api/routes.py:361-369 | only the encoding of a text decodes to it |
| Base64Url.Base64RoundTrip | src/quant_execution_engine/api/routes.py:355-366 | for every byte string, decoding inverts encoding with the padding stripped (section 5 of RFC 4648), and the text needs no escaping in a query |
| Base64Url.SignsRead | src/quant_execution_engine/api/routes.py:361-366 | the decoder reads the two alphabets of sections 4 and 5 of RFC 4648 |
| Base64Url.ForeignSignIsSkipped | src/quant_execution_engine/api/routes.py:361-366 | any other sign it skips |
| Base64Url.PaddingCompletes | src/quant_execution_engine/api/routes.py:361-366 | a group that is begun has to be completed by letters or by all its padding, else the text is refused |
| Base64Url.LettersDecode | src/quant_execution_engine/api/routes.py:361-366 | text of the alphabet decodes exactly when its length leaves no single letter over |
| Cursor.CursorRoundTrip | src/quant_execution_engine/api/routes.py:355-375 | parsing a cursor gives back the very position it was made from, whatever signs the id holds, except that an empty id is refused |
| Cursor.ParseAcceptsOnly | src/quant_execution_engine/api/routes.py:361-375 | a cursor text is accepted exactly when what precedes its first bar is an aware timestamp and an id follows |
| Cursor.NoBarIsMalformed | src/quant_execution_engine/api/routes.py:361-375 | a cursor text without a bar is malformed |
| Cursor.CursorInjective | src/quant_execution_engine/api/routes.py:355-375 | distinct positions have distinct cursors |
| OrderHistory.AssemblePage | src/quant_execution_engine/api/routes.py:401-425 | the loop pairs each order of the page with its own fills, drops the spare row, and gives a cursor exactly when there was one |
| PageWalk.MalformedIsRefused | src/quant_execution_engine/api/routes.py:361-400 | a request is refused exactly when it carries a cursor that does not decode to a position; without one it lists from the top |
| PageWalk.PageStep | src/quant_execution_engine/api/routes.py:398-425 | a request serves the next rows that the first request would have listed behind its cursor, and its own cursor stands behind the last one served |
| PageWalk.WalkVisitsAll | src/quant_execution_engine/api/routes.py:398-425 | following the cursor to its end serves every order of the window exactly once, strictly descending in time and id, even with equal timestamps and newer orders inserted between requests, in full pages but the last |
| PageWalk.PagesNeededIsCeiling | src/quant_execution_engine/api/routes.py:398-425 | the number of pages is the least positive one with room for every row |
| OrderHistory.ListingIsWindow | src/quant_execution_engine/db/repositories.py:434-467 | the query lists exactly the rows of account, broker and window below the cursor, each once, strictly descending in (created_at, id) |
| PageWalk.UnseenIsSuffix | src/quant_execution_engine/db/repositories.py:434-467 | below the k-th row of the first listing, a later store lists exactly the rest of that listing |
| FeeSeries.LoadFeeSchedule | src/quant_execution_engine/reference/fee_schedule.py:298-322 | every series of the file is sorted by effective date, under its own instrument and field |
| Sorting.SortSorts | src/quant_execution_engine/reference/fee_schedule.py:309-312 | sorting rearranges the elements and leaves none out of order |
| Sorting.SortIsStable | src/quant_execution_engine/reference/fee_schedule.py:309-312 | the sort is stable: elements tied with one another keep the order of the input |
| FeeSeries.ResolvesToGoverning | src/quant_execution_engine/reference/fee_schedule.py:151-182 | the answer is the entry with the greatest (effective date, file position) among those effective on or before the day, refused when there is none or when it is stale and staleness is not allowed |
| FeeSeries.ComparesToGoverning | src/quant_execution_engine/reference/fee_schedule.py:206-231 | the check compares with the governing entry, is one-sided, and answers nothing when that entry is refused as stale |
| FeeSeries.ComparesToNothing | src/quant_execution_engine/reference/fee_schedule.py:206-231 | without an entry in force, or without the series, it answers nothing |
| FeeSeries.AppendTakesOver | src/quant_execution_engine/reference/fee_schedule.py:309-312 | an appended entry replaces the answer for a day exactly when it is effective by then and no entry in force is dated later |
| FeeSeries.AppendKeepsHistory | src/quant_execution_engine/reference/fee_schedule.py:263-270 | appending an entry changes no answer of another series, and none for a day before its date; a field without entries refuses such a day before and after |
| FeeSeries.AppendWinsUntilSuperseded | src/quant_execution_engine/reference/fee_schedule.py:167-182 | the appended entry is in force on a day if and only if it is effective by then and no later-dated entry is |
| FeeSeries.AdoptionEndsAlert | src/quant_execution_engine/reference/fee_schedule.py:206-231 | adopting an observation above its basis under the day's date ends the alert for that day and leaves every earlier day's basis as it was |

## Left out

- HTTP transports, venue envelopes, websocket framing, authentication, error tables, health and
  capability routes: input and output, or finite tables.
- Stage ladder, routing authority, circuit breaker, kill-switch storage, price band and the Redis
  risk counters: they enter as one yes or no per operation.
- Classification of raw venue status words and sides (`classify_venue_state`, `from_venue_side`):
  venue rows arrive already classified; the tables would only add easy members.
- Account, position and balance mapping, public status and display state: copying and finite tables.
- Crashes in the middle of an operation: the lifecycle theorem speaks of operation boundaries, the
  `Lifecycle` theorems of every interleaving of single writes.
- Two planners with different snapshots and the same stale fill sum: a row step reads, plans and
  executes atomically, as do acquire, release and error handling in the book router.
- Placement replies whose reports carry ids of the venue's own counter: no adapter sends them, and
  the theorems at run boundaries exclude them.
- Handles of terminal rows: claims are compared with the working set only, as in the code.
- Stream filters by strategy or order, strategy attribution and the hub's attribution cache.
- `OrderStream` and `ConcurrentSubmit` are modelled on values, as steps of a machine, because the
  generator and the submits are interleaved with other actors; update in place is shown for the
  hub, the store and the router.
- The per-subscriber queues of the order-book service, and providers that fail to subscribe.
- Rounding of floats and decimals, except the six-decimal fill price; the token bucket and the
  recovery loop use exact reals, and timestamps are integers.
- The text of timestamps: any form without a bar that reads back as the same aware timestamp.
- Upper and lower case and collation of ids: any strict total order.
- Orders inserted between two page requests with an older timestamp than one already listed, as a
  transaction that commits late could leave: the paging theorem is about newer ones.
- Parsing of the fee file, its provenance rules and the rendering of adopted entries.
