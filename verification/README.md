# Verified model of the learning platform's core

A Dafny project that models the most intricate parts of the platform's backend and proves what they promise: payments
from initiation to a paid subscription, the prerequisite graph and the bulk import of content, the life of assessment
versions, and the arithmetic and encodings these rely on. `dafny verify dfyconfig.toml` checks everything.

## What is modelled

**Payments.** The tables are `PaymentModel.Db`; each transaction is a function in `PaymentSteps`, and the class
`PaymentRepositories.PaymentTables` holds the tables in fields, with one method per repository transaction proved equal
to that function. A run is any sequence of transactions from empty tables, with any events, users and clocks, and with
the bridges between transactions firing or not. `PaymentRuns` proves one invariant over all eight tables and every run;
`PaymentHistory` proves what no run ever rewrites; `PaymentEffects` and `PaymentPurchase` say of every transaction, on the
rows alone, which rows lead to which answer, what it writes and that it writes nothing else; `PaymentTheorems`,
`PaymentLimits`, `PaymentCallbacks` and `PaymentRecovery` draw the promises from them. Writers outside these transactions
(creating and committing a discount, releasing it, earning IZL, lapsing a subscription) are steps of the runs too.

**Payments, statement by statement.** `PaymentLocks` splits each transaction into its reads, its decisions and its
commit, with the advisory locks it takes: `izl` for initiation and for committing a discount, `pay` for callbacks,
binding and reopening, `sub`, `pay` and `izl` for finalization; the other writers take their lock and run as one
statement. `PaymentRely` says what each lock protects and proves that no transaction writes what is protected by a lock
it does not hold; `PaymentReads`, that what a thread has read therefore still holds; `PaymentCommits`, that a commit
built from those reads is the whole transaction. `PaymentSchedules` and `PaymentInterleavings` conclude, for every
schedule of any number of threads, that it leads to the tables of a run of whole transactions in the order of their
commits, although initiation and callbacks on one order share no lock; so the promises above hold of interleavings.
The locks never deadlock. `PaymentRaces` has the two schedules in which what a thread read is overtaken, harmlessly.

**Prerequisites and import.** `PrerequisiteGraph` has the depth-first search as it runs, proved exact on every finite
edge list, and the theory of acyclic graphs. `ImportParser`, `ImportValidator` and `ImportApply` are the parser's
identity checks, the resolver and the batch writer with their loops; `ImportAcceptance` says exactly when a package is
accepted, and `ImportApply` that what is then written is the plan, with the announced counts and without a cycle, under
whatever ids the database gives. `ImportFaults` and `ImportEffects` say the same on the package and the rows alone: which
faults are reported, and exactly which rows, mappings and edges are written. `ImportService` goes from the raw package to
the written batch, and `Curriculum` puts the import beside ordinary authoring in runs over all subjects;
`CurriculumEffects` has the answers and writes of each authoring call.
`CanonicalJson` and `CanonicalJsonReader` are the canonical text of a document and a reader that inverts it.

**Drafts and assessments.** `DraftRevision` has the compare-and-swap token and the two-phase reorder of a revision.
`AssessmentModel`, `AssessmentInvariants`, `AssessmentRuns`, `AssessmentReadiness` and `AssessmentService` are the
lifecycle of assessment versions, the publish gate and the runtime that relies on it; `AssessmentTheorems` draws the
promises from them for every run, and `AssessmentEffects` states each transaction's answers and writes on the rows.

**Arithmetic and progress.** `CalendarMonth` adds calendar months over the day numbers of section 21.4.1 of ECMA-262,
`PlacementBands` rounds weighted means, `Roadmap` derives availability and the action of the day.

## How it is built

State that the source changes in place is a class whose methods leave it exactly as a specification function does; the
theorems are about those functions, so they hold of the methods. What a function decides and writes is stated once more
without it, as relations between the rows before and after (the lemmas named `...Answers`, `...Exactly`, `...Effect`), so
that neither can change unnoticed. A transaction that throws returns an error and leaves
the state as it was. Clocks, fresh ids, the order of returned rows and the results of foreign parsers are parameters.
Rows that are never deleted have their position as id. Unique indexes are reject branches, or facts that the runs are
proved never to violate.

## What does not hold

- The guard on the order amount in the success callback (src/payments/payments.repository.ts:187) looks redundant: an
  attempt is created at the payable of its order. It can fire: an attempt fails, its order is reopened and discounted,
  and the provider then reports the old attempt paid. `PaymentTheorems.OrderAmountMismatchHappens` gives the run and
  `OrderAmountMismatchExactly` the exact condition; for a live attempt the guard never fires.
- Adding calendar months does not keep the order of instants when both days are cut back to the end of a month
  (`CalendarMonth.MonotoneFails`); `MonotoneInStart` says exactly when it does, and days always keep their order.
- A reopening can see a CREATED order with a PENDING attempt (`PaymentRaces.CreatedWithPendingIsSeen`), exactly when an
  initiation moves the order to PENDING between its two reads (`PaymentInterleavings.CreatedWithPendingExactly`). It
  then answers the integrity error (`AnswerAfterCreated`) and writes nothing (`CreatedReopensNothing`); the tables are
  never in that state, and a whole transaction never gives that answer (`PaymentTheorems.ReopenAnswers`).
- A commit is not always the whole transaction of its thread. A success reported for a FAILED or CANCELLED attempt may be
  refused, and logged, for a reason that a discount committed since its read has overtaken
  (`PaymentRaces.RefusalIsOvertaken`). That is the only exception (`PaymentInterleavings.EveryCommitIsItsTransaction`),
  `DecisionIsCurrent` says exactly when it arises, and the refusal itself stands.

## Model

| member | source | states |
|---|---|---|
| `CalendarMonth.AddShiftsMonth` | src/common/calendar-month.ts:9-20 | adding months lands in the target month on the same day, cut back to its last day, at the same time of day, with the remapping of years 0 to 99 by `Date.UTC` included |
| `CalendarMonth.PeriodLength` | src/common/calendar-month.ts:9-20 | adding m months moves an instant by at least 28m and at most 31m days |
| `CalendarMonth.MonotoneInStart` | src/common/calendar-month.ts:9-20 | the later start never ends on an earlier day; the instants keep their order exactly unless both days are cut back to the same day with the times of day in reverse |
| `CalendarMonth.MonotoneFails` | src/common/calendar-month.ts:9-20 | two starts in order whose ends are not: the order of instants is not kept in general |
| `CalendarMonth.StrictInMonths` | src/common/calendar-month.ts:9-20 | more months end strictly later |
| `CalendarMonth.TwoSteps` | src/common/calendar-month.ts:9-20 | adding a and then b months is never later than adding a + b, equal exactly when the first step did not cut the day below what the last month allows, in particular for days up to 28 |
| `CalendarMonth.TwoStepsCanBeEarlier` | src/common/calendar-month.ts:9-20 | a start for which two steps end strictly earlier than one |
| `CalendarMonth.EndsAfterStart` | src/common/calendar-month.ts:9-20 | a period of at least one month ends after it starts, in every year |
| `CalendarMonth.Decompose` | src/common/calendar-month.ts:9-20 | the month number and the day of the month of a date are its day number |
| `CalendarMonth.DecomposeUnique` | src/common/calendar-month.ts:9-20 | a day number determines its month and day |
| `PaymentRepositories.ResolveOrCreateAttempt` | src/payments/payments.repository.ts:84-115 | initiation: replay of a request, eligibility guards in order, one PENDING attempt at the payable of the order; equal to the transaction the runs are made of |
| `PaymentRepositories.AttachProviderInit` | src/payments/payments.repository.ts:119-130 | the external id is attached once, to a PENDING attempt, and only if no other attempt has it |
| `PaymentRepositories.BindProviderTransaction` | src/payments/payment-provider-binding.repository.ts:32-63 | the guarded binding of an external id and all its refusals; equal to the transaction of `PaymentEffects.BindAnswers` |
| `PaymentRepositories.RejectCallback` | src/payments/payments.repository.ts:231-241 | a refused callback is logged with its reason and changes nothing else |
| `PaymentRepositories.RecordVerifiedCallback` | src/payments/payments.repository.ts:164-228 | the success callback: replay, eleven guards in order, and the accepted transition; equal to the transaction whose answers and writes `PaymentEffects.SuccessAnswers` gives on the rows |
| `PaymentRepositories.RecordTerminalNonSuccess` | src/payments/payments.repository.ts:278-331 | the terminal callback: replay, guards, and the accepted transition with its reason code; equal to the transaction of `PaymentEffects.TerminalAnswers` |
| `PaymentRepositories.RecordRejectionStandalone` | src/payments/payments.repository.ts:258-266 | a rejection logged on its own after a rollback, unless the event has been logged meanwhile |
| `PaymentRepositories.ReopenOrder` | src/payments/payment-order-reopen.repository.ts:32-69 | the reopen decision table; only a PENDING order without live attempt goes back to CREATED; equal to the transaction of `PaymentEffects.ReopenEffect` |
| `PaymentRepositories.FinalizePayment` | src/payments/payment-finalization.repository.ts:39-153 | finalization: replay of a PAID order, integrity guards, the ACTIVE subscription conflict, and the whole multi-table commit; equal to the transaction whose answers and rows `PaymentPurchase` gives |
| `PaymentRepositories.ResolveSubscription` | src/payments/payment-finalization.repository.ts:96-110 | the subscription and the cycle number: a new one at 1, or the lapsed one at its next |
| `PaymentRepositories.PostDiscount` | src/payments/payment-finalization.repository.ts:138-146 | the debit of a discounted order, its consumed hold and its applied redemption |
| `PaymentRepositories.PostFinalization` | src/payments/payment-finalization.repository.ts:96-149 | the writes of one finalization in their order; the rows it leaves are those of `PaymentPurchase.PaidSubscription`, `PaidCycle` and `PaidOrder` |
| `PaymentModel.TerminalNames` | src/payments/payments.repository.ts:318 | an accepted terminal result names the status it led to, whatever its reason code |
| `PaymentModel.OthersNameNothing` | src/payments/payments.repository.ts:231-256 | no rejection code and no duplicate reads as an acceptance |
| `PaymentRuns.KeepStep` | src/payments/payment-finalization.repository.ts:61-153 | each of the fourteen kinds of transaction keeps the invariant of all eight tables |
| `PaymentRuns.ReachableInv` | src/payments/payments.repository.ts:84-331 | the invariant holds in every state of every run from empty tables |
| `PaymentHistory.RunIsLater` | src/payments/payments.repository.ts:119-228 | over any run external ids are write-once, decided attempts and logged events are final, a purchase is never re-targeted, PAID orders and applied redemptions never change, cycles and ledger entries are only appended |
| `PaymentTheorems.AttemptSafety` | src/payments/payments.repository.ts:84-228 | an order has at most one live attempt, a CREATED order none, a PAID order a SUCCEEDED one; a live attempt is for the payable of its order |
| `PaymentTheorems.DefensiveGuardsNeverFire` | src/payments/payments.repository.ts:187-205 | the guards on order state and on another success never fire, and the guard on the amount not for a live attempt |
| `PaymentTheorems.OrderAmountMismatchExactly` | src/payments/payments.repository.ts:187 | the amount guard fires exactly for a terminal attempt of an order re-priced since |
| `PaymentTheorems.OrderAmountMismatchHappens` | src/payments/payments.repository.ts:187 | a reachable state in which the amount guard fires |
| `PaymentTheorems.ReopenAnswers` | src/payments/payment-order-reopen.repository.ts:47-69 | which answer a reopening gives in every reachable state; CREATED with a PENDING attempt, and any other order state, are never among them |
| `PaymentTheorems.ThreeClasses` | src/payments/payment-reopen-recovery.repository.ts:11-17 | a PENDING order is in exactly one of: in flight, finalization backlog, reopen backlog |
| `PaymentTheorems.StatusIsTheLog` | src/payments/payments.repository.ts:164-331 | an attempt is PENDING exactly when no accepted event is logged for it, else it has the status named by its only accepted event |
| `PaymentTheorems.DeliveredIsLogged` | src/payments/payments.repository.ts:164-331 | after any callback its event is logged and the answer can be read back from the log |
| `PaymentTheorems.Redelivery` | src/payments/payments.repository.ts:172-174 | delivering an event again, after any further run and with any other content, writes nothing and answers the same |
| `PaymentTheorems.FinalizeOutcome` | src/payments/payment-finalization.repository.ts:61-153 | finalizing a SUCCEEDED attempt replays, or conflicts with an ACTIVE subscription and changes nothing, or pays the order; no integrity error is reachable |
| `PaymentTheorems.FinalizedFacts` | src/payments/payment-finalization.repository.ts:148-165 | what the answer of a finalization says of the tables |
| `PaymentTheorems.FinalizeReplays` | src/payments/payment-finalization.repository.ts:156-165 | finalizing again after any further run writes nothing and names the same order, user, subscription and cycle |
| `PaymentTheorems.PaidIffOneCycle` | src/payments/payment-finalization.repository.ts:115-149 | an order is PAID exactly when a cycle names it, only one does, it ends after it starts, belongs to the buyer and carries the paid amounts |
| `PaymentTheorems.OneOpenSubscription` | src/payments/payment-finalization.repository.ts:96-110 | a user has at most one ACTIVE or EXPIRED subscription |
| `PaymentTheorems.CycleNumbers` | src/payments/payment-finalization.repository.ts:102-110 | the cycles of a subscription carry the numbers 1 to n in order, each once |
| `PaymentTheorems.LedgerNumbered` | src/payments/payment-finalization.repository.ts:138-143 | the entries of a user carry the numbers 1 to n in order, each once, and the sum of the amounts up to them |
| `PaymentTheorems.AppliedIffRedeemed` | src/payments/payment-finalization.repository.ts:138-146 | a redemption is APPLIED exactly when the ledger debits it, then once, by minus its amount, with its hold CONSUMED and its order PAID |
| `PaymentTheorems.FinalizeConserves` | src/payments/payment-finalization.repository.ts:138-146 | finalization leaves the balance minus the ACTIVE holds of every user unchanged |
| `PaymentEffects.SuccessAnswers` | src/payments/payments.repository.ts:164-228 | every answer to a success new to the log, in any state, with the rows that lead to it and what it writes: the code logged, or the attempt SUCCEEDED, confirmed and with its external id, and no other row changed |
| `PaymentEffects.SuccessIsAcceptedExactly` | src/payments/payments.repository.ts:164-228 | in every reachable state a success new to the log is accepted exactly when its attempt is PENDING, provider, amount and currency are those of the attempt and its order, and its external id is given and free |
| `PaymentEffects.TerminalAnswers` | src/payments/payments.repository.ts:278-331 | every answer to a failure or cancellation new to the log, in any state, with the rows that lead to it and what it writes |
| `PaymentEffects.TerminalIsAcceptedExactly` | src/payments/payments.repository.ts:278-331 | in every reachable state a failure or cancellation new to the log is accepted exactly when its attempt is PENDING and what it names agrees |
| `PaymentEffects.RejectionIsLogged` | src/payments/payments.repository.ts:258-266 | a rejection logged on its own adds one log entry, or nothing when the event is there |
| `PaymentEffects.InitiateReplays` | src/payments/payments.repository.ts:84-115 | a repeated request is answered with the attempt it made, or as a conflict of providers, and writes nothing |
| `PaymentEffects.InitiateAnswers` | src/payments/payments.repository.ts:84-115 | every answer to a first request, in any state: which order is not eligible and why, or the attempt added with its provider, request and amount and the order turned PENDING, no other row changed |
| `PaymentEffects.InitiateSucceedsExactly` | src/payments/payments.repository.ts:84-115 | in every reachable state a first request makes an attempt exactly when the order is the user's, CREATED, unexpired and not free |
| `PaymentEffects.AttachInitEffect` | src/payments/payments.repository.ts:119-130 | the id is attached exactly to a PENDING attempt without one, when no other attempt of the provider has it; nothing else changes |
| `PaymentEffects.BindAnswers` | src/payments/payment-provider-binding.repository.ts:32-63 | every answer to a binding, with the rows that lead to it; only a successful one writes, one row |
| `PaymentEffects.ReopenEffect` | src/payments/payment-order-reopen.repository.ts:32-69 | every answer of a reopening in any state; only a PENDING order without live attempt changes, in its status |
| `PaymentEffects.CreateOrderEffect` | src/payments/payments.repository.ts:54-70 | an order is created at its price, undiscounted and CREATED |
| `PaymentEffects.CreateRedemptionEffect` | src/finance/redemption/redemption.repository.ts:91-141 | IZL is reserved exactly for an open undiscounted order without an open redemption, for at most a fifth of its gross price and within what the user can spend |
| `PaymentEffects.CommitDiscountEffect` | src/finance/redemption/redemption.repository.ts:51-84 | a reserved discount is priced into its order exactly when that is CREATED, undiscounted and unexpired and the discount is at most a fifth of its gross price |
| `PaymentEffects.ReleaseEffect` | src/finance/redemption/redemption.repository.ts:149-172 | a release frees the redemption and its hold and gives a CREATED order its full price back; a later order blocks it |
| `PaymentEffects.EarnEffect` | src/finance/reward/reward.repository.ts:88-97 | an earning adds one entry, numbered after the user's others and with the running balance |
| `PaymentPurchase.FinalizeAnswers` | src/payments/payment-finalization.repository.ts:39-98 | every answer of a finalization that is not a replay, in any state, with the rows that lead to it; only a commit writes |
| `PaymentPurchase.ReplayAnswers` | src/payments/payment-finalization.repository.ts:156-165 | a PAID order answers with its own cycle and subscription exactly when its rows belong together, and writes nothing |
| `PaymentPurchase.PaidSubscription` | src/payments/payment-finalization.repository.ts:96-136 | in every reachable state a commit leaves the subscription ACTIVE, of the buyer and the plan bought, with the new cycle current; new and started at the confirmation exactly when the buyer had none open, else his lapsed one; no other subscription changes |
| `PaymentPurchase.PaidCycle` | src/payments/payment-finalization.repository.ts:102-134 | a commit adds one cycle: the next of the subscription, from the confirmation on for the months of the price, with the plan, price and amounts of the order |
| `PaymentPurchase.PaidOrder` | src/payments/payment-finalization.repository.ts:138-149 | a commit turns the order PAID and, for a discounted one, debits exactly its redemption, consumes its hold and applies it; prices, attempts and the log stay |
| `PaymentLimits.OneAttemptPerRequest` | src/payments/payments.repository.ts:84-115 | in every reachable state a request for an order has made at most one attempt |
| `PaymentLimits.DiscountIsLimited` | src/finance/redemption/subscription-discount-redemption.policy.ts:8-14 | in every reachable state an order is at its gross price less a discount of at most a fifth of it |
| `PaymentLimits.NeverOverspent` | src/finance/redemption/redemption.repository.ts:118-128 | in every reachable state the ACTIVE holds of a user are covered by his ledger balance |
| `PaymentCallbacks.ProcessProviderCallback` | src/payments/payment-callback.service.ts:31-79 | a malformed event changes nothing; otherwise the event is recorded and the bridge of its kind runs on what was recorded |
| `PaymentCallbacks.SuccessPays` | src/payments/payment-callback.service.ts:42-50 | a newly accepted success pays the order end to end, unless the buyer has an ACTIVE subscription; in both cases he has one afterwards |
| `PaymentCallbacks.FailureReopens` | src/payments/payment-callback.service.ts:52-61 | a newly accepted failure or cancellation reopens the order end to end |
| `PaymentCallbacks.BridgeSettles` | src/payments/payment-callback.service.ts:42-61 | after any recorded answer the bridge leaves the order of a SUCCEEDED attempt PAID or its buyer with an ACTIVE subscription, and that of a failed one not stuck; otherwise it writes nothing |
| `PaymentRecovery.ReopenBacklogItems` | src/payments/payment-reopen-recovery.repository.ts:42-72 | the oldest stuck orders, as many as the limit allows, each with its latest terminal attempt |
| `PaymentRecovery.ReconcileReopen` | src/payments/payment-reopen-recovery.service.ts:66-97 | an undisturbed pass reopens exactly the stuck orders with fewer older ones than the clamped limit, sets them CREATED and changes nothing else |
| `PaymentRecovery.ReopenShrinks` | src/payments/payment-order-reopen.repository.ts:47-69 | reopening a stuck order removes it from the backlog and changes nothing else there |
| `PaymentRecovery.ReconcileFinalization` | src/payments/payment-finalization-recovery.service.ts:64-99 | an undisturbed pass works the earliest confirmations within the clamped limit and no others; each leaves the backlog, counted, or its buyer has an ACTIVE subscription |
| `PaymentRecovery.FinalizeShrinks` | src/payments/payment-finalization.repository.ts:39-153 | finalizing a backlog item removes it alone, or changes nothing at all |
| `PaymentRecovery.BlockedOnlyByActive` | src/payments/payment-finalization.repository.ts:96-98 | a backlog item is finalized exactly when its buyer has no ACTIVE subscription |
| `PaymentRecovery.StuckExactly` | src/payments/payment-reopen-recovery.repository.ts:11-17 | in every reachable state the reopen backlog is exactly the PENDING orders without a live attempt |
| `PaymentRecovery.UnfinalizedExactly` | src/payments/payment-finalization-recovery.repository.ts:6 | in every reachable state the finalization backlog is exactly the SUCCEEDED attempts of orders not PAID |
| `PaymentRely.StepKeeps` | src/payments/payment-finalization.repository.ts:50-54 | a transaction leaves alone what is protected by each lock it does not hold, and never the price of an order that is not CREATED |
| `PaymentReads.ProcStable` | src/payments/payments.repository.ts:84-331 | what a thread has read under its locks still holds after the commit of any thread that does not hold them |
| `PaymentCommits.InitCommit` | src/payments/payments.repository.ts:87-104 | an initiation built from rows read earlier meets no unique index and writes the whole transaction |
| `PaymentCommits.DecisionHolds` | src/payments/payments.repository.ts:183-211 | the decision of a callback on the rows it read is that of the whole transaction at its commit, exactly unless a success of a terminal attempt is refused for an amount overtaken since, or an accepted write meets the unique index of external ids |
| `PaymentCommits.FinCommit` | src/payments/payment-finalization.repository.ts:56-149 | the rows a finalization writes from its reads are those of the whole transaction at its commit |
| `PaymentSchedules.KeepAdvance` | src/payments/payments.repository.ts:84-331 | one statement of any thread keeps the tables, what every thread has read, and the locks; it writes nothing, the whole transaction of its thread, or an overtaken refusal |
| `PaymentInterleavings.EverySchedule` | src/payments/payment-finalization.repository.ts:50-54 | the invariant holds along every schedule of any number of threads |
| `PaymentInterleavings.EveryScheduleIsARun` | src/payments/payments.repository.ts:84-331 | every schedule of statements leads to the tables of a run of whole transactions, in the order of the commits |
| `PaymentInterleavings.EveryScheduleIsReachable` | src/payments/payments.repository.ts:84-331 | so no interleaving reaches tables that whole transactions do not reach |
| `PaymentInterleavings.EveryCommitIsItsTransaction` | src/payments/payments.repository.ts:84-331 | each commit is the whole transaction of its thread, or logs the refusal of a success whose amount has been overtaken |
| `PaymentInterleavings.EveryScheduleIsLater` | src/payments/payments.repository.ts:119-228 | along every schedule external ids, decisions, the log, PAID orders, cycles and the ledger are never rewritten |
| `PaymentInterleavings.SafeInterleavings` | src/payments/payments.repository.ts:84-331 | in every interleaving an order has at most one live attempt, a CREATED one none, a PAID one a SUCCEEDED one, and live amounts equal the payable |
| `PaymentInterleavings.SafeSubscriptions` | src/payments/payment-finalization.repository.ts:96-149 | in every interleaving an order is PAID exactly when one cycle names it, a user has at most one open subscription, and its cycles carry 1 to n |
| `PaymentInterleavings.SafeMoney` | src/payments/payment-finalization.repository.ts:138-146 | in every interleaving each ledger is numbered 1 to n with its prefix sums, and redemptions are APPLIED exactly when debited |
| `PaymentInterleavings.CallbackGuardsNeverFire` | src/payments/payments.repository.ts:187-205 | on the rows a callback has read, the amount guard never fires for a live attempt, the guards on order state and other success never for a PENDING one |
| `PaymentInterleavings.DecisionIsCurrent` | src/payments/payments.repository.ts:183-211 | at every moment a decided callback agrees with the whole transaction, exactly unless one of the two exceptions holds |
| `PaymentInterleavings.InitiationNeverCollides` | src/payments/payments.repository.ts:97-114 | when an initiation commits there is no other PENDING attempt or attempt of its request, and the order is as it read it |
| `PaymentInterleavings.FinalizationIsCurrent` | src/payments/payment-finalization.repository.ts:40-149 | whether an order is discounted, read before any lock is held, stays right while the attempt is live; at the commit every guard passed would pass again and the writes are those of the whole transaction |
| `PaymentInterleavings.ReopenIsSafe` | src/payments/payment-order-reopen.repository.ts:49-69 | a reopening that decided to reopen finds no live attempt when it writes |
| `PaymentInterleavings.CreatedWithPendingExactly` | src/payments/payment-order-reopen.repository.ts:47-60 | a reopening that read its order CREATED counts a PENDING attempt exactly when the order has been moved to PENDING since |
| `PaymentInterleavings.AnswerAfterCreated` | src/payments/payment-order-reopen.repository.ts:54-62 | after reading CREATED the answer is the integrity error exactly when a PENDING attempt was counted, else that the order is already reopened |
| `PaymentInterleavings.CreatedReopensNothing` | src/payments/payment-order-reopen.repository.ts:57-62 | after reading CREATED a reopening changes no row |
| `PaymentInterleavings.NoDeadlock` | src/payments/payment-finalization.repository.ts:50-54 | while any transaction is under way, one can take its next step: the lock order sub, pay, izl admits no deadlock |
| `PaymentRaces.CreatedWithPendingIsSeen` | src/payments/payment-order-reopen.repository.ts:57-60 | a schedule in which a reopening sees a CREATED order with a PENDING attempt |
| `PaymentRaces.RefusalIsOvertaken` | src/payments/payments.repository.ts:186-200 | a schedule in which a late success of a FAILED attempt is refused for a reason a discount has overtaken |
| `PrerequisiteGraph.Adjacency` | src/content-authoring/prerequisite-graph.ts:14-19 | the adjacency map lists exactly the edges |
| `PrerequisiteGraph.HasPath` | src/content-authoring/prerequisite-graph.ts:12-30 | terminates on every finite edge list and is true exactly when a path exists |
| `PrerequisiteGraph.WouldCreatePrerequisiteCycle` | src/content-authoring/prerequisite-graph.ts:37-40 | true exactly when a path leads from the prerequisite back to the lesson |
| `PrerequisiteGraph.GuardIsExact` | src/content-authoring/prerequisite-graph.ts:32-40 | on an acyclic graph the guard is true exactly when adding the edge makes it cyclic |
| `PrerequisiteGraph.AcyclicUnderRenaming` | src/content-import/import-validator.ts:31 | a graph carried edge by edge into an acyclic one is acyclic |
| `PrerequisiteGraph.AcyclicByParts` | src/content-authoring/prerequisite.repository.ts:24-31 | when no edge leaves its subject, the whole graph is acyclic exactly when each subject is |
| `Curriculum.CurriculumTables.AddPrerequisite` | src/content-authoring/prerequisite.service.ts:39-69 | all refusals in order, the no-op on an existing edge, the cycle check on one subject, the token and the edge; equal to the transaction of `CurriculumEffects.AddAnswers` |
| `Curriculum.CurriculumTables.RemovePrerequisite` | src/content-authoring/prerequisite.service.ts:71-87 | all refusals in order, the no-op on a missing edge, the token and the removal; equal to the transaction of `CurriculumEffects.RemoveAnswers` |
| `Curriculum.CurriculumTables.MoveLesson` | src/content-authoring/hierarchy.service.ts:263-279 | a DRAFT lesson moves to a topic of its own subject only; equal to the transaction of `CurriculumEffects.MoveAnswers` |
| `Curriculum.CurriculumTables.EdgesForSubject` | src/content-authoring/prerequisite.repository.ts:24-31 | exactly the edges whose source lesson is in the subject |
| `Curriculum.CurriculumTables.ApplyImport` | src/content-import/import.service.ts:98-134 | a raw package is imported exactly when it is within the limits, good, and fits the subject; then the tables hold its rows and stay sound, else they stay as they were |
| `Curriculum.WholeIsAcyclicExactly` | src/content-authoring/prerequisite.repository.ts:24-31 | the graph of all subjects is acyclic exactly when that of each is |
| `Curriculum.EverySubjectIsAcyclic` | src/content-authoring/prerequisite.service.ts:39-87 | whatever runs from empty tables, the graph of each subject and that of all are acyclic |
| `Curriculum.RefusalIsExact` | src/content-authoring/prerequisite.service.ts:57-58 | an edge is refused as a cycle exactly when it would close one in the graph of all subjects, though one subject is checked |
| `Curriculum.KeepImport` | src/content-import/import.service.ts:107-122 | an import keeps every edge inside one subject and the graph of all subjects acyclic |
| `Curriculum.EveryRun` | src/content-authoring/prerequisite.service.ts:39-87 | every run of adding, removing, moving, importing and publishing keeps each edge inside one subject and the whole graph acyclic |
| `Curriculum.EveryEdgeIsSound` | src/content-authoring/prerequisite.service.ts:39-69 | whatever runs from empty tables, an edge joins lessons of one subject and nothing leads from its end back to its start |
| `CurriculumEffects.AddAnswers` | src/content-authoring/prerequisite.service.ts:39-69 | every answer to adding a prerequisite, with the rows that lead to it: refused as a cycle exactly when it closes one in the graph of all subjects; done, it adds that edge and moves the token of its lesson, and nothing else |
| `CurriculumEffects.RemoveAnswers` | src/content-authoring/prerequisite.service.ts:71-87 | every answer to removing a prerequisite: done, exactly that edge goes and only its lesson's token moves |
| `CurriculumEffects.MoveAnswers` | src/content-authoring/hierarchy.service.ts:263-279 | every answer to a move: done within the own subject, it changes the topic and token of that lesson and nothing else |
| `CurriculumEffects.AddAndRemove` | src/content-authoring/prerequisite.service.ts:39-87 | removing an edge just added gives back the edges there were |
| `ImportParser.NormRefList` | src/content-import/import-parser.ts:228-251 | the result has no duplicate and only well-formed references; no issue exactly when the list is absent, or short enough with distinct well-formed items, which are then all kept |
| `ImportParser.ParseSkills` | src/content-import/import-parser.ts:51-65 | no issue exactly when every skill is good and codes and names are distinct; then every skill is kept |
| `ImportParser.ParseLessons` | src/content-import/import-parser.ts:67-77 | no issue exactly when every lesson is good and content keys are distinct; then every lesson is kept |
| `ImportParser.ParseImportDocument` | src/content-import/import-parser.ts:32-100 | refused exactly when over a limit, on the lists given and on what is kept of the lessons; else parsed, with no issue exactly when the whole package is good, and then every entity is kept and the plan is tidy |
| `ImportValidator.CheckSkills` | src/content-import/import-validator.ts:57-76 | the issues, the reused ids and the number to create for the declared skills |
| `ImportValidator.ResolveSkillRef` | src/content-import/import-validator.ts:78-87 | one skill reference: declared, reused, missing or archived |
| `ImportValidator.ResolveRequirement` | src/content-import/import-validator.ts:107-134 | one prerequisite: its target node or its issue, and the cycle check on the accumulated graph |
| `ImportValidator.ResolveAndValidate` | src/content-import/import-validator.ts:38-147 | the issues in their order, the resolution maps and the summary |
| `ImportAcceptance.RequirementsExact` | src/content-import/import-validator.ts:102-134 | the accumulated graph stays acyclic, and no requirement is refused exactly when all targets resolve and all proposed edges together close no cycle |
| `ImportAcceptance.AcceptedExactly` | src/content-import/import-validator.ts:38-147 | no issue exactly when content keys are free, skills and references fit, targets resolve, and existing and proposed edges together are acyclic |
| `ImportWriter.ChunkedCreate` | src/content-import/import.service.ts:254-257 | inserting in chunks of 1000 inserts exactly the rows in order |
| `ImportWriter.ChunkedCreateReturning` | src/content-import/import.service.ts:258-263 | chunked inserts return every row once with its own id |
| `ImportWriter.PersistSkills` | src/content-import/import.service.ts:147-156 | reused skills keep their id, created ones get theirs, and every declared code has one |
| `ImportWriter.MissingIsCreated` | src/content-import/import.service.ts:147-149 | a declared skill is missing from the resolution exactly when the dry run counted it as to be created |
| `ImportBatch.RowCounts` | src/content-import/import-validator.ts:89-100 | the numbers of activity and mapping rows are the numbers of the summary |
| `ImportBatch.LessonsCovered` | src/content-import/import.service.ts:205-222 | when every visited reference has an id, so has every code looked up for a lesson or activity |
| `ImportBatch.ActivityKeys` | src/content-import/import.service.ts:181-203 | the keys by which activity ids are correlated are distinct |
| `ImportApply.PersistActivities` | src/content-import/import.service.ts:181-203 | every activity of the plan is written once, with its revision and position, and found again by them |
| `ImportApply.PersistLessonSkills` | src/content-import/import.service.ts:205-211 | one mapping per skill code of each lesson, between the ids of both; which they are is `ImportEffects.LessonSkillsExactly` |
| `ImportApply.PersistActivitySkills` | src/content-import/import.service.ts:213-222 | one mapping per skill code of each activity, between the ids of both; which they are is `ImportEffects.ActivitySkillsExactly` |
| `ImportApply.PersistPrerequisites` | src/content-import/import.service.ts:224-231 | one edge per requirement, to the lesson of the batch or else the existing one |
| `ImportApply.PersistBatch` | src/content-import/import.service.ts:141-251 | every id lookup is defined, the rows are those of the plan, and the counts are those of the summary; which rows, mappings and edges these are is stated on the package by `ImportEffects` |
| `ImportApply.WrittenIsProposed` | src/content-import/import.service.ts:224-231 | an edge written under real ids is the edge the dry run checked on synthetic nodes |
| `ImportApply.WrittenGraphAcyclic` | src/content-import/import.service.ts:224-231 | existing and written edges together are acyclic, for every plan and every distinct fresh ids |
| `ImportApply.PrimaryIssue` | src/content-import/import.service.ts:23-26 | the answered issue is the first conflict, else the first issue |
| `ImportApply.Apply` | src/content-import/import.service.ts:98-134 | refused exactly when parser or resolver has an issue, and then for the primary one; else the whole plan is written with the announced counts and without a cycle |
| `ImportFaults.FaultsAreReported` | src/content-import/import-validator.ts:38-147 | every fault of a package is reported at its place with its code, and what is reported is a fault there or a cycle |
| `ImportResolver.LastLessonCounts` | src/content-import/import-validator.ts:42 | of several lessons under one content key the last one counts |
| `ImportResolver.LastSkillCounts` | src/content-import/import-validator.ts:45-48 | of several skills under one code the last one counts, and an empty code is none |
| `ImportFaults.IssuesAreFaults` | src/content-import/import-validator.ts:38-147 | while no cycle closes, the reported issues are exactly the faults, stated on the package and the rows |
| `ImportFaults.ProposedExactly` | src/content-import/import-validator.ts:105-133 | the proposed edges are exactly those of the prerequisites of the package |
| `ImportFaults.ImportableExactly` | src/content-import/import-validator.ts:38-147 | a package can be imported exactly when it has no fault and its edges close no cycle with those of the subject |
| `ImportEffects.SkillsExactly` | src/content-import/import.service.ts:145-160 | the skills created are exactly the declared ones whose code and name the subject does not have, found again by code |
| `ImportEffects.ReusedExactly` | src/content-import/import.service.ts:145-156 | a code the subject has is written with the skill it stands for there, and no such skill is created |
| `ImportEffects.ReusedCount` | src/content-import/import-validator.ts:57-100 | the skills announced as reused are exactly those of the subject that the package names |
| `ImportEffects.LessonsExactly` | src/content-import/import.service.ts:162-179 | each lesson is one row and its first revision one more, numbered 1 |
| `ImportEffects.ActivitiesExactly` | src/content-import/import.service.ts:181-203 | the activity rows are exactly the activities of the package, each in the revision of its lesson at its position, found again by both |
| `ImportEffects.LessonSkillsExactly` | src/content-import/import.service.ts:205-211 | a lesson mapping is written exactly for each code of each lesson, between that lesson and the skill of the code |
| `ImportEffects.ActivitySkillsExactly` | src/content-import/import.service.ts:213-222 | an activity mapping is written exactly for each code of each activity, between that activity and the skill of the code |
| `ImportEffects.PrerequisitesExactly` | src/content-import/import.service.ts:224-231 | an edge is written exactly for each prerequisite, from the lesson to the new lesson under the key, else the existing one |
| `ImportService.ImportPackage` | src/content-import/import.service.ts:98-134 | a raw package is parsed and applied: imported exactly when within the limits, good, and fit for the subject; every entity is kept and written, without a cycle |
| `CanonicalJson.BeforeIsLexicographic` | src/content-import/import-contract.ts:107-113 | keys are ordered by the first code unit in which they differ, a proper prefix first |
| `CanonicalJson.PlainIsKept` | src/content-import/import-contract.ts:108 | text with nothing to escape is quoted as it is |
| `CanonicalJson.EscapesAre` | src/content-import/import-contract.ts:108 | other control characters and unpaired surrogates are escaped by four hexadecimal digits of lower case |
| `CanonicalJson.SortSorts` | src/content-import/import-contract.ts:107-113 | sorting lists each key once in ascending order |
| `CanonicalJson.AscendingUnique` | src/content-import/import-contract.ts:107-113 | an ascending list of keys is determined by its elements |
| `CanonicalJsonReader.StringBack` | src/content-import/import-contract.ts:107-113 | reading a quoted string gives it back, unpaired surrogates and control characters included |
| `CanonicalJsonReader.ReadsBack` | src/content-import/import-contract.ts:107-113 | reading the canonical text of a value gives the same value with its keys sorted |
| `CanonicalJsonReader.CanonicalTextIdentifies` | src/content-import/import-contract.ts:102-113 | two values have the same canonical text exactly when they are equal up to the order of object keys |
| `OptimisticTokens.NextToken` | src/content-authoring/optimistic-concurrency.ts:15-17 | the next token is greater than the quoted one and not before the clock |
| `DraftRevision.RevisionTable.Touch` | src/content-authoring/revision.repository.ts:46-57 | the conditional update: only with the expected status and token, and then the token advances |
| `DraftRevision.RevisionTable.Claim` | src/content-authoring/activity.service.ts:133-141 | the claim of a draft revision and its two refusals |
| `DraftRevision.RevisionTable.CreateActivity` | src/content-authoring/activity.service.ts:55-69 | claim, unique position, insertion; rolled back on a taken position |
| `DraftRevision.RevisionTable.DeleteActivity` | src/content-authoring/activity.service.ts:95-112 | claim and removal; rolled back when a foreign key forbids it |
| `DraftRevision.RevisionTable.RewritePositions` | src/content-authoring/activity.service.ts:125-127 | both phases of position writes, none refused by the unique index, end in the requested order |
| `DraftRevision.RevisionTable.ReorderActivities` | src/content-authoring/activity.service.ts:114-131 | exact-set validation, rollback on mismatch, else exactly the requested order |
| `DraftRevision.ExactSet` | src/content-authoring/activity.service.ts:118-124 | the check passes exactly when the request names each activity once |
| `DraftRevision.ReorderedOk` | src/content-authoring/activity.service.ts:125-127 | the activity at index i of the request has position i, and no other changes |
| `DraftRevision.EveryWriteKeepsDistinct` | src/content-authoring/activity.service.ts:125-127 | after every single write no two activities share a position |
| `DraftRevision.RunKeepsPositions` | src/content-authoring/activity.service.ts:55-131 | every run keeps positions distinct and non-negative |
| `DraftRevision.NoTokenTwice` | src/content-authoring/revision.repository.ts:46-57 | each success quotes the current token and leaves a greater one; no token succeeds twice, even if the clock goes back |
| `DraftRevision.QuotesPredecessor` | src/content-authoring/revision.repository.ts:46-57 | of two consecutive successes the second quoted the token the first left |
| `DraftRevision.CreateAnswers` | src/content-authoring/activity.service.ts:55-69 | every answer to creating an activity: done, it is at its position and nothing but the token of the revision changes beside it |
| `DraftRevision.EditAnswers` | src/content-authoring/activity.service.ts:71-93 | every answer to an edit: done, the activity has the new content at its old position |
| `DraftRevision.DeleteAnswers` | src/content-authoring/activity.service.ts:95-112 | every answer to a deletion: done, exactly that activity is gone; a foreign key blocks it |
| `DraftRevision.ReorderAnswers` | src/content-authoring/activity.service.ts:115-131 | every answer to a reorder: done exactly for a request that names each activity once, it puts activity i of the request at position i, contents unchanged |
| `DraftRevision.ShiftAnswers` | src/content-authoring/publish/publish.repository.ts:15-36 | a lifecycle step needs its status and the current token, and touches no activity |
| `AssessmentService.AssessmentTables.TouchDraftVersion` | src/assessment-authoring/assessment-authoring.repository.ts:77-80 | the guarded update of a DRAFT version token |
| `AssessmentService.AssessmentTables.TransitionVersion` | src/assessment-authoring/assessment-authoring.repository.ts:84-89 | the guarded lifecycle update |
| `AssessmentService.AssessmentTables.ArchiveVersion` | src/assessment-authoring/assessment-authoring.repository.ts:90-93 | the archiving of a PUBLISHED version |
| `AssessmentService.AssessmentTables.SetVersionItemsStatus` | src/assessment-authoring/assessment-authoring.repository.ts:94-97 | flips the items of one version that have the expected status, and no other |
| `AssessmentService.AssessmentTables.BumpVersion` | src/assessment-authoring/assessment-authoring.repository.ts:98-102 | the unconditional advance of a version token |
| `AssessmentService.AssessmentTables.CreateBlankVersion` | src/assessment-authoring/assessment-authoring.service.ts:125-138 | one editable version per definition, the next number, the default configuration |
| `AssessmentService.AssessmentTables.CloneCurrentVersion` | src/assessment-authoring/assessment-authoring.service.ts:140-163 | a copy of the current version under new ids at orderings 0, 1, ... |
| `AssessmentService.AssessmentTables.UpdateVersionConfig` | src/assessment-authoring/assessment-authoring.service.ts:167-177 | the merged configuration is validated and written under the token |
| `AssessmentService.AssessmentTables.AddItem` | src/assessment-authoring/assessment-authoring.service.ts:180-196 | item creation with its guards; ordering is the number of items |
| `AssessmentService.AssessmentTables.ChangeItem` | src/assessment-authoring/assessment-authoring.service.ts:199-212 | item update: one DRAFT owner, item token, version token advanced |
| `AssessmentService.AssessmentTables.RemoveItem` | src/assessment-authoring/assessment-authoring.service.ts:215-225 | item deletion: link first, rolled back when the token does not match |
| `AssessmentService.AssessmentTables.Reorder` | src/assessment-authoring/assessment-authoring.service.ts:228-240 | the exact set of items at orderings 0, 1, ... in the requested order; equal to the transaction of `AssessmentEffects.ReorderAnswers` |
| `AssessmentService.AssessmentTables.SubmitForReview` | src/assessment-authoring/assessment-authoring.service.ts:243-257 | DRAFT to REVIEW behind the readiness gate, items included |
| `AssessmentService.AssessmentTables.ReturnToDraft` | src/assessment-authoring/assessment-authoring.service.ts:260-270 | REVIEW to DRAFT, items included |
| `AssessmentService.AssessmentTables.PublishVersion` | src/assessment-authoring/assessment-authoring.service.ts:273-309 | REVIEW to PUBLISHED behind the gate, the previous version archived, the pointer moved |
| `AssessmentReadiness.Evaluate` | src/assessment-authoring/assessment-readiness.service.ts:51-168 | ready exactly when the version meets the gate; given a sound payload parser, refused exactly when a blocker is named |
| `AssessmentReadiness.ResolveCurrentDefinition` | src/assessment/assessment.service.ts:226-262 | resolves exactly when the subject has one published definition whose current version is fit to run, with its whole pool; not available exactly without a published version, misconfigured exactly when ambiguous or unfit |
| `AssessmentInvariants.GateImpliesRuntime` | src/assessment-authoring/assessment-readiness.service.ts:51-168 | the publish gate implies what the runtime asks |
| `AssessmentInvariants.VersionsAfterPublish` | src/assessment-authoring/assessment-authoring.service.ts:289-305 | publishing keeps one editable version per definition, and PUBLISHED exactly the current version |
| `AssessmentRuns.EveryRun` | src/assessment-authoring/assessment-authoring.service.ts:125-309 | every run keeps the invariant, and no version ever published changes its content |
| `AssessmentTheorems.VersionSafety` | src/assessment-authoring/assessment-authoring.service.ts:125-309 | in every state of every run a definition has at most one DRAFT or REVIEW version, and PUBLISHED is exactly its current one |
| `AssessmentTheorems.ItemsFollowVersions` | src/assessment-authoring/assessment-authoring.repository.ts:94-97 | in every state of every run each item is in exactly one version and has its status |
| `AssessmentTheorems.VersionNumbers` | src/assessment-authoring/assessment-authoring.service.ts:132 | in every state of every run the versions of a definition carry the numbers 1 to their count, each once, in order |
| `AssessmentTheorems.PublishedIsAccepted` | src/assessment/assessment.service.ts:226-262 | in every state of every run a published definition can be attempted |
| `AssessmentTheorems.StaysAccepted` | src/assessment/assessment.service.ts:226-262 | a published definition stays published and is never refused, along every run |
| `AssessmentTheorems.PublishedForever` | src/assessment-authoring/assessment-authoring.service.ts:289-305 | a version once published keeps its content and stays fit to run in every later state, archived or not |
| `AssessmentEffects.DefinitionAnswers` | src/assessment-authoring/assessment-authoring.service.ts:91-104 | a subject gets one definition, unpublished and without a version; asking again changes nothing |
| `AssessmentEffects.BlankAnswers` | src/assessment-authoring/assessment-authoring.service.ts:125-164 | every answer to creating a blank version: done, it has the next number and the default configuration and is the only change |
| `AssessmentEffects.CloneAnswers` | src/assessment-authoring/assessment-authoring.service.ts:125-164 | every answer to a clone: done, copy j of listed item j is in the new DRAFT version at ordering j with its override, every other row as it was |
| `AssessmentEffects.ConfigAnswers` | src/assessment-authoring/assessment-authoring.service.ts:167-178 | every answer to a configuration update: done exactly for a sane result, it replaces the settings given and no others |
| `AssessmentEffects.CreateItemAnswers` | src/assessment-authoring/assessment-authoring.service.ts:180-197 | every answer to creating an item, in every reachable state: done exactly for an objective item in scale on an active skill of the subject, it is added as given, after the items there are |
| `AssessmentEffects.UpdateItemAnswers` | src/assessment-authoring/assessment-authoring.service.ts:199-213 | every answer to an edit of an item, in every reachable state: done only in a DRAFT version, it replaces payload, skill and difficulty and moves both tokens |
| `AssessmentEffects.DeleteItemAnswers` | src/assessment-authoring/assessment-authoring.service.ts:215-226 | every answer to a deletion, in every reachable state: done only in a DRAFT version, the item and its one link go and no other row |
| `AssessmentEffects.UnknownItem` | src/assessment-authoring/assessment-authoring.service.ts:329-339 | an item that does not exist is not found |
| `AssessmentEffects.ReorderAnswers` | src/assessment-authoring/assessment-authoring.service.ts:228-241 | every answer to a reorder: done exactly for a request that names each item of the DRAFT version once, item i of it is at ordering i, overrides and other versions unchanged |
| `AssessmentEffects.GateIsPassed` | src/assessment-authoring/assessment-readiness.service.ts:51-168 | the publish gate on the rows: a sane configuration, items, each objective with options and a right one, in scale, on an active skill, enough per skill and not too many skills |
| `AssessmentEffects.RuntimeAsksPlayable` | src/assessment/assessment.service.ts:226-262 | the conditions of the learner runtime on the rows: a sane configuration, items, each objective and in scale, and not too many skills |
| `AssessmentEffects.SubmitAnswers` | src/assessment-authoring/assessment-authoring.service.ts:243-258 | every answer to a submission, in every reachable state: done exactly through the gate, version and items turn REVIEW |
| `AssessmentEffects.ReturnAnswers` | src/assessment-authoring/assessment-authoring.service.ts:260-271 | every answer to a return: done, version and items turn DRAFT |
| `AssessmentEffects.PublishAnswers` | src/assessment-authoring/assessment-authoring.service.ts:273-309 | every answer to a publication, in every reachable state: done exactly through the gate, the version turns PUBLISHED with its items and current, the one it replaces ARCHIVED, and nothing else changes |
| `AssessmentEffects.IncoherentIsRefused` | src/assessment-authoring/assessment-authoring.service.ts:289-294 | in any state a publication is refused as incoherent exactly when the current version is missing or of another definition |
| `PlacementBands.WeightedBand` | src/placement-v2/placement-v2.engine.ts:91-102 | the weighted mean to the nearest integer, half up; none without weight |
| `PlacementBands.NearestIsUnique` | src/placement-v2/placement-v2.engine.ts:101 | the nearest integer, half up, is unique |
| `PlacementBands.BandBetweenScores` | src/placement-v2/placement-v2.engine.ts:91-102 | a band lies between the least and the greatest positively weighted score |
| `PlacementBands.BandIgnoresOrder` | src/placement-v2/placement-v2.engine.ts:91-102 | a band does not depend on the order of the diagnostics |
| `PlacementBands.DomainBands` | src/placement-v2/placement-v2.engine.ts:104-118 | one band per listed domain, over exactly its diagnostics with enough evidence |
| `PlacementBands.OverallBand` | src/placement-v2/placement-v2.engine.ts:120-123 | the band over all diagnostics with enough evidence |
| `PlacementBands.OverallBetweenDomains` | src/placement-v2/placement-v2.engine.ts:104-123 | when every measured skill has a listed domain, the overall band lies between the least and the greatest domain band |
| `Roadmap.ComputeAvailability` | src/placement-v2/placement-v2.service.ts:202-210 | a point is AVAILABLE exactly when acquired or with all prerequisites acquired |
| `Roadmap.NeverStuckExactly` | src/learning-core/v2-roadmap.service.ts:98-113 | whatever a learner has acquired there is a next point: exactly when the prerequisite graph is acyclic and closed over the published points |
| `Roadmap.AlwaysAMainPoint` | src/daily-learning/daily-learning.policy.ts:29-31 | while a point is left to acquire, the main point of the day is one of them |
| `Roadmap.AvailabilityNeverShrinks` | src/learning-core/v2-roadmap.service.ts:103-113 | acquiring points never closes one that was open |
| `Roadmap.EveryLearnerFinishes` | src/daily-learning/daily-learning.policy.ts:27-31 | acquiring the main point each day acquires every point in exactly as many days as are left |
| `Roadmap.SelectMainPoint` | src/daily-learning/daily-learning.policy.ts:29-31 | the first learnable point in canonical order |
| `Roadmap.DeriveTodayAction` | src/daily-learning/daily-learning.policy.ts:38-51 | the first point in canonical order that needs repair, else the first due for review, else the pinned point when it can be learnt, else none |
| `Roadmap.TodayActionIsUnique` | src/daily-learning/daily-learning.policy.ts:38-51 | exactly one action fits |

## Left out

- Payments: the branches that catch a unique violation are part of the interleavings only; provider metadata; the reward configuration and the entitlement snapshot written with a cycle; reservations that belong to no redemption; the replay of a repeated redemption request; the Click and Payme protocol tables.
- Payments: signature verification and the provider adapters; runs start from verified events. Instants are whole milliseconds, and an invalid date has no value here.
- PaymentLocks: attaching the external id of an initiation, whose lock differs from that of callbacks, so write-once external ids hold of interleavings without it. The callback guards are evaluated after all reads. Callbacks name an attempt that exists. Creating an order, creating and releasing a redemption, earning and lapsing are one statement each, the last under the lock of the subscriber.
- PaymentRecovery.ReconcileReopen: the pass runs undisturbed by other transactions; the same holds of `ReconcileFinalization`. Limits are whole numbers.
- PaymentSteps.LapseSub: no writer of a lapsed or cancelled subscription is part of the repository's payment code; any such change is allowed at any time.
- PaymentLocks.LocksOf: lock keys are the keys themselves, not their hashes; a collision would only merge locks of one class.
- CalendarMonth.PeriodLength: for years from 100 on, as are the other theorems about order; `Date.UTC` reads the years 0 to 99 as 1900 to 1999, which `AddShiftsMonth` and `EndsAfterStart` cover.
- CanonicalJson: hashing the canonical text, `undefined` values, and the zero with a minus sign, which has the text of zero. Numbers are represented by their text.
- ImportParser: the syntax checks of fields that are only copied (unknown keys, descriptions, slugs, sort orders, durations) and the payload validator enter as their results.
- ImportWriter: `revision:position` keys are pairs; revision ids contain no colon. Timeouts, audit rows and the retry on a unique violation are not modelled.
- Curriculum: permissions, subject scope and audit rows. Publishing and taking down a lesson are any change of its status.
- DraftRevision: one revision at a time, with a content per activity; payload validation enters as its result. Lifecycle steps are the conditional update of the status with any endpoints.
- AssessmentModel: creating a version is one transaction, although the source reads the definition before it takes the lock; new item ids and the listed order of a clone are given by the database. Item payloads are what their parser makes of them.
- AssessmentService.AssessmentTables.CloneCurrentVersion: the list query and the fresh ids are preconditions, being answers of the database.
- PlacementBands: classification of skills and points and the level decision, which are single expressions. Scores, confidences and evidence are non-negative.
- Roadmap: attention is given; its derivation, generations of a roadmap and time zones are not modelled. Sessions and missing content stay the same while points are acquired.
- Controllers, configuration, seeding and provisioning scripts, daily missions, lesson attempts, the assistant and media.
