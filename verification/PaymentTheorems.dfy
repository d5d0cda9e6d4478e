/**
 What every run of the payment machine guarantees.
 Each theorem is about an arbitrary reachable state; the histories at the end compare two states of one run.
 */
module PaymentTheorems {
  import opened Basics
  import opened PaymentModel
  import opened PaymentSteps
  import opened PaymentInvariants
  import opened PaymentRuns
  import opened PaymentHistory

  // ---- orders and attempts ----

  /** The attempts an order in each status has, and the amount they were frozen at. */
  lemma AttemptSafety(db: Db)
    requires Reachable(db)
    ensures forall a, b :: 0 <= a < |db.attempts| && 0 <= b < |db.attempts| && Live(db.attempts[a].status)
                           && Live(db.attempts[b].status) && db.attempts[a].order == db.attempts[b].order
                           ==> a == b
    ensures forall a :: 0 <= a < |db.attempts| && Live(db.attempts[a].status) ==>
              && db.attempts[a].order < |db.orders|
              && !db.orders[db.attempts[a].order].status.OrderCreated?
              && db.attempts[a].amount == db.orders[db.attempts[a].order].payable
    ensures forall a :: 0 <= a < |db.attempts| && db.attempts[a].order < |db.orders|
                        && db.orders[db.attempts[a].order].status.OrderPaid?
                        ==> !db.attempts[a].status.AttemptPending?
    ensures forall o :: 0 <= o < |db.orders| && db.orders[o].status.OrderPaid? ==> HasStatus(db.attempts, o, Succeeded)
  {
    ReachableInv(db);
  }

  /**
   The guards of the success callback that restate the invariant: ORDER_STATE and SUCCESS_CONFLICT never fire, and
   ORDER_AMOUNT_MISMATCH never fires for a live attempt.
   */
  lemma DefensiveGuardsNeverFire(db: Db, v: VerifiedEvent)
    requires Reachable(db)
    ensures ForeignKeys(db)
    ensures var r := SuccessVerdict(db, v);
            r.Reject? ==> !r.why.OrderState? && !r.why.SuccessConflict?
                          && (v.attempt < |db.attempts| && Live(db.attempts[v.attempt].status) ==>
                                !r.why.OrderAmountMismatch?)
  {
    ReachableInv(db);
    hide PricesOk, LogOk, DiscountsOk, RedeemsOk, LedgerOk, SubsOk, CyclesOk, ExternalIdsOk, Reachable, ForeignKeys;
    if v.attempt < |db.attempts| {
      LiveAttempt(db, v.attempt);
      var pt := db.attempts[v.attempt];
      hide Inv, OrdersOk, AttemptsOk, OtherSucceeded, BroughtIsTaken, SuccessDecision, Live;
      GuardsPass(v, pt, db.orders[pt.order], OtherSucceeded(db.attempts, pt.order, v.attempt), BroughtIsTaken(db.attempts, v));
    }
  }

  lemma GuardsPass(v: VerifiedEvent, pt: Attempt, order: Order, other: bool, taken: bool)
    requires Live(pt.status) ==> pt.amount == order.payable
    requires pt.status.AttemptPending? ==> order.status.OrderPending? && !other
    ensures var r := SuccessDecision(v, pt, order, other, taken);
            r.Reject? ==> !r.why.OrderState? && !r.why.SuccessConflict? && (Live(pt.status) ==> !r.why.OrderAmountMismatch?)
  {
    hide Present;
  }

  /** A live attempt has its order's price; a PENDING one belongs to a PENDING order without another success. */
  lemma LiveAttempt(db: Db, a: Id)
    requires OrdersOk(db.prices, db.orders) && AttemptsOk(db.orders, db.attempts) && a < |db.attempts|
    ensures var pt := db.attempts[a];
            && pt.order < |db.orders|
            && (Live(pt.status) ==> pt.amount == db.orders[pt.order].payable)
            && (pt.status.AttemptPending? ==> db.orders[pt.order].status.OrderPending? && !OtherSucceeded(db.attempts, pt.order, a))
  {
  }

  /** ORDER_AMOUNT_MISMATCH fires exactly on a terminal attempt of an order that was re-priced since. */
  lemma OrderAmountMismatchExactly(db: Db, v: VerifiedEvent)
    requires Reachable(db) && v.attempt < |db.attempts|
    requires v.provider == db.attempts[v.attempt].provider && v.amount == Some(db.attempts[v.attempt].amount)
    ensures ForeignKeys(db)
    ensures SuccessVerdict(db, v) == Reject(Some(v.attempt), OrderAmountMismatch) <==>
            && Terminal(db.attempts[v.attempt].status)
            && db.orders[db.attempts[v.attempt].order].payable != db.attempts[v.attempt].amount
  {
    ReachableInv(db);
  }

  // A run in which ORDER_AMOUNT_MISMATCH fires: an attempt fails, its order is reopened and discounted, and the
  // provider then reports the old attempt paid.

  function RepricedPrices(): seq<Price> { [Price(0, 1000, "UZS", 1)] }

  function FailedAttemptEvent(): VerifiedEvent { VerifiedEvent(CLICK, "e", 0, None, None, None, None, 0) }

  function LateEvent(): VerifiedEvent { VerifiedEvent(CLICK, "late", 0, Some("x"), None, Some(1000), Some("UZS"), 0) }

  function PlainOrder(status: OrderStatus): Order {
    Order(0, SubscriptionPurchase, status, 1000, 0, 1000, "UZS", 0, 0, None, None)
  }

  function FirstAttempt(status: AttemptStatus): Attempt { Attempt(0, CLICK, None, 1000, status, "r", None) }

  lemma RepricedUpToFailure(db: Db)
    requires Reachable(db)
    requires db.prices == RepricedPrices() && db.orders == [PlainOrder(OrderCreated)] && |db.attempts| == 0
             && |db.events| == 0 && |db.redemptions| == 0 && |db.ledger| == 0
    ensures exists db' :: Reachable(db') && db'.orders == [PlainOrder(OrderCreated)] && |db'.redemptions| == 0
                          && |db'.ledger| == 0 && db'.attempts == [FirstAttempt(Failed)]
                          && KeyOf(LateEvent()) !in db'.events
  {
    hide PricesOk, OrdersOk, AttemptsOk, ExternalIdsOk, LogOk, DiscountsOk, RedeemsOk, LedgerOk, SubsOk, CyclesOk;
    hide Reachable, ReasonCode, NamedStatus;
    ReachableInv(db);
    var db1 := Apply(db, DoInitiate(0, 0, CLICK, "r", 0));
    ReachableStep(db, DoInitiate(0, 0, CLICK, "r", 0));
    assert db1.orders == [PlainOrder(OrderPending)] && db1.attempts == [FirstAttempt(AttemptPending)];
    ReachableInv(db1);
    var v := FailedAttemptEvent();
    var db2 := Apply(db1, DoTerminal(v, TargetFailed));
    ReachableStep(db1, DoTerminal(v, TargetFailed));
    assert db2.orders == db1.orders && db2.attempts == [FirstAttempt(Failed)];
    ReachableInv(db2);
    var db3 := Apply(db2, DoReopen(0));
    ReachableStep(db2, DoReopen(0));
    assert db3.orders == [PlainOrder(OrderCreated)] && db3.attempts == db2.attempts;
  }

  function ReservedRedemption(): Redemption { Redemption(0, 0, 100, 100, Reserved, Hold(0, 100, HoldActive)) }

  lemma ReservedAfterFailure(db: Db)
    requires Reachable(db) && db.orders == [PlainOrder(OrderCreated)] && |db.redemptions| == 0 && |db.ledger| == 0
    requires db.attempts == [FirstAttempt(Failed)]
    ensures exists db' :: Reachable(db') && db'.orders == db.orders && db'.attempts == db.attempts && db'.events == db.events
                          && db'.redemptions == [ReservedRedemption()]
  {
    hide PricesOk, OrdersOk, AttemptsOk, ExternalIdsOk, LogOk, DiscountsOk, RedeemsOk, LedgerOk, SubsOk, CyclesOk;
    hide Reachable, ReasonCode, NamedStatus;
    ReachableInv(db);
    var db1 := Apply(db, DoEarn(0, 100));
    ReachableStep(db, DoEarn(0, 100));
    assert db1.ledger == [Entry(0, 1, Earn, 100, 100, None, None)];
    ReachableInv(db1);
    var db2 := Apply(db1, DoCreateRedemption(0, 0, 100, 1, 0));
    ReachableStep(db1, DoCreateRedemption(0, 0, 100, 1, 0));
    assert Balance([], 0) == 0 && Balance(db1.ledger, 0) == 100;
    assert db2.redemptions == [ReservedRedemption()];
  }

  lemma RepricedAfterReserve(db: Db)
    requires Reachable(db) && db.orders == [PlainOrder(OrderCreated)] && db.redemptions == [ReservedRedemption()]
    ensures exists db' :: Reachable(db') && |db'.orders| == 1 && db'.orders[0].payable == 900 && db'.attempts == db.attempts
  {
    hide PricesOk, OrdersOk, AttemptsOk, ExternalIdsOk, LogOk, DiscountsOk, RedeemsOk, LedgerOk, SubsOk, CyclesOk;
    hide Reachable;
    ReachableInv(db);
    var db3 := Apply(db, DoCommitDiscount(0, 0, 0));
    ReachableStep(db, DoCommitDiscount(0, 0, 0));
  }

  lemma RepricedStart()
    ensures exists db :: Reachable(db) && db.prices == RepricedPrices() && db.orders == [PlainOrder(OrderCreated)]
                         && |db.attempts| == 0 && |db.events| == 0 && |db.redemptions| == 0 && |db.ledger| == 0
  {
    hide OrdersOk, AttemptsOk, ExternalIdsOk, LogOk, DiscountsOk, RedeemsOk, LedgerOk, SubsOk, CyclesOk, Reachable;
    var db := Start(RepricedPrices());
    StartReachable(RepricedPrices());
    ReachableStep(db, DoCreateOrder(0, 0));
    var db' := Apply(db, DoCreateOrder(0, 0));
    assert db'.orders == [PlainOrder(OrderCreated)];
    assert db'.prices == RepricedPrices() && |db'.attempts| == 0 && |db'.redemptions| == 0 && |db'.ledger| == 0;
  }

  /** A run leads to a CREATED order whose only attempt FAILED, and to the same with a discount reserved. */
  lemma FailedIsReached() returns (failed: Db, reserved: Db)
    ensures Reachable(failed) && failed.orders == [PlainOrder(OrderCreated)] && failed.attempts == [FirstAttempt(Failed)]
    ensures Reachable(reserved) && reserved.orders == failed.orders && reserved.attempts == failed.attempts
            && reserved.events == failed.events && reserved.redemptions == [ReservedRedemption()]
    ensures KeyOf(LateEvent()) !in failed.events
  {
    hide Reachable, Inv;
    RepricedStart();
    var db0 :| Reachable(db0) && db0.prices == RepricedPrices() && db0.orders == [PlainOrder(OrderCreated)]
               && |db0.attempts| == 0 && |db0.events| == 0 && |db0.redemptions| == 0 && |db0.ledger| == 0;
    RepricedUpToFailure(db0);
    failed :| Reachable(failed) && failed.orders == [PlainOrder(OrderCreated)] && |failed.redemptions| == 0
              && |failed.ledger| == 0 && failed.attempts == [FirstAttempt(Failed)] && KeyOf(LateEvent()) !in failed.events;
    ReservedAfterFailure(failed);
    reserved :| Reachable(reserved) && reserved.orders == failed.orders && reserved.attempts == failed.attempts
                && reserved.events == failed.events && reserved.redemptions == [ReservedRedemption()];
  }

  /** The claim that the guard never fires at all is false: a FAILED attempt of a re-priced order triggers it. */
  lemma OrderAmountMismatchHappens()
    ensures exists db, v :: Reachable(db) && ForeignKeys(db)
                            && SuccessVerdict(db, v) == Reject(Some(v.attempt), OrderAmountMismatch)
  {
    hide Reachable, Inv, SuccessVerdict;
    var failed, reserved := FailedIsReached();
    RepricedAfterReserve(reserved);
    var db :| Reachable(db) && |db.orders| == 1 && db.orders[0].payable == 900 && db.attempts == [FirstAttempt(Failed)];
    OrderAmountMismatchExactly(db, LateEvent());
  }

  /** Every PENDING order is in exactly one class: in flight, awaiting finalization, or awaiting reopening. */
  lemma ThreeClasses(db: Db, o: Id)
    requires Reachable(db) && o < |db.orders| && db.orders[o].status.OrderPending?
    ensures var inFlight := HasStatus(db.attempts, o, AttemptPending);
            var succeeded := HasStatus(db.attempts, o, Succeeded);
            var stuck := (HasStatus(db.attempts, o, Failed) || HasStatus(db.attempts, o, Cancelled)) && !inFlight && !succeeded;
            (inFlight && !succeeded && !stuck) || (!inFlight && succeeded && !stuck) || (!inFlight && !succeeded && stuck)
  {
    ReachableInv(db);
    hide LogOk, DiscountsOk, RedeemsOk, LedgerOk, SubsOk, CyclesOk, ExternalIdsOk, OrdersOk;
    var a :| 0 <= a < |db.attempts| && db.attempts[a].order == o;
    assert HasStatus(db.attempts, o, db.attempts[a].status);
  }

  /**
   What reopening a terminal attempt answers in any reachable state. INTEGRITY_CREATED_WITH_PENDING and ORDER_STATE are
   never among the answers.
   */
  lemma ReopenAnswers(db: Db, a: Id)
    requires Reachable(db) && a < |db.attempts| && Terminal(db.attempts[a].status)
    ensures ForeignKeys(db)
    ensures var o := db.attempts[a].order; var r := Reopen(db, a).1;
            var pending := HasStatus(db.attempts, o, AttemptPending); var succeeded := HasStatus(db.attempts, o, Succeeded);
            && !r.NotReopenable?
            && (r.AlreadyPaid? <==> db.orders[o].status.OrderPaid?)
            && (r.AlreadyReopened? <==> db.orders[o].status.OrderCreated?)
            && (r.RetryInProgress? <==> pending)
            && (r.SuccessPendingFinalization? <==> succeeded && db.orders[o].status.OrderPending?)
            && (r.Reopened? <==> db.orders[o].status.OrderPending? && !pending && !succeeded)
  {
    ReachableInv(db);
    hide PricesOk, LogOk, DiscountsOk, RedeemsOk, LedgerOk, SubsOk, CyclesOk, ExternalIdsOk, Reachable, HasAttempt;
    var o := db.attempts[a].order;
    assert OrderOk(db.prices, db.orders[o]);
    assert forall b :: 0 <= b < |db.attempts| ==> AttemptOk(db.orders, db.attempts[b]);
  }

  // ---- the callback log ----

  /** An attempt's status is what the log says: PENDING without an accepted event, else what its only one names. */
  lemma StatusIsTheLog(db: Db, a: Id)
    requires Reachable(db) && a < |db.attempts|
    ensures db.attempts[a].status.AttemptPending? <==> !exists k :: k in db.events && AcceptedFor(db.events[k], a)
    ensures forall k, l :: k in db.events && l in db.events && AcceptedFor(db.events[k], a) && AcceptedFor(db.events[l], a)
                           ==> k == l
    ensures forall k :: k in db.events && AcceptedFor(db.events[k], a) ==>
              NamedStatus(db.events[k].result) == Some(db.attempts[a].status)
  {
    ReachableInv(db);
    hide AttemptsOk, DiscountsOk, RedeemsOk, LedgerOk, SubsOk, CyclesOk, ExternalIdsOk, OrdersOk, ForeignKeys;
    forall k | k in db.events && AcceptedFor(db.events[k], a) ensures !db.attempts[a].status.AttemptPending? {
      PendingIsNotNamed(db.events[k].result);
    }
  }

  /** A provider event delivered as a success, or as a terminal non-success. */
  ghost function Deliver(db: Db, v: VerifiedEvent, target: Option<Target>): (Db, Outcome)
    requires ForeignKeys(db)
  {
    if target.None? then RecordSuccess(db, v) else RecordTerminal(db, v, target.value)
  }

  predicate SameAnswer(x: Outcome, y: Outcome) {
    x.kind == y.kind && x.reason == y.reason && x.eventId == y.eventId && x.attempt == y.attempt
  }

  lemma DeliveredIsLogged(db: Db, v: VerifiedEvent, target: Option<Target>)
    requires Inv(db)
    ensures var (db1, out) := Deliver(db, v, target);
            Inv(db1) && KeyOf(v) in db1.events && SameAnswer(out, Reconstruct(db1, db1.events[KeyOf(v)]))
  {
    hide AttemptsOk, LogOk, DiscountsOk, RedeemsOk, LedgerOk, SubsOk, CyclesOk, ExternalIdsOk, OrdersOk, NamedStatus;
    if target.None? {
      KeepSuccess(db, v);
    } else {
      KeepTerminal(db, v, target.value);
      TerminalNames(target.value, v.reasonCode);
    }
    var verdict := if target.None? then SuccessVerdict(db, v) else TerminalVerdict(db, v, target.value);
    OthersNameNothing(if verdict.Reject? then verdict.why else IdentityMismatch);
    hide SuccessVerdict, TerminalVerdict, AcceptedCode, ReasonCode, AttachIfMissing, Brought;
  }

  /**
   Once an event has been processed, delivering any event with its provider and event id again, at any later point of
   the run and whatever its content, changes nothing and gives the answer given first.
   */
  lemma Redelivery(db: Db, v: VerifiedEvent, target: Option<Target>, steps: seq<Step>,
                   w: VerifiedEvent, target2: Option<Target>)
    requires Reachable(db) && KeyOf(w) == KeyOf(v)
    ensures Inv(db)
    ensures Inv(Deliver(db, v, target).0) && Inv(Run(Deliver(db, v, target).0, steps))
    ensures var (db1, first) := Deliver(db, v, target);
            var db2 := Run(db1, steps);
            var (db3, again) := Deliver(db2, w, target2);
            db3 == db2 && SameAnswer(first, again)
  {
    hide PricesOk, ForeignKeys, OrdersOk, AttemptsOk, ExternalIdsOk, LogOk, DiscountsOk, RedeemsOk, LedgerOk, SubsOk,
         CyclesOk, SuccessVerdict, TerminalVerdict, RejectEvent, DuplicateEvent, AcceptEvent;
    ReachableInv(db);
    DeliveredIsLogged(db, v, target);
    RunKeeps(Deliver(db, v, target).0, steps);
    RunIsLater(Deliver(db, v, target).0, steps);
  }

  // ---- finalization ----

  lemma PaidReplays(db: Db, o: Id)
    requires Inv(db) && o < |db.orders| && db.orders[o].status.OrderPaid?
    ensures var r := ReconstructFinalized(db, o);
            && r.Finalized? && r.replay && r.user == db.orders[o].user
            && r.cycle < |db.cycles| && db.cycles[r.cycle].order == o && db.cycles[r.cycle].sub == r.sub
  {
    hide PricesOk, OrdersOk, LogOk, LedgerOk, ExternalIdsOk, AttemptsOk, SubsOk, CyclesNumbered;
    var c :| 0 <= c < |db.cycles| && db.cycles[c].order == o;
    assert CycleOk(db.orders, db.subs, db.cycles[FindCycle(db.cycles, o).value]);
    assert OrderDiscountOk(o, db.orders[o], db.redemptions);
  }

  /** A paid-for PENDING order passes every integrity check of finalization. */
  lemma PendingPasses(db: Db, a: Id)
    requires Inv(db) && a < |db.attempts| && db.attempts[a].status.Succeeded?
    requires db.orders[db.attempts[a].order].status.OrderPending?
    ensures var order := db.orders[db.attempts[a].order];
            && order.purpose.SubscriptionPurchase? && db.attempts[a].amount == order.payable
            && db.attempts[a].confirmedAt.Some? && PriceConsistent(db, order)
            && FindCycle(db.cycles, db.attempts[a].order).None? && DiscountProvenance(db, db.attempts[a].order)
  {
    hide LogOk, LedgerOk, ExternalIdsOk, SubsOk, CyclesNumbered, RedeemsOk;
    var o := db.attempts[a].order;
    assert OrderOk(db.prices, db.orders[o]);
    assert OrderDiscountOk(o, db.orders[o], db.redemptions);
    var c := FindCycle(db.cycles, o);
    assert c.Some? ==> CycleOk(db.orders, db.subs, db.cycles[c.value]);
  }

  ghost predicate HasActiveSub(subs: seq<Sub>, user: Id) {
    exists s :: 0 <= s < |subs| && subs[s].user == user && subs[s].status.SubActive?
  }

  lemma ActiveIsFound(subs: seq<Sub>, user: Id)
    requires SubsOk(subs)
    ensures HasActiveSub(subs, user) <==>
            FindNonterminal(subs, user).Some? && subs[FindNonterminal(subs, user).value].status.SubActive?
  {
  }

  /** What finalizing a SUCCEEDED attempt does in any reachable state: no integrity error is possible. */
  lemma FinalizeOutcome(db: Db, a: Id)
    requires Reachable(db) && a < |db.attempts| && db.attempts[a].status.Succeeded?
    ensures ForeignKeys(db)
    ensures var order := db.orders[db.attempts[a].order];
            var (db', r) := Finalize(db, a);
            if order.status.OrderPaid? then
              && db' == db && r.Finalized? && r.replay && r.user == order.user
              && r.cycle < |db.cycles| && db.cycles[r.cycle].order == db.attempts[a].order && db.cycles[r.cycle].sub == r.sub
            else if HasActiveSub(db.subs, order.user) then
              db' == db && r == FinalizeFailed(PurchaseActiveConflict)
            else
              && r.Finalized? && !r.replay && r.attempt == Some(a) && r.user == order.user
              && db'.orders[db.attempts[a].order].status.OrderPaid?
              && r.cycle == |db.cycles| && db'.cycles == db.cycles + [NewCycle(db, a)] && NewCycle(db, a).sub == r.sub
  {
    ReachableInv(db);
    var o := db.attempts[a].order;
    assert AttemptOk(db.orders, db.attempts[a]) && OrderOk(db.prices, db.orders[o]);
    hide LogOk, LedgerOk, ExternalIdsOk, SubsOk, CyclesOk, RedeemsOk, AttemptsOk, OrdersOk, DiscountsOk;
    hide MaxSeqNo, MaxEntryNo, Balance, ReconstructFinalized, DiscountProvenance, ActivateSub;
    ActiveIsFound(db.subs, db.orders[o].user);
    if db.orders[o].status.OrderPaid? {
      PaidReplays(db, o);
    } else {
      PendingPasses(db, a);
    }
  }

  /** A finalized order, in any state: its attempt succeeded, the order is PAID and the named cycle is the one it has. */
  lemma FinalizedFacts(db: Db, a: Id)
    requires Reachable(db) && a < |db.attempts|
    ensures Inv(db)
    ensures var (db1, r) := Finalize(db, a);
            r.Finalized? ==>
              && r.order == db.attempts[a].order && db.attempts[a].status.Succeeded?
              && r.order < |db1.orders|
              && r.user == db.orders[r.order].user && r.discounted == db.orders[r.order].redemption.Some?
              && db1.orders[r.order].status.OrderPaid?
              && db1.orders[r.order].redemption == db.orders[r.order].redemption
              && db1.orders[r.order].user == r.user
              && r.cycle < |db1.cycles| && db1.cycles[r.cycle].order == r.order && db1.cycles[r.cycle].sub == r.sub
  {
    ReachableInv(db);
    hide PricesOk, LogOk, LedgerOk, ExternalIdsOk, RedeemsOk, CyclesOk, SubsOk, AttemptsOk, OrdersOk, DiscountsOk, Reachable;
    FinalizedRows(db, a);
  }

  lemma FinalizedRows(db: Db, a: Id)
    requires ForeignKeys(db) && a < |db.attempts|
    ensures var (db1, r) := Finalize(db, a);
            r.Finalized? ==>
              && r.order == db.attempts[a].order && db.attempts[a].status.Succeeded?
              && r.order < |db1.orders|
              && r.user == db.orders[r.order].user && r.discounted == db.orders[r.order].redemption.Some?
              && db1.orders[r.order].status.OrderPaid?
              && db1.orders[r.order].redemption == db.orders[r.order].redemption
              && db1.orders[r.order].user == r.user
              && r.cycle < |db1.cycles| && db1.cycles[r.cycle].order == r.order && db1.cycles[r.cycle].sub == r.sub
  {
    hide MaxSeqNo, MaxEntryNo, Balance, ActivateSub, ConsumeDiscount, DiscountProvenance, PriceConsistent, HasRedeem;
  }

  lemma OneCyclePerOrder(db: Db, c: Id, d: Id)
    requires Inv(db) && c < |db.cycles| && d < |db.cycles| && db.cycles[c].order == db.cycles[d].order
    ensures c == d
  {
    hide LogOk, LedgerOk, ExternalIdsOk, RedeemsOk, SubsOk, AttemptsOk, OrdersOk, DiscountsOk, CyclesNumbered;
  }

  /** Finalizing again, at any later point of the run, writes nothing and names the same subscription and cycle. */
  lemma FinalizeReplays(db: Db, a: Id, steps: seq<Step>)
    requires Reachable(db) && a < |db.attempts|
    ensures Inv(db)
    ensures Inv(Finalize(db, a).0) && Inv(Run(Finalize(db, a).0, steps))
    ensures var (db1, first) := Finalize(db, a);
            var db2 := Run(db1, steps);
            var (db3, again) := Finalize(db2, a);
            first.Finalized? ==>
              && db3 == db2 && again.Finalized? && again.replay
              && again.sub == first.sub && again.cycle == first.cycle && again.order == first.order
              && again.user == first.user && again.discounted == first.discounted
  {
    hide PricesOk, OrdersOk, AttemptsOk, ExternalIdsOk, LogOk, DiscountsOk, RedeemsOk, LedgerOk, SubsOk, CyclesOk, ForeignKeys;
    hide Finalize, Reachable, Run, NewCycle;
    FinalizedFacts(db, a);
    KeepFinalize(db, a);
    var (db1, first) := Finalize(db, a);
    ReachableStep(db, DoFinalize(a));
    StepIsLater(db, DoFinalize(a));
    RunKeeps(db1, steps);
    if first.Finalized? {
      RunReachable(db1, steps);
      RunIsLater(db1, steps);
      var db2 := Run(db1, steps);
      LaterTrans(db, db1, db2);
      assert AttemptEvolves(db.attempts[a], db2.attempts[a]);
      assert OrderEvolves(db1.orders[first.order], db2.orders[first.order]);
      FinalizeOutcome(db2, a);
      FinalizedFacts(db2, a);
      assert db2.cycles[first.cycle] == db1.cycles[first.cycle];
      OneCyclePerOrder(db2, first.cycle, Finalize(db2, a).1.cycle);
    }
  }

  /** An order is PAID exactly when a cycle names it, that cycle is the only one, and it is a period of its own user. */
  lemma PaidIffOneCycle(db: Db, o: Id)
    requires Reachable(db) && o < |db.orders|
    ensures db.orders[o].status.OrderPaid? <==> exists c :: 0 <= c < |db.cycles| && db.cycles[c].order == o
    ensures forall c, d :: 0 <= c < |db.cycles| && 0 <= d < |db.cycles| && db.cycles[c].order == o && db.cycles[d].order == o
                           ==> c == d
    ensures forall c :: 0 <= c < |db.cycles| && db.cycles[c].order == o ==>
              && db.cycles[c].sub < |db.subs| && db.subs[db.cycles[c].sub].user == db.orders[o].user
              && db.cycles[c].start < db.cycles[c].end
              && db.cycles[c].paid == db.orders[o].payable && db.cycles[c].discount == db.orders[o].discount
  {
    ReachableInv(db);
    hide LogOk, LedgerOk, ExternalIdsOk, RedeemsOk, SubsOk, AttemptsOk, OrdersOk, DiscountsOk, CyclesNumbered;
  }

  lemma OneOpenSubscription(db: Db, s: Id, t: Id)
    requires Reachable(db) && s < |db.subs| && t < |db.subs| && db.subs[s].user == db.subs[t].user
    requires Nonterminal(db.subs[s].status) && Nonterminal(db.subs[t].status)
    ensures s == t
  {
    ReachableInv(db);
  }

  function SubsOf(cycles: seq<Cycle>): seq<Id> { seq(|cycles|, i requires 0 <= i < |cycles| => cycles[i].sub) }

  function SeqNosOf(cycles: seq<Cycle>): seq<int> { seq(|cycles|, i requires 0 <= i < |cycles| => cycles[i].seqNo) }

  lemma {:induction false} CyclesOfIsOccurrences(cycles: seq<Cycle>, sub: Id)
    ensures CyclesOf(cycles, sub) == Occurrences(SubsOf(cycles), sub)
  {
    if cycles != [] {
      var rest := cycles[..|cycles| - 1];
      CyclesOfIsOccurrences(rest, sub);
      assert SubsOf(cycles)[..|rest|] == SubsOf(rest);
    }
  }

  lemma CyclesAreNumbered(cycles: seq<Cycle>)
    requires CyclesNumbered(cycles)
    ensures Numbers(SubsOf(cycles), SeqNosOf(cycles))
  {
    forall c | 0 <= c < |cycles| ensures cycles[c].seqNo == Occurrences(SubsOf(cycles)[..c], cycles[c].sub) + 1 {
      CyclesOfIsOccurrences(cycles[..c], cycles[c].sub);
      assert SubsOf(cycles)[..c] == SubsOf(cycles[..c]);
    }
  }

  lemma NumberedCycles(cycles: seq<Cycle>, sub: Id)
    requires CyclesNumbered(cycles)
    ensures forall k :: 1 <= k <= CyclesOf(cycles, sub) ==> Used(SubsOf(cycles), SeqNosOf(cycles), sub, k)
    ensures forall c :: 0 <= c < |cycles| && cycles[c].sub == sub ==> 1 <= cycles[c].seqNo <= CyclesOf(cycles, sub)
    ensures forall c, d :: 0 <= c < d < |cycles| && cycles[c].sub == sub && cycles[d].sub == sub ==>
              cycles[c].seqNo < cycles[d].seqNo
  {
    hide CyclesNumbered, CyclesOf, Occurrences, Used, Numbers;
    CyclesAreNumbered(cycles);
    CyclesOfIsOccurrences(cycles, sub);
    NumberedInOrder(SubsOf(cycles), SeqNosOf(cycles), sub);
    assert forall c :: 0 <= c < |cycles| ==> SubsOf(cycles)[c] == cycles[c].sub && SeqNosOf(cycles)[c] == cycles[c].seqNo;
  }

  /** The cycles of a subscription carry the numbers 1..n, each exactly once, in the order they were paid. */
  lemma CycleNumbers(db: Db, sub: Id)
    requires Reachable(db)
    ensures forall k :: 1 <= k <= CyclesOf(db.cycles, sub) ==> Used(SubsOf(db.cycles), SeqNosOf(db.cycles), sub, k)
    ensures forall c :: 0 <= c < |db.cycles| && db.cycles[c].sub == sub ==> 1 <= db.cycles[c].seqNo <= CyclesOf(db.cycles, sub)
    ensures forall c, d :: 0 <= c < d < |db.cycles| && db.cycles[c].sub == sub && db.cycles[d].sub == sub ==>
              db.cycles[c].seqNo < db.cycles[d].seqNo
  {
    ReachableInv(db);
    assert CyclesNumbered(db.cycles);
    hide *;
    NumberedCycles(db.cycles, sub);
  }

  // ---- money ----

  function UsersOf(ledger: seq<Entry>): seq<Id> { seq(|ledger|, i requires 0 <= i < |ledger| => ledger[i].user) }

  function EntryNosOf(ledger: seq<Entry>): seq<int> { seq(|ledger|, i requires 0 <= i < |ledger| => ledger[i].entryNo) }

  lemma {:induction false} EntriesOfIsOccurrences(ledger: seq<Entry>, user: Id)
    ensures EntriesOf(ledger, user) == Occurrences(UsersOf(ledger), user)
  {
    if ledger != [] {
      var rest := ledger[..|ledger| - 1];
      EntriesOfIsOccurrences(rest, user);
      assert UsersOf(ledger)[..|rest|] == UsersOf(rest);
    }
  }

  lemma EntriesAreNumbered(ledger: seq<Entry>)
    requires LedgerOk(ledger)
    ensures Numbers(UsersOf(ledger), EntryNosOf(ledger))
  {
    forall e | 0 <= e < |ledger| ensures ledger[e].entryNo == Occurrences(UsersOf(ledger)[..e], ledger[e].user) + 1 {
      EntriesOfIsOccurrences(ledger[..e], ledger[e].user);
      assert UsersOf(ledger)[..e] == UsersOf(ledger[..e]);
    }
  }

  lemma NumberedEntries(ledger: seq<Entry>, user: Id)
    requires LedgerOk(ledger)
    ensures forall n :: 1 <= n <= EntriesOf(ledger, user) ==> Used(UsersOf(ledger), EntryNosOf(ledger), user, n)
    ensures forall e :: 0 <= e < |ledger| && ledger[e].user == user ==>
              && 1 <= ledger[e].entryNo <= EntriesOf(ledger, user)
              && ledger[e].balanceAfter == Balance(ledger[..e + 1], user)
    ensures forall e, f :: 0 <= e < f < |ledger| && ledger[e].user == user && ledger[f].user == user ==>
              ledger[e].entryNo < ledger[f].entryNo
  {
    hide EntriesOf, Occurrences, Used, Numbers, Balance;
    EntriesAreNumbered(ledger);
    EntriesOfIsOccurrences(ledger, user);
    NumberedInOrder(UsersOf(ledger), EntryNosOf(ledger), user);
    assert forall e :: 0 <= e < |ledger| ==> UsersOf(ledger)[e] == ledger[e].user && EntryNosOf(ledger)[e] == ledger[e].entryNo;
  }

  /** Each user's ledger carries the numbers 1..n, each once, in order, and its running balance is the sum of its amounts. */
  lemma LedgerNumbered(db: Db, user: Id)
    requires Reachable(db)
    ensures forall n :: 1 <= n <= EntriesOf(db.ledger, user) ==> Used(UsersOf(db.ledger), EntryNosOf(db.ledger), user, n)
    ensures forall e :: 0 <= e < |db.ledger| && db.ledger[e].user == user ==>
              && 1 <= db.ledger[e].entryNo <= EntriesOf(db.ledger, user)
              && db.ledger[e].balanceAfter == Balance(db.ledger[..e + 1], user)
    ensures forall e, f :: 0 <= e < f < |db.ledger| && db.ledger[e].user == user && db.ledger[f].user == user ==>
              db.ledger[e].entryNo < db.ledger[f].entryNo
  {
    ReachableInv(db);
    assert LedgerOk(db.ledger);
    hide *;
    NumberedEntries(db.ledger, user);
  }

  /**
   A redemption is APPLIED exactly when the ledger debits it, then exactly once, by its own amount, from its own user,
   with its hold CONSUMED and its order PAID.
   */
  lemma AppliedIffRedeemed(db: Db, r: Id)
    requires Reachable(db) && r < |db.redemptions|
    ensures db.redemptions[r].status.Applied? <==> HasRedeem(db.ledger, r)
    ensures forall e, f :: 0 <= e < |db.ledger| && 0 <= f < |db.ledger| && db.ledger[e].kind.Redeem? && db.ledger[f].kind.Redeem?
                           && db.ledger[e].redemption == Some(r) && db.ledger[f].redemption == Some(r)
                           ==> e == f
    ensures forall e :: 0 <= e < |db.ledger| && db.ledger[e].kind.Redeem? && db.ledger[e].redemption == Some(r) ==>
              && db.ledger[e].amount == -db.redemptions[r].amount && db.ledger[e].user == db.redemptions[r].user
    ensures db.redemptions[r].status.Applied? ==>
              && db.redemptions[r].hold.status.HoldConsumed?
              && db.redemptions[r].order < |db.orders|
              && db.orders[db.redemptions[r].order].status.OrderPaid?
              && db.orders[db.redemptions[r].order].redemption == Some(r)
  {
    ReachableInv(db);
    hide LogOk, LedgerOk, ExternalIdsOk, SubsOk, AttemptsOk, OrdersOk, CyclesOk;
    assert RedemptionOk(db.orders, r, db.redemptions[r]);
  }

  lemma {:induction false} HoldsAfterUpdate(redemptions: seq<Redemption>, r: Id, red: Redemption, user: Id)
    requires r < |redemptions|
    requires redemptions[r].hold.status.HoldActive? && !red.hold.status.HoldActive?
    ensures ActiveHolds(redemptions[r := red], user)
            == ActiveHolds(redemptions, user) - if redemptions[r].hold.user == user then redemptions[r].hold.amount else 0
  {
    var n := |redemptions| - 1;
    var updated := redemptions[r := red];
    if r == n {
      assert updated[..n] == redemptions[..n];
    } else {
      assert updated[..n] == redemptions[..n][r := red];
      HoldsAfterUpdate(redemptions[..n], r, red, user);
    }
  }

  lemma BalanceAfterPost(ledger: seq<Entry>, e: Entry, user: Id)
    ensures Balance(ledger + [e], user) == Balance(ledger, user) + if e.user == user then e.amount else 0
  {
    assert (ledger + [e])[..|ledger|] == ledger;
  }

  lemma ConsumeConserves(db: Db, owner: Id, r: Id, user: Id)
    requires r < |db.redemptions| && db.redemptions[r].hold == Hold(owner, db.redemptions[r].amount, HoldActive)
    ensures var db' := ConsumeDiscount(db, owner, r);
            Balance(db'.ledger, user) - ActiveHolds(db'.redemptions, user)
            == Balance(db.ledger, user) - ActiveHolds(db.redemptions, user)
  {
    hide MaxEntryNo, Balance, ActiveHolds;
    var db' := ConsumeDiscount(db, owner, r);
    BalanceAfterPost(db.ledger, db'.ledger[|db.ledger|], user);
    HoldsAfterUpdate(db.redemptions, r, db'.redemptions[r], user);
  }

  /** A finalization that moves money consumes the discount of its order, and touches no other hold or entry. */
  lemma FinalizeMoney(db: Db, a: Id) returns (consumes: bool, owner: Id, r: Id)
    requires ForeignKeys(db)
    ensures var db' := Finalize(db, a).0;
            if consumes then
              && r < |db.redemptions| && db.redemptions[r].hold == Hold(owner, db.redemptions[r].amount, HoldActive)
              && db'.ledger == ConsumeDiscount(db, owner, r).ledger && db'.redemptions == ConsumeDiscount(db, owner, r).redemptions
            else db'.ledger == db.ledger && db'.redemptions == db.redemptions
  {
    hide ConsumeDiscount, NewCycle, ActivateSub, ReconstructFinalized, PriceConsistent;
    consumes, owner, r := false, 0, 0;
    if Finalize(db, a).0 != db && db.orders[db.attempts[a].order].redemption.Some? {
      var order := db.orders[db.attempts[a].order];
      consumes, owner, r := true, order.user, order.redemption.value;
    }
  }

  /** Finalization turns a hold into a debit: what every user can spend stays the same. */
  lemma FinalizeConserves(db: Db, a: Id, user: Id)
    requires Reachable(db)
    ensures ForeignKeys(db)
    ensures var db' := Finalize(db, a).0;
            Balance(db'.ledger, user) - ActiveHolds(db'.redemptions, user)
            == Balance(db.ledger, user) - ActiveHolds(db.redemptions, user)
  {
    ReachableInv(db);
    hide PricesOk, ForeignKeys, LogOk, ExternalIdsOk, SubsOk, AttemptsOk, OrdersOk, CyclesOk, RedeemsOk, DiscountsOk, LedgerOk;
    hide Finalize, ConsumeDiscount, Balance, ActiveHolds;
    var consumes, owner, r := FinalizeMoney(db, a);
    if consumes {
      ConsumeConserves(db, owner, r, user);
    }
  }
}
