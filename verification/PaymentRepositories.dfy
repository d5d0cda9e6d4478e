/**
 The payment transactions as the repositories write them: guards in the source's order, each row written in place.
 Every method is proved to have exactly the effect and the answer that `PaymentSteps` gives for it, so all theorems
 about runs are theorems about these methods. A thrown error is an error result that leaves the tables unchanged.
 */
module PaymentRepositories {
  import opened Basics
  import opened PaymentModel
  import opened PaymentSteps

  class PaymentTables {
    var prices: seq<Price>
    var orders: seq<Order>
    var attempts: seq<Attempt>
    var events: map<EventKey, Event>
    var redemptions: seq<Redemption>
    var subs: seq<Sub>
    var cycles: seq<Cycle>
    var ledger: seq<Entry>

    constructor (prices: seq<Price>)
      ensures State() == Db(prices, [], [], map[], [], [], [], [])
    {
      this.prices := prices;
      orders, attempts, events, redemptions, subs, cycles, ledger := [], [], map[], [], [], [], [];
    }

    function State(): Db
      reads this
    {
      Db(prices, orders, attempts, events, redemptions, subs, cycles, ledger)
    }

    method InsertEvent(v: VerifiedEvent, attempt: Option<Id>, result: string) returns (id: Id)
      modifies this`events
      ensures State() == LogEvent(old(State()), v, attempt, result) && id == |old(events)|
    {
      id := |events|;
      events := events[KeyOf(v) := Event(id, attempt, result)];
    }

    method SetOrderStatus(o: Id, status: OrderStatus)
      requires o < |orders|
      modifies this`orders
      ensures orders == old(orders)[o := old(orders)[o].(status := status)]
    {
      orders := orders[o := orders[o].(status := status)];
    }
  }

  // ---- src/payments/payments.repository.ts ----

  method ResolveOrCreateAttempt(tx: PaymentTables, user: Id, o: Id, provider: Provider, req: string, now: int)
    returns (r: InitiateResult)
    modifies tx
    ensures (tx.State(), r) == Initiate(old(tx.State()), user, o, provider, req, now)
  {
    if o >= |tx.orders| || tx.orders[o].user != user { return InitiateFailed(OrderNotFound); }
    var order := tx.orders[o];
    var prior := FindRequest(tx.attempts, o, req);
    if prior.Some? { return ReplayAttempt(prior.value, tx.attempts[prior.value], provider, order); }
    if order.purpose != SubscriptionPurchase { return InitiateFailed(NotEligible("order purpose")); }
    if order.status != OrderCreated { return InitiateFailed(NotEligible("order not CREATED")); }
    if order.expiresAt.Some? && now >= order.expiresAt.value { return InitiateFailed(NotEligible("order expired")); }
    if order.payable <= 0 { return InitiateFailed(NotEligible("non-positive payable")); }
    if !CommittedDiscountOk(tx.State(), o) { return InitiateFailed(NotEligible("committed discount integrity")); }
    // the partial unique index on PENDING attempts of one order
    if HasStatus(tx.attempts, o, AttemptPending) {
      return InitiateFailed(NotEligible("a pending attempt already exists for this order"));
    }
    var id := |tx.attempts|;
    tx.attempts := tx.attempts + [Attempt(o, provider, None, order.payable, AttemptPending, req, None)];
    tx.SetOrderStatus(o, OrderPending);
    return Attempted(id, true, order.payable, order.currency);
  }

  method AttachProviderInit(tx: PaymentTables, a: Id, externalId: string)
    modifies tx
    ensures tx.State() == AttachInit(old(tx.State()), a, externalId)
  {
    if a >= |tx.attempts| { return; }
    var t := tx.attempts[a];
    if t.status != AttemptPending || t.externalId.Some? { return; }
    // a duplicate external identity leaves the attempt PENDING without an id
    if !ExternalIdTaken(tx.attempts, t.provider, externalId, a) {
      tx.attempts := tx.attempts[a := t.(externalId := Some(externalId))];
    }
  }

  method RejectCallback(tx: PaymentTables, v: VerifiedEvent, attempt: Option<Id>, why: RejectReason) returns (out: Outcome)
    requires ForeignKeys(tx.State())
    modifies tx
    ensures (tx.State(), out) == RejectEvent(old(tx.State()), v, attempt, why)
  {
    var id := tx.InsertEvent(v, attempt, ReasonCode(why));
    var (pt, order) := StatusesOf(tx.State(), attempt);
    out := Outcome(Rejected, Some(ReasonCode(why)), id, attempt, pt, order);
  }

  /** A rejection logged in a transaction of its own, after the transaction of the callback was rolled back. */
  method RecordRejectionStandalone(tx: PaymentTables, v: VerifiedEvent, why: RejectReason) returns (out: Outcome)
    requires ForeignKeys(tx.State())
    modifies tx
    ensures tx.State() == LogRejection(old(tx.State()), v, why)
    ensures KeyOf(v) in old(tx.events) ==> out == Reconstruct(old(tx.State()), old(tx.events)[KeyOf(v)])
    ensures KeyOf(v) !in old(tx.events) ==> out.kind.Rejected? && out.reason == Some(ReasonCode(why))
  {
    if KeyOf(v) in tx.events { return Reconstruct(tx.State(), tx.events[KeyOf(v)]); }
    out := RejectCallback(tx, v, if v.attempt < |tx.attempts| then Some(v.attempt) else None, why);
  }

  method RecordVerifiedCallback(tx: PaymentTables, v: VerifiedEvent) returns (out: Outcome)
    requires ForeignKeys(tx.State())
    modifies tx
    ensures (tx.State(), out) == RecordSuccess(old(tx.State()), v)
  {
    if KeyOf(v) in tx.events { return Reconstruct(tx.State(), tx.events[KeyOf(v)]); }
    if v.attempt >= |tx.attempts| { out := RejectCallback(tx, v, None, IdentityMismatch); return; }
    var self := Some(v.attempt);
    var pt := tx.attempts[v.attempt];
    var order := tx.orders[pt.order];
    if pt.provider != v.provider { out := RejectCallback(tx, v, self, ProviderMismatch); return; }
    if v.amount != Some(pt.amount) { out := RejectCallback(tx, v, self, AmountMismatch); return; }
    if pt.amount != order.payable { out := RejectCallback(tx, v, self, OrderAmountMismatch); return; }
    if v.currency != Some(order.currency) { out := RejectCallback(tx, v, self, CurrencyMismatch); return; }
    if pt.status == Succeeded {
      if v.externalId.None? || pt.externalId != v.externalId {
        out := RejectCallback(tx, v, self, SuccessDataConflict);
        return;
      }
      var id := tx.InsertEvent(v, self, DUPLICATE);
      return Outcome(Duplicate, None, id, self, Some(pt.status), Some(order.status));
    }
    if pt.status != AttemptPending { out := RejectCallback(tx, v, self, TerminalStatusConflict); return; }
    if order.status != OrderPending { out := RejectCallback(tx, v, self, OrderState); return; }
    if OtherSucceeded(tx.attempts, pt.order, v.attempt) { out := RejectCallback(tx, v, self, SuccessConflict); return; }
    if !Present(v.externalId) { out := RejectCallback(tx, v, self, IdentityMismatch); return; }
    if pt.externalId.Some? && pt.externalId != v.externalId {
      out := RejectCallback(tx, v, self, ExternalIdConflict);
      return;
    }
    if ExternalIdTaken(tx.attempts, v.provider, v.externalId.value, v.attempt) {
      out := RejectCallback(tx, v, self, ExternalIdConflict);
      return;
    }
    var id := tx.InsertEvent(v, self, ACCEPTED);
    tx.attempts := tx.attempts[v.attempt := pt.(status := Succeeded, confirmedAt := Some(v.confirmedAt),
                                                externalId := if pt.externalId.None? then v.externalId else pt.externalId)];
    return Outcome(Accepted, None, id, self, Some(Succeeded), Some(order.status));
  }

  method RecordTerminalNonSuccess(tx: PaymentTables, v: VerifiedEvent, target: Target) returns (out: Outcome)
    requires ForeignKeys(tx.State())
    modifies tx
    ensures (tx.State(), out) == RecordTerminal(old(tx.State()), v, target)
  {
    var externalId := if Present(v.externalId) then v.externalId else None;
    if KeyOf(v) in tx.events { return Reconstruct(tx.State(), tx.events[KeyOf(v)]); }
    if v.attempt >= |tx.attempts| { out := RejectCallback(tx, v, None, IdentityMismatch); return; }
    var self := Some(v.attempt);
    var pt := tx.attempts[v.attempt];
    var order := tx.orders[pt.order];
    if pt.provider != v.provider { out := RejectCallback(tx, v, self, ProviderMismatch); return; }
    if v.amount.Some? && v.amount.value != pt.amount { out := RejectCallback(tx, v, self, AmountMismatch); return; }
    if v.currency.Some? && v.currency.value != order.currency { out := RejectCallback(tx, v, self, CurrencyMismatch); return; }
    if pt.status != AttemptPending {
      if pt.status == StatusOf(target) && (externalId.None? || pt.externalId.None? || pt.externalId == externalId) {
        var id := tx.InsertEvent(v, self, DUPLICATE);
        return Outcome(Duplicate, None, id, self, Some(pt.status), Some(order.status));
      }
      out := RejectCallback(tx, v, self, TerminalStatusConflict);
      return;
    }
    if externalId.Some? {
      if pt.externalId.Some? && pt.externalId != externalId {
        out := RejectCallback(tx, v, self, ExternalIdConflict);
        return;
      }
      if ExternalIdTaken(tx.attempts, v.provider, externalId.value, v.attempt) {
        out := RejectCallback(tx, v, self, ExternalIdConflict);
        return;
      }
    }
    var id := tx.InsertEvent(v, self, AcceptedCode(target, v.reasonCode));
    tx.attempts := tx.attempts[v.attempt := pt.(status := StatusOf(target),
                                                externalId := if pt.externalId.None? then externalId else pt.externalId)];
    return Outcome(Accepted, None, id, self, Some(StatusOf(target)), Some(order.status));
  }

  // ---- src/payments/payment-provider-binding.repository.ts ----

  method BindProviderTransaction(tx: PaymentTables, a: Id, provider: Provider, externalId: string) returns (r: Binding)
    modifies tx
    ensures (tx.State(), r) == Bind(old(tx.State()), a, provider, externalId)
  {
    if !NonBlank(externalId) { return NotBindable("EXTERNAL_ID_REQUIRED"); }
    if a >= |tx.attempts| { return NotBindable("TRANSACTION_NOT_FOUND"); }
    var pt := tx.attempts[a];
    if pt.provider != provider { return Conflict("PROVIDER_MISMATCH"); }
    if pt.status != AttemptPending { return NotBindable("TRANSACTION_NOT_PENDING"); }
    if pt.externalId == Some(externalId) { return AlreadyBound; }
    if pt.externalId.Some? { return Conflict("EXTERNAL_ID_ALREADY_ATTACHED"); }
    if ExternalIdTaken(tx.attempts, provider, externalId, a) { return Conflict("EXTERNAL_ID_IN_USE"); }
    tx.attempts := tx.attempts[a := pt.(externalId := Some(externalId))];
    return Bound;
  }

  // ---- src/payments/payment-order-reopen.repository.ts ----

  method ReopenOrder(tx: PaymentTables, a: Id) returns (r: ReopenOutcome)
    requires ForeignKeys(tx.State())
    modifies tx
    ensures (tx.State(), r) == Reopen(old(tx.State()), a)
  {
    if a >= |tx.attempts| { return NotReopenable("TRANSACTION_NOT_FOUND"); }
    var pt := tx.attempts[a];
    if pt.status != Failed && pt.status != Cancelled { return NotReopenable("TRANSACTION_NOT_TERMINAL"); }
    var order := tx.orders[pt.order];
    var pending := HasStatus(tx.attempts, pt.order, AttemptPending);
    var succeeded := HasStatus(tx.attempts, pt.order, Succeeded);
    if order.status == OrderPaid { return AlreadyPaid; }
    if succeeded { return SuccessPendingFinalization; }
    if pending {
      if order.status == OrderCreated { return NotReopenable("INTEGRITY_CREATED_WITH_PENDING"); }
      return RetryInProgress;
    }
    if order.status == OrderCreated { return AlreadyReopened; }
    if order.status == OrderPending {
      tx.SetOrderStatus(pt.order, OrderCreated);
      return Reopened;
    }
    return NotReopenable("ORDER_STATE");
  }

  // ---- src/payments/payment-finalization.repository.ts ----

  method FinalizePayment(tx: PaymentTables, a: Id) returns (r: FinalizeResult)
    requires ForeignKeys(tx.State())
    modifies tx
    ensures (tx.State(), r) == Finalize(old(tx.State()), a)
  {
    hide CommitFinalization, FindNonterminal, FindCycle, ReconstructFinalized, CalendarMonth.AddCalendarMonths;
    if a >= |tx.attempts| { return FinalizeFailed(Integrity("payment transaction not found")); }
    var pt := tx.attempts[a];
    var o := pt.order;
    var order := tx.orders[o];
    var discounted := order.redemption.Some?;
    if pt.status != Succeeded || pt.confirmedAt.None? {
      return FinalizeFailed(Integrity("transaction not trusted-succeeded"));
    }
    if order.purpose != SubscriptionPurchase { return FinalizeFailed(Integrity("unsupported order purpose")); }
    if pt.amount != order.payable { return FinalizeFailed(Integrity("amount differs from order payable")); }
    if order.status == OrderPaid { return ReconstructFinalized(tx.State(), o); }
    if order.status != OrderPending { return FinalizeFailed(Integrity("order not PENDING")); }
    if FindCycle(tx.cycles, o).Some? { return FinalizeFailed(Integrity("pending order already has a cycle")); }
    if discounted {
      var red := tx.redemptions[order.redemption.value];
      var ok := red.user == order.user && red.status.Reserved? && red.order == o && red.amount > 0
                && red.value == order.discount && red.hold.user == order.user && red.hold.status.HoldActive?
                && red.hold.amount == red.amount;
      if !ok { return FinalizeFailed(Integrity("committed discount provenance invalid")); }
    } else if order.discount != 0 || order.payable != order.gross {
      return FinalizeFailed(Integrity("undiscounted order pricing inconsistent"));
    }
    var price := tx.prices[order.price];
    if price.plan != order.plan || price.currency != order.currency || price.months <= 0 {
      return FinalizeFailed(Integrity("plan price inconsistent"));
    }
    var start := pt.confirmedAt.value;
    var end := CalendarMonth.AddCalendarMonths(start, price.months);
    var nonterminal := FindNonterminal(tx.subs, order.user);
    if nonterminal.Some? && tx.subs[nonterminal.value].status == SubActive { return FinalizeFailed(PurchaseActiveConflict); }
    r := PostFinalization(tx, a, nonterminal, start, end);
  }

  /** The subscription the new cycle goes to and the cycle's number: a new one at 1, or the lapsed one's next. */
  method ResolveSubscription(tx: PaymentTables, nonterminal: Option<Id>, user: Id, plan: Id, start: int)
    returns (sub: Id, seqNo: int)
    requires nonterminal == FindNonterminal(tx.subs, user)
    modifies tx`subs
    ensures sub == TargetSub(old(tx.State()), user)
    ensures seqNo == if nonterminal.None? then 1 else MaxSeqNo(tx.cycles, sub) + 1
    ensures tx.subs == if nonterminal.None? then old(tx.subs) + [Sub(user, plan, SubActive, start, None)] else old(tx.subs)
  {
    if nonterminal.None? {
      sub, seqNo := |tx.subs|, 1;
      tx.subs := tx.subs + [Sub(user, plan, SubActive, start, None)];
    } else {
      sub := nonterminal.value;
      seqNo := MaxSeqNo(tx.cycles, sub) + 1;
    }
  }

  /** The IZL debit of a discounted order; `cycle` is the cycle just written. */
  method PostDiscount(tx: PaymentTables, user: Id, red: Id, cycle: Id)
    requires red < |tx.redemptions|
    modifies tx`ledger, tx`redemptions
    ensures tx.ledger == old(tx.ledger)
              + [Entry(user, MaxEntryNo(old(tx.ledger), user) + 1, Redeem, -old(tx.redemptions)[red].amount,
                       Balance(old(tx.ledger), user) - old(tx.redemptions)[red].amount, Some(red), Some(cycle))]
    ensures var was := old(tx.redemptions)[red];
            tx.redemptions == old(tx.redemptions)[red := was.(status := Applied, hold := was.hold.(status := HoldConsumed))]
  {
    hide MaxEntryNo, Balance;
    var amount := tx.redemptions[red].amount;
    var entryNo := MaxEntryNo(tx.ledger, user) + 1;
    var balanceAfter := Balance(tx.ledger, user) - amount;
    tx.ledger := tx.ledger + [Entry(user, entryNo, Redeem, -amount, balanceAfter, Some(red), Some(cycle))];
    tx.redemptions := tx.redemptions[red := tx.redemptions[red].(hold := tx.redemptions[red].hold.(status := HoldConsumed))];
    tx.redemptions := tx.redemptions[red := tx.redemptions[red].(status := Applied)];
  }

  /** The writes of one finalization, in the order the source makes them; the order turns PAID last. */
  method PostFinalization(tx: PaymentTables, a: Id, nonterminal: Option<Id>, start: int, end: int)
    returns (r: FinalizeResult)
    requires ForeignKeys(tx.State()) && a < |tx.attempts| && tx.attempts[a].confirmedAt == Some(start)
    requires PriceConsistent(tx.State(), tx.orders[tx.attempts[a].order])
    requires end == CalendarMonth.AddCalendarMonths(start, tx.prices[tx.orders[tx.attempts[a].order].price].months)
    requires nonterminal == FindNonterminal(tx.subs, tx.orders[tx.attempts[a].order].user)
    modifies tx
    ensures tx.State() == CommitFinalization(old(tx.State()), a)
    ensures var db := old(tx.State());
            var order := db.orders[db.attempts[a].order];
            r == Finalized(db.attempts[a].order, Some(a), order.user, TargetSub(db, order.user), |db.cycles|,
                           order.redemption.Some?, false)
  {
    hide MaxEntryNo, Balance, MaxSeqNo, CommitFinalization, FindNonterminal, CalendarMonth.AddCalendarMonths;
    ghost var db := tx.State();
    CommittedRows(db, a);
    var o := tx.attempts[a].order;
    var order := tx.orders[o];
    var sub, seqNo := ResolveSubscription(tx, nonterminal, order.user, order.plan, start);
    var cycle := |tx.cycles|;
    tx.cycles := tx.cycles + [Cycle(sub, seqNo, start, end, order.plan, order.price, order.gross, order.discount,
                                    order.payable, o)];
    tx.subs := tx.subs[sub := tx.subs[sub].(currentCycle := Some(cycle), status := SubActive, plan := order.plan)];
    assert tx.subs == ActivateSub(db, order.user, order.plan, start) && tx.cycles == db.cycles + [NewCycle(db, a)];
    if order.redemption.Some? {
      PostDiscount(tx, order.user, order.redemption.value, cycle);
    }
    tx.SetOrderStatus(o, OrderPaid);
    r := Finalized(o, Some(a), order.user, sub, cycle, order.redemption.Some?, false);
  }
}
