/**
 The callback pipeline (src/payments/payment-callback.service.ts): check the verified event's shape, record it, then run
 the best-effort bridge in a separate transaction. `bridge` is false when the process stops before the bridge.
 */
module PaymentCallbacks {
  import opened Basics
  import opened PaymentModel
  import opened PaymentSteps
  import opened PaymentInvariants
  import opened PaymentRuns
  import opened PaymentRepositories
  import opened PaymentTheorems
  import opened PaymentHistory
  import opened PaymentEffects
  import opened PaymentPurchase

  /** The normalized event as the adapter returns it; `target` is None for SUCCEEDED. */
  datatype AdapterEvent = AdapterEvent(event: VerifiedEvent, target: Option<Target>, terminal: bool)

  /** src/payments/payment-callback.service.ts:64-79; ids and instants are well formed by their types. */
  predicate WellShaped(provider: Provider, e: AdapterEvent) {
    && e.event.provider == provider
    && NonBlank(e.event.eventId)
    && (if e.target.None? then
          && Present(e.event.externalId)
          && e.event.currency.Some? && NonBlank(e.event.currency.value)
          && e.event.amount.Some? && e.event.amount.value > 0
        else e.terminal)
  }

  ghost function AfterBridge(db: Db, out: Outcome, target: Option<Target>): Db
    requires ForeignKeys(db)
  {
    if out.attempt.None? || out.attemptStatus.None? then db
    else if target.None? then
      if out.attemptStatus.value.Succeeded? then Finalize(db, out.attempt.value).0 else db
    else if !out.kind.Rejected? && Terminal(out.attemptStatus.value) then Reopen(db, out.attempt.value).0
    else db
  }

  method ProcessProviderCallback(tx: PaymentTables, provider: Provider, e: AdapterEvent, bridge: bool)
    returns (r: Option<Outcome>)
    requires Inv(tx.State())
    modifies tx
    ensures Inv(tx.State())
    ensures r.Some? <==>
              && e.event.provider == provider && NonBlank(e.event.eventId)
              && (e.target.None? ==>
                    && e.event.externalId.Some? && NonBlank(e.event.externalId.value)
                    && e.event.currency.Some? && NonBlank(e.event.currency.value)
                    && e.event.amount.Some? && e.event.amount.value > 0)
              && (e.target.Some? ==> e.terminal)
    ensures r.None? ==> tx.State() == old(tx.State())
    ensures r.Some? ==>
              var (db, out) := Deliver(old(tx.State()), e.event, e.target);
              && r.value == out && Inv(db)
              && tx.State() == if bridge then AfterBridge(db, out, e.target) else db
  {
    hide PricesOk, OrdersOk, AttemptsOk, ExternalIdsOk, LogOk, DiscountsOk, RedeemsOk, LedgerOk, SubsOk, CyclesOk;
    hide RecordSuccess, RecordTerminal, Finalize, Reopen, NonBlank;
    if !WellShaped(provider, e) { return None; }
    var out;
    if e.target.None? {
      KeepSuccess(tx.State(), e.event);
      out := RecordVerifiedCallback(tx, e.event);
      if bridge && out.attemptStatus == Some(Succeeded) && out.attempt.Some? {
        KeepFinalize(tx.State(), out.attempt.value);
        var _ := FinalizePayment(tx, out.attempt.value);
      }
    } else {
      KeepTerminal(tx.State(), e.event, e.target.value);
      out := RecordTerminalNonSuccess(tx, e.event, e.target.value);
      var terminal := out.attemptStatus == Some(Failed) || out.attemptStatus == Some(Cancelled);
      if bridge && (out.kind.Accepted? || out.kind.Duplicate?) && terminal && out.attempt.Some? {
        KeepReopen(tx.State(), out.attempt.value);
        var _ := ReopenOrder(tx, out.attempt.value);
      }
    }
    return Some(out);
  }

  predicate OrderIs(db: Db, a: Id, status: OrderStatus) {
    a < |db.attempts| && db.attempts[a].order < |db.orders| && db.orders[db.attempts[a].order].status == status
  }

  function Buyer(db: Db, a: Id): Id {
    if a < |db.attempts| && db.attempts[a].order < |db.orders| then db.orders[db.attempts[a].order].user else 0
  }

  // ---- what one newly accepted callback achieves, end to end ----

  /** The event is new to the log and is accepted. */
  ghost predicate NewlyAccepted(db: Db, v: VerifiedEvent, target: Option<Target>)
    requires ForeignKeys(db)
  {
    && EventKey(v.provider, v.eventId) !in db.events
    && (if target.None? then RecordSuccess(db, v) else RecordTerminal(db, v, target.value)).1.kind.Accepted?
  }

  lemma PendingOrder(db: Db, a: Id)
    requires Inv(db) && a < |db.attempts| && db.attempts[a].status.AttemptPending?
    ensures db.attempts[a].order < |db.orders| && db.orders[db.attempts[a].order].status.OrderPending?
    ensures forall b :: 0 <= b < |db.attempts| && b != a && db.attempts[b].order == db.attempts[a].order ==>
              !Live(db.attempts[b].status)
  {
    hide LogOk, DiscountsOk, RedeemsOk, LedgerOk, SubsOk, CyclesOk, ExternalIdsOk;
    assert OrderOk(db.prices, db.orders[db.attempts[a].order]);
    assert AttemptOk(db.orders, db.attempts[a]);
  }

  lemma AcceptedSuccess(db: Db, v: VerifiedEvent)
    requires Inv(db) && NewlyAccepted(db, v, None)
    ensures v.attempt < |db.attempts| && db.attempts[v.attempt].status.AttemptPending?
    ensures var (db1, out) := RecordSuccess(db, v);
            && out.kind.Accepted? && out.attempt == Some(v.attempt) && out.attemptStatus == Some(Succeeded)
            && db1.orders == db.orders && db1.subs == db.subs
            && v.attempt < |db1.attempts| && db1.attempts[v.attempt].status.Succeeded?
            && db1.attempts[v.attempt].order == db.attempts[v.attempt].order
  {
    hide PricesOk, OrdersOk, AttemptsOk, ExternalIdsOk, LogOk, DiscountsOk, RedeemsOk, LedgerOk, SubsOk, CyclesOk;
  }

  lemma SuccessReachable(db: Db, v: VerifiedEvent)
    requires Reachable(db)
    ensures Inv(db) && Inv(RecordSuccess(db, v).0) && Reachable(RecordSuccess(db, v).0)
  {
    hide Reachable, Inv, RecordSuccess;
    ReachableInv(db);
    ReachableStep(db, DoSuccess(v));
    KeepSuccess(db, v);
  }

  lemma BridgeFinalizes(db: Db, a: Id)
    requires Reachable(db) && a < |db.attempts| && db.attempts[a].status.Succeeded? && OrderIs(db, a, OrderPending)
    ensures ForeignKeys(db)
    ensures OrderIs(Finalize(db, a).0, a, if HasActiveSub(db.subs, Buyer(db, a)) then OrderPending else OrderPaid)
    ensures HasActiveSub(Finalize(db, a).0.subs, Buyer(db, a))
  {
    hide Reachable, Finalize, NewCycle, Inv, IsOpen;
    FinalizeOutcome(db, a);
    ReachableInv(db);
    StepIsLater(db, DoFinalize(a));
    PaidSubscription(db, a);
  }

  /** A newly accepted success pays the order, unless the buyer already has an ACTIVE subscription; either way he has one after. */
  lemma SuccessPays(db: Db, v: VerifiedEvent)
    requires Reachable(db)
    ensures ForeignKeys(db) && ForeignKeys(RecordSuccess(db, v).0)
    ensures NewlyAccepted(db, v, None) ==>
              var (db1, out) := RecordSuccess(db, v);
              && OrderIs(AfterBridge(db1, out, None), v.attempt,
                         if HasActiveSub(db.subs, Buyer(db, v.attempt)) then OrderPending else OrderPaid)
              && HasActiveSub(AfterBridge(db1, out, None).subs, Buyer(db, v.attempt))
  {
    hide Reachable, Finalize, RecordSuccess, SuccessVerdict, Inv, HasActiveSub, ForeignKeys;
    SuccessReachable(db, v);
    InvKeys(db);
    InvKeys(RecordSuccess(db, v).0);
    if NewlyAccepted(db, v, None) {
      AcceptedSuccess(db, v);
      PendingOrder(db, v.attempt);
      BridgeFinalizes(RecordSuccess(db, v).0, v.attempt);
    }
  }

  lemma AcceptedTerminal(db: Db, v: VerifiedEvent, target: Target)
    requires Inv(db) && NewlyAccepted(db, v, Some(target))
    ensures v.attempt < |db.attempts| && db.attempts[v.attempt].status.AttemptPending?
    ensures var (db1, out) := RecordTerminal(db, v, target);
            && out.kind.Accepted? && out.attempt == Some(v.attempt) && out.attemptStatus == Some(StatusOf(target))
            && db1.orders == db.orders
            && v.attempt < |db1.attempts| && db1.attempts == db.attempts[v.attempt := db1.attempts[v.attempt]]
            && db1.attempts[v.attempt].status == StatusOf(target)
            && db1.attempts[v.attempt].order == db.attempts[v.attempt].order
  {
    hide PricesOk, OrdersOk, AttemptsOk, ExternalIdsOk, LogOk, DiscountsOk, RedeemsOk, LedgerOk, SubsOk, CyclesOk;
    hide AcceptedCode;
  }

  /** A newly accepted failure or cancellation reopens the order for another attempt. */
  lemma FailureReopens(db: Db, v: VerifiedEvent, target: Target)
    requires Reachable(db)
    ensures ForeignKeys(db) && ForeignKeys(RecordTerminal(db, v, target).0)
    ensures NewlyAccepted(db, v, Some(target)) ==>
              var (db1, out) := RecordTerminal(db, v, target);
              OrderIs(AfterBridge(db1, out, Some(target)), v.attempt, OrderCreated)
  {
    hide Reachable, RecordTerminal, TerminalVerdict, Inv, ForeignKeys;
    ReachableInv(db);
    KeepTerminal(db, v, target);
    InvKeys(db);
    InvKeys(RecordTerminal(db, v, target).0);
    if NewlyAccepted(db, v, Some(target)) {
      AcceptedTerminal(db, v, target);
      PendingOrder(db, v.attempt);
    }
  }

  // ---- what the bridge achieves for any recorded answer ----

  /** An order that waits for a retry that nobody can start: PENDING without a live attempt. */
  ghost predicate IsStuck(db: Db, o: Id) {
    && o < |db.orders| && db.orders[o].status.OrderPending?
    && forall b :: 0 <= b < |db.attempts| && db.attempts[b].order == o
                   ==> !db.attempts[b].status.AttemptPending? && !db.attempts[b].status.Succeeded?
  }

  /**
   The bridge after any answer about an attempt: if it stands SUCCEEDED, its order is PAID afterwards or its buyer had an
   ACTIVE subscription already; after a failure or cancellation accepted or repeated, its order is not left stuck; and in
   every other case nothing is written.
   */
  lemma BridgeSettles(db: Db, out: Outcome, target: Option<Target>)
    requires Reachable(db) && ShowsStatuses(db, out)
    ensures ForeignKeys(db)
    ensures var db' := AfterBridge(db, out, target);
            if out.attempt.None? then db' == db
            else
              var a := out.attempt.value; var status := db.attempts[a].status;
              if target.None? then
                if status.Succeeded? then OrderIs(db', a, OrderPaid) || HasActiveSub(db.subs, Buyer(db, a)) else db' == db
              else if !out.kind.Rejected? && (status.Failed? || status.Cancelled?) then !IsStuck(db', db.attempts[a].order)
              else db' == db
  {
    ReachableInv(db);
    InvKeys(db);
    hide Reachable, Finalize, Reopen, Inv, HasActiveSub, ForeignKeys, IsStuck, OrderIs;
    if out.attempt.Some? {
      var a := out.attempt.value;
      if db.attempts[a].status.Succeeded? {
        FinalizeSettles(db, a);
      } else if Terminal(db.attempts[a].status) {
        ReopenSettles(db, a);
      }
    }
  }

  lemma FinalizeSettles(db: Db, a: Id)
    requires Reachable(db) && a < |db.attempts| && db.attempts[a].status.Succeeded?
    ensures ForeignKeys(db)
    ensures OrderIs(Finalize(db, a).0, a, OrderPaid) || HasActiveSub(db.subs, Buyer(db, a))
  {
    hide Reachable, Finalize, Inv, HasActiveSub, NewCycle, LogLater, RedemptionsLater, SubsLater;
    FinalizeOutcome(db, a);
    ReachableInv(db);
    InvKeys(db);
    StepIsLater(db, DoFinalize(a));
  }

  lemma ReopenSettles(db: Db, a: Id)
    requires ForeignKeys(db) && a < |db.attempts| && Terminal(db.attempts[a].status)
    ensures !IsStuck(Reopen(db, a).0, db.attempts[a].order)
  {
    ReopenEffect(db, a);
    hide Reopen;
  }
}
