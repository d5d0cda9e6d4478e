/**
 What the payment transactions answer and write, on the rows alone: for each answer the rows that lead to it, and for
 each write the row it leaves and that no other row changed (src/payments/payments.repository.ts:84-331,
 payment-provider-binding.repository.ts, payment-order-reopen.repository.ts, src/finance/redemption/redemption.repository.ts).
 */
module PaymentEffects {
  import opened Basics
  import opened PaymentModel
  import opened PaymentSteps
  import opened PaymentInvariants
  import opened PaymentRuns

  // ---- the vocabulary of the statements ----

  /** Row `i` of the table becomes `row`; no other row changes. */
  predicate RowBecomes<T(==)>(s: seq<T>, s': seq<T>, i: Id, row: T) {
    && i < |s| == |s'| && s'[i] == row
    && forall j :: 0 <= j < |s| && j != i ==> s'[j] == s[j]
  }

  /** The table gains one row at its end. */
  predicate RowIsAdded<T(==)>(s: seq<T>, s': seq<T>, row: T) {
    && |s'| == |s| + 1 && s'[|s|] == row
    && forall j :: 0 <= j < |s| ==> s'[j] == s[j]
  }

  /** The log gains the event, under its provider and event id; no entry changes. */
  predicate IsLogged(db: Db, db': Db, v: VerifiedEvent, attempt: Option<Id>, result: string) {
    var key := EventKey(v.provider, v.eventId);
    && db'.events.Keys == db.events.Keys + {key}
    && key in db'.events && db'.events[key] == Event(|db.events|, attempt, result)
    && forall k :: k in db.events && k != key ==> db'.events[k] == db.events[k]
  }

  /** A refused callback: the rejection is logged under its code and answered, nothing else is written. */
  predicate Refused(db: Db, r: (Db, Outcome), v: VerifiedEvent, attempt: Option<Id>, code: string) {
    && r.0 == db.(events := r.0.events) && IsLogged(db, r.0, v, attempt, code)
    && r.1.kind.Rejected? && r.1.reason == Some(code) && r.1.eventId == |db.events| && r.1.attempt == attempt
  }

  /** A repeated truth: logged as a duplicate, nothing else is written. */
  predicate Repeated(db: Db, r: (Db, Outcome), v: VerifiedEvent) {
    && r.0 == db.(events := r.0.events) && IsLogged(db, r.0, v, Some(v.attempt), "DUPLICATE")
    && r.1.kind.Duplicate? && r.1.reason.None? && r.1.eventId == |db.events| && r.1.attempt == Some(v.attempt)
  }

  /** An accepted callback: the attempt's row changes and the acceptance is logged, nothing else is written. */
  predicate Taken(db: Db, r: (Db, Outcome), v: VerifiedEvent, pt: Attempt, result: string) {
    && r.0 == db.(attempts := r.0.attempts, events := r.0.events)
    && IsLogged(db, r.0, v, Some(v.attempt), result) && RowBecomes(db.attempts, r.0.attempts, v.attempt, pt)
    && r.1.kind.Accepted? && r.1.reason.None? && r.1.eventId == |db.events| && r.1.attempt == Some(v.attempt)
  }

  /** The answer to a callback shows the statuses the attempt and its order have afterwards. */
  predicate ShowsStatuses(db': Db, out: Outcome) {
    && (out.attempt.None? ==> out.attemptStatus.None? && out.orderStatus.None?)
    && (out.attempt.Some? ==>
          && out.attempt.value < |db'.attempts| && out.attemptStatus == Some(db'.attempts[out.attempt.value].status)
          && db'.attempts[out.attempt.value].order < |db'.orders|
          && out.orderStatus == Some(db'.orders[db'.attempts[out.attempt.value].order].status))
  }

  predicate IdIsElsewhere(attempts: seq<Attempt>, a: Id, provider: Provider, externalId: string) {
    exists b :: 0 <= b < |attempts| && b != a && attempts[b].provider == provider && attempts[b].externalId == Some(externalId)
  }

  // ---- the success callback ----

  /** The event names the attempt's own provider, amount and currency, and the order still has that price. */
  predicate Agrees(v: VerifiedEvent, pt: Attempt, order: Order) {
    && v.provider == pt.provider && v.amount == Some(pt.amount) && pt.amount == order.payable
    && v.currency == Some(order.currency)
  }

  /**
   The answer to a success that agrees with a PENDING attempt of a PENDING order: accepted, unless another attempt of the
   order succeeded or the external id is missing, another one than the attempt's, or taken.
   */
  ghost predicate PendingAnswered(db: Db, r: (Db, Outcome), v: VerifiedEvent)
    requires v.attempt < |db.attempts|
  {
    var pt, self := db.attempts[v.attempt], Some(v.attempt);
    var id := if v.externalId.Some? then v.externalId.value else "";
    var other := exists b :: 0 <= b < |db.attempts| && b != v.attempt && db.attempts[b].order == pt.order
                             && db.attempts[b].status.Succeeded?;
    var free := (pt.externalId.None? || pt.externalId == Some(id)) && !IdIsElsewhere(db.attempts, v.attempt, v.provider, id);
    && (other ==> Refused(db, r, v, self, "SUCCESS_CONFLICT"))
    && (!other && !NonBlank(id) ==> Refused(db, r, v, self, "IDENTITY_MISMATCH"))
    && (!other && NonBlank(id) && !free ==> Refused(db, r, v, self, "EXTERNAL_ID_CONFLICT"))
    && (!other && NonBlank(id) && free ==>
          Taken(db, r, v, pt.(status := Succeeded, confirmedAt := Some(v.confirmedAt), externalId := Some(id)), "ACCEPTED"))
  }

  lemma PendingSuccess(db: Db, v: VerifiedEvent)
    requires ForeignKeys(db) && EventKey(v.provider, v.eventId) !in db.events && v.attempt < |db.attempts|
    requires var pt := db.attempts[v.attempt];
             Agrees(v, pt, db.orders[pt.order]) && pt.status.AttemptPending? && db.orders[pt.order].status.OrderPending?
    ensures PendingAnswered(db, RecordSuccess(db, v), v)
  {
    SuccessShows(db, v);
    hide NonBlank, RecordSuccess, Refused, Taken, ForeignKeys;
  }

  lemma SuccessShows(db: Db, v: VerifiedEvent)
    requires ForeignKeys(db) && EventKey(v.provider, v.eventId) !in db.events
    ensures var r, verdict := RecordSuccess(db, v), SuccessVerdict(db, v);
            && ShowsStatuses(r.0, r.1)
            && (verdict.Reject? ==> Refused(db, r, v, verdict.attempt, ReasonCode(verdict.why)))
            && (verdict.SameTruth? ==> Repeated(db, r, v))
            && (verdict.Accept? ==>
                  && v.attempt < |db.attempts|
                  && var pt := db.attempts[v.attempt];
                  Taken(db, r, v, pt.(status := Succeeded, confirmedAt := Some(v.confirmedAt),
                                      externalId := AttachIfMissing(pt, v.externalId)), "ACCEPTED"))
  {
    hide SuccessVerdict, ReasonCode;
  }

  /** Every answer to a success that is new to the log, in any state, with the rows that lead to it. */
  lemma SuccessAnswers(db: Db, v: VerifiedEvent)
    requires ForeignKeys(db) && EventKey(v.provider, v.eventId) !in db.events
    ensures var r, self := RecordSuccess(db, v), Some(v.attempt);
            if v.attempt >= |db.attempts| then Refused(db, r, v, None, "IDENTITY_MISMATCH")
            else
              var pt := db.attempts[v.attempt]; var order := db.orders[pt.order];
              && (v.provider != pt.provider ==> Refused(db, r, v, self, "PROVIDER_MISMATCH"))
              && (v.provider == pt.provider && v.amount != Some(pt.amount) ==> Refused(db, r, v, self, "AMOUNT_MISMATCH"))
              && (v.provider == pt.provider && v.amount == Some(pt.amount) && pt.amount != order.payable
                  ==> Refused(db, r, v, self, "ORDER_AMOUNT_MISMATCH"))
              && (v.provider == pt.provider && v.amount == Some(pt.amount) && pt.amount == order.payable
                  && v.currency != Some(order.currency)
                  ==> Refused(db, r, v, self, "CURRENCY_MISMATCH"))
              && (Agrees(v, pt, order) && pt.status.Succeeded? && (v.externalId.None? || v.externalId != pt.externalId)
                  ==> Refused(db, r, v, self, "SUCCESS_DATA_CONFLICT"))
              && (Agrees(v, pt, order) && pt.status.Succeeded? && v.externalId.Some? && v.externalId == pt.externalId
                  ==> Repeated(db, r, v))
              && (Agrees(v, pt, order) && (pt.status.Failed? || pt.status.Cancelled? || pt.status.Refunded?)
                  ==> Refused(db, r, v, self, "TERMINAL_STATUS_CONFLICT"))
              && (Agrees(v, pt, order) && pt.status.AttemptPending? && !order.status.OrderPending?
                  ==> Refused(db, r, v, self, "ORDER_STATE"))
              && (Agrees(v, pt, order) && pt.status.AttemptPending? && order.status.OrderPending? ==> PendingAnswered(db, r, v))
    ensures ShowsStatuses(RecordSuccess(db, v).0, RecordSuccess(db, v).1)
  {
    SuccessShows(db, v);
    hide NonBlank, RecordSuccess, Refused, Repeated, Taken, ShowsStatuses, PendingAnswered, OtherSucceeded, BroughtIsTaken;
    if v.attempt < |db.attempts| {
      var pt := db.attempts[v.attempt];
      if Agrees(v, pt, db.orders[pt.order]) && pt.status.AttemptPending? && db.orders[pt.order].status.OrderPending? {
        PendingSuccess(db, v);
      }
    }
  }

  /** In every state a run leads to, a success new to the log is accepted exactly under these conditions. */
  lemma SuccessIsAcceptedExactly(db: Db, v: VerifiedEvent)
    requires Reachable(db) && EventKey(v.provider, v.eventId) !in db.events
    ensures ForeignKeys(db)
    ensures RecordSuccess(db, v).1.kind.Accepted? <==>
              && v.attempt < |db.attempts|
              && var pt := db.attempts[v.attempt];
              && pt.status.AttemptPending? && v.provider == pt.provider
              && v.amount == Some(pt.amount) && v.currency == Some(db.orders[pt.order].currency)
              && v.externalId.Some? && NonBlank(v.externalId.value)
              && (pt.externalId.None? || pt.externalId == v.externalId)
              && !exists b :: 0 <= b < |db.attempts| && b != v.attempt && db.attempts[b].provider == v.provider
                              && db.attempts[b].externalId == v.externalId
  {
    ReachableInv(db);
    SuccessAnswers(db, v);
    hide PricesOk, OrdersOk, LogOk, DiscountsOk, RedeemsOk, LedgerOk, SubsOk, CyclesOk, ExternalIdsOk, Reachable, RecordSuccess,
      RowBecomes, IsLogged, ForeignKeys, NonBlank;
    if v.attempt < |db.attempts| {
      var pt := db.attempts[v.attempt];
      assert AttemptOk(db.orders, pt);
      if pt.status.AttemptPending? {
        PendingIsAlone(db, v.attempt);
      }
    }
  }

  lemma PendingIsAlone(db: Db, a: Id)
    requires Inv(db) && a < |db.attempts| && db.attempts[a].status.AttemptPending?
    ensures db.attempts[a].order < |db.orders|
    ensures db.attempts[a].amount == db.orders[db.attempts[a].order].payable && db.orders[db.attempts[a].order].status.OrderPending?
    ensures forall b :: 0 <= b < |db.attempts| && b != a && db.attempts[b].order == db.attempts[a].order
                        ==> !db.attempts[b].status.Succeeded?
  {
    hide LogOk, DiscountsOk, RedeemsOk, LedgerOk, SubsOk, CyclesOk, ExternalIdsOk;
    assert AttemptOk(db.orders, db.attempts[a]);
    assert OrderOk(db.prices, db.orders[db.attempts[a].order]);
  }

  // ---- the terminal callback ----

  /** A terminal event need not name an amount or a currency, but one it names is the right one. */
  predicate AgreesWhereNamed(v: VerifiedEvent, pt: Attempt, order: Order) {
    && v.provider == pt.provider && (v.amount.None? || v.amount == Some(pt.amount))
    && (v.currency.None? || v.currency == Some(order.currency))
  }

  function ReasonSuffix(reason: Option<string>): string {
    if reason.Some? && reason.value != "" then ":" + reason.value else ""
  }

  lemma TerminalShows(db: Db, v: VerifiedEvent, target: Target)
    requires ForeignKeys(db) && EventKey(v.provider, v.eventId) !in db.events
    ensures var r, verdict := RecordTerminal(db, v, target), TerminalVerdict(db, v, target);
            && ShowsStatuses(r.0, r.1)
            && (verdict.Reject? ==> Refused(db, r, v, verdict.attempt, ReasonCode(verdict.why)))
            && (verdict.SameTruth? ==> Repeated(db, r, v))
            && (verdict.Accept? ==>
                  && v.attempt < |db.attempts|
                  && var pt := db.attempts[v.attempt];
                  Taken(db, r, v, pt.(status := StatusOf(target), externalId := AttachIfMissing(pt, Brought(v))),
                        AcceptedCode(target, v.reasonCode)))
  {
    hide TerminalVerdict, ReasonCode, AcceptedCode, Brought;
  }

  lemma TerminalCode(target: Target, reason: Option<string>)
    ensures AcceptedCode(target, reason)
            == (if target.TargetFailed? then "ACCEPTED_FAILED" else "ACCEPTED_CANCELLED") + ReasonSuffix(reason)
  {
    var code, suffix := AcceptedCode(target, reason), ReasonSuffix(reason);
    assert "ACCEPTED" + "_" + "FAILED" == "ACCEPTED_FAILED" && "ACCEPTED" + "_" + "CANCELLED" == "ACCEPTED_CANCELLED";
    assert code == ("ACCEPTED" + "_" + TargetName(target)) + suffix;
  }

  /** Every answer to a failure or cancellation that is new to the log, in any state, with the rows that lead to it. */
  lemma TerminalAnswers(db: Db, v: VerifiedEvent, target: Target)
    requires ForeignKeys(db) && EventKey(v.provider, v.eventId) !in db.events
    ensures var r, self := RecordTerminal(db, v, target), Some(v.attempt);
            if v.attempt >= |db.attempts| then Refused(db, r, v, None, "IDENTITY_MISMATCH")
            else
              var pt := db.attempts[v.attempt]; var order := db.orders[pt.order];
              var id := if v.externalId.Some? then v.externalId.value else "";
              var same := if target.TargetFailed? then pt.status.Failed? else pt.status.Cancelled?;
              && (v.provider != pt.provider ==> Refused(db, r, v, self, "PROVIDER_MISMATCH"))
              && (v.provider == pt.provider && v.amount.Some? && v.amount.value != pt.amount
                  ==> Refused(db, r, v, self, "AMOUNT_MISMATCH"))
              && (v.provider == pt.provider && (v.amount.None? || v.amount.value == pt.amount)
                  && v.currency.Some? && v.currency.value != order.currency
                  ==> Refused(db, r, v, self, "CURRENCY_MISMATCH"))
              && (AgreesWhereNamed(v, pt, order) && !pt.status.AttemptPending? ==>
                    if same && (!NonBlank(id) || pt.externalId.None? || pt.externalId == Some(id)) then Repeated(db, r, v)
                    else Refused(db, r, v, self, "TERMINAL_STATUS_CONFLICT"))
              && (AgreesWhereNamed(v, pt, order) && pt.status.AttemptPending? ==>
                    if NonBlank(id) && ((pt.externalId.Some? && pt.externalId != Some(id))
                                        || IdIsElsewhere(db.attempts, v.attempt, v.provider, id))
                    then Refused(db, r, v, self, "EXTERNAL_ID_CONFLICT")
                    else Taken(db, r, v, pt.(status := if target.TargetFailed? then Failed else Cancelled,
                                             externalId := if NonBlank(id) then Some(id) else pt.externalId),
                               (if target.TargetFailed? then "ACCEPTED_FAILED" else "ACCEPTED_CANCELLED")
                               + ReasonSuffix(v.reasonCode)))
    ensures ShowsStatuses(RecordTerminal(db, v, target).0, RecordTerminal(db, v, target).1)
  {
    TerminalShows(db, v, target);
    TerminalCode(target, v.reasonCode);
    BlankIsNone(v);
    hide NonBlank, RecordTerminal, Refused, Repeated, Taken, ShowsStatuses, ForeignKeys, AcceptedCode, ReasonSuffix;
  }

  lemma BlankIsNone(v: VerifiedEvent)
    ensures Present(v.externalId) <==> NonBlank(if v.externalId.Some? then v.externalId.value else "")
  {
  }

  /** In every state a run leads to, a failure or cancellation new to the log is accepted exactly under these conditions. */
  lemma TerminalIsAcceptedExactly(db: Db, v: VerifiedEvent, target: Target)
    requires Reachable(db) && EventKey(v.provider, v.eventId) !in db.events
    ensures ForeignKeys(db)
    ensures RecordTerminal(db, v, target).1.kind.Accepted? <==>
              && v.attempt < |db.attempts|
              && var pt := db.attempts[v.attempt];
              && pt.status.AttemptPending? && v.provider == pt.provider
              && (v.amount.None? || v.amount.value == pt.amount)
              && (v.currency.None? || v.currency.value == db.orders[pt.order].currency)
              && (v.externalId.Some? && NonBlank(v.externalId.value) ==>
                    && (pt.externalId.None? || pt.externalId == v.externalId)
                    && !exists b :: 0 <= b < |db.attempts| && b != v.attempt && db.attempts[b].provider == v.provider
                                    && db.attempts[b].externalId == v.externalId)
  {
    ReachableInv(db);
    TerminalAnswers(db, v, target);
    BlankIsNone(v);
    hide Inv, Reachable, RecordTerminal, RowBecomes, IsLogged, NonBlank, ReasonSuffix;
  }

  /** A rejection logged on its own is written once, for an attempt that exists, and touches nothing else. */
  lemma RejectionIsLogged(db: Db, v: VerifiedEvent, why: RejectReason)
    ensures var db' := LogRejection(db, v, why);
            if EventKey(v.provider, v.eventId) in db.events then db' == db
            else db' == db.(events := db'.events)
                 && IsLogged(db, db', v, if v.attempt < |db.attempts| then Some(v.attempt) else None, ReasonCode(why))
  {
    hide ReasonCode;
  }

  // ---- initiation ----

  predicate Unexpired(order: Order, now: int) { order.expiresAt.None? || now < order.expiresAt.value }

  /** The redemption of a priced order backs its discount. */
  predicate Backs(red: Redemption, o: Id, order: Order) {
    && red.user == order.user && red.order == o && red.status.Reserved? && red.value == order.discount
    && red.hold.status.HoldActive? && red.hold.amount == red.amount && order.payable == order.gross - order.discount
  }

  /** An attempt of the order was made for the request before. */
  predicate Requested(attempts: seq<Attempt>, o: Id, req: string) {
    exists a :: 0 <= a < |attempts| && attempts[a].order == o && attempts[a].clientRequest == req
  }

  /** A repeated request is answered with the first attempt it made, and writes nothing. */
  lemma InitiateReplays(db: Db, user: Id, o: Id, provider: Provider, req: string, now: int, a: Id)
    requires o < |db.orders| && db.orders[o].user == user
    requires a < |db.attempts| && db.attempts[a].order == o && db.attempts[a].clientRequest == req
    requires forall b :: 0 <= b < a && db.attempts[b].order == o ==> db.attempts[b].clientRequest != req
    ensures Initiate(db, user, o, provider, req, now)
            == (db, if provider != db.attempts[a].provider then InitiateFailed(RequestConflict)
                    else Attempted(a, db.attempts[a].externalId.None?, db.orders[o].payable, db.orders[o].currency))
  {
    FindsFirst(db.attempts, o, req, 0, a);
  }

  lemma {:induction false} FindsFirst(attempts: seq<Attempt>, o: Id, req: string, i: nat, a: Id)
    requires i <= a < |attempts| && attempts[a].order == o && attempts[a].clientRequest == req
    requires forall b :: i <= b < a && attempts[b].order == o ==> attempts[b].clientRequest != req
    ensures FindRequest(attempts, o, req, i) == Some(a)
    decreases a - i
  {
    if i < a {
      FindsFirst(attempts, o, req, i + 1, a);
    }
  }

  /** Every answer to a first request, in any state, with the rows that lead to it. */
  lemma InitiateAnswers(db: Db, user: Id, o: Id, provider: Provider, req: string, now: int)
    requires ForeignKeys(db)
    ensures var (db', r) := Initiate(db, user, o, provider, req, now);
            if o >= |db.orders| || db.orders[o].user != user then db' == db && r == InitiateFailed(OrderNotFound)
            else if Requested(db.attempts, o, req) then db' == db
            else
              var order := db.orders[o];
              var backed := order.redemption.None? || Backs(db.redemptions[order.redemption.value], o, order);
              var open := order.status.OrderCreated? && Unexpired(order, now);
              var pending := exists b :: 0 <= b < |db.attempts| && db.attempts[b].order == o && db.attempts[b].status.AttemptPending?;
              && (!order.purpose.SubscriptionPurchase? ==> r == InitiateFailed(NotEligible("order purpose")))
              && (order.purpose.SubscriptionPurchase? && !order.status.OrderCreated?
                  ==> r == InitiateFailed(NotEligible("order not CREATED")))
              && (order.purpose.SubscriptionPurchase? && order.status.OrderCreated? && !Unexpired(order, now)
                  ==> r == InitiateFailed(NotEligible("order expired")))
              && (order.purpose.SubscriptionPurchase? && open && order.payable <= 0
                  ==> r == InitiateFailed(NotEligible("non-positive payable")))
              && (order.purpose.SubscriptionPurchase? && open && order.payable > 0 && !backed
                  ==> r == InitiateFailed(NotEligible("committed discount integrity")))
              && (order.purpose.SubscriptionPurchase? && open && order.payable > 0 && backed && pending
                  ==> r == InitiateFailed(NotEligible("a pending attempt already exists for this order")))
              && (r.InitiateFailed? ==> db' == db)
              && (order.purpose.SubscriptionPurchase? && open && order.payable > 0 && backed && !pending ==>
                    && r == Attempted(|db.attempts|, true, order.payable, order.currency)
                    && db' == db.(attempts := db'.attempts, orders := db'.orders)
                    && RowIsAdded(db.attempts, db'.attempts, Attempt(o, provider, None, order.payable, AttemptPending, req, None))
                    && RowBecomes(db.orders, db'.orders, o, order.(status := OrderPending)))
  {
    hide FindRequest;
  }

  /** In every state a run leads to, a first request for an order makes an attempt exactly under these conditions. */
  lemma InitiateSucceedsExactly(db: Db, user: Id, o: Id, provider: Provider, req: string, now: int)
    requires Reachable(db)
    requires !Requested(db.attempts, o, req)
    ensures Initiate(db, user, o, provider, req, now).1.Attempted? <==>
              && o < |db.orders| && db.orders[o].user == user && db.orders[o].status.OrderCreated? && db.orders[o].payable > 0
              && (db.orders[o].expiresAt.None? || now < db.orders[o].expiresAt.value)
  {
    ReachableInv(db);
    InitiateAnswers(db, user, o, provider, req, now);
    hide PricesOk, LogOk, RedeemsOk, LedgerOk, SubsOk, CyclesOk, ExternalIdsOk, Reachable, Initiate;
    if o < |db.orders| {
      assert OrderOk(db.prices, db.orders[o]) && OrderDiscountOk(o, db.orders[o], db.redemptions);
      if db.orders[o].redemption.Some? {
        assert RedemptionOk(db.orders, db.orders[o].redemption.value, db.redemptions[db.orders[o].redemption.value]);
      }
      hide OrdersOk, DiscountsOk;
      assert forall b :: 0 <= b < |db.attempts| ==> AttemptOk(db.orders, db.attempts[b]);
      hide AttemptsOk;
    }
  }

  // ---- external ids ----

  /** The id a provider returned is attached exactly to a PENDING attempt that has none, when no other attempt has it. */
  lemma AttachInitEffect(db: Db, a: Id, externalId: string)
    ensures var db' := AttachInit(db, a, externalId);
            if a < |db.attempts| && db.attempts[a].status.AttemptPending? && db.attempts[a].externalId.None?
               && !IdIsElsewhere(db.attempts, a, db.attempts[a].provider, externalId)
            then db' == db.(attempts := db'.attempts)
                 && RowBecomes(db.attempts, db'.attempts, a, db.attempts[a].(externalId := Some(externalId)))
            else db' == db
  {
  }

  /** Every answer to a binding, in any state. */
  lemma BindAnswers(db: Db, a: Id, provider: Provider, externalId: string)
    ensures var (db', r) := Bind(db, a, provider, externalId);
            && (!r.Bound? ==> db' == db)
            && (!NonBlank(externalId) ==> r == NotBindable("EXTERNAL_ID_REQUIRED"))
            && (NonBlank(externalId) && a >= |db.attempts| ==> r == NotBindable("TRANSACTION_NOT_FOUND"))
            && (NonBlank(externalId) && a < |db.attempts| ==>
                  var pt := db.attempts[a];
                  && (provider != pt.provider ==> r == Conflict("PROVIDER_MISMATCH"))
                  && (provider == pt.provider && !pt.status.AttemptPending? ==> r == NotBindable("TRANSACTION_NOT_PENDING"))
                  && (provider == pt.provider && pt.status.AttemptPending? && pt.externalId.Some? ==>
                        r == if pt.externalId.value == externalId then AlreadyBound else Conflict("EXTERNAL_ID_ALREADY_ATTACHED"))
                  && (provider == pt.provider && pt.status.AttemptPending? && pt.externalId.None? ==>
                        if IdIsElsewhere(db.attempts, a, provider, externalId) then r == Conflict("EXTERNAL_ID_IN_USE")
                        else r == Bound && db' == db.(attempts := db'.attempts)
                             && RowBecomes(db.attempts, db'.attempts, a, pt.(externalId := Some(externalId)))))
  {
    hide NonBlank;
  }

  // ---- reopening ----

  /** Reopening, in any state: what is refused, and that only a PENDING order without a live attempt changes, in its status. */
  lemma ReopenEffect(db: Db, a: Id)
    requires ForeignKeys(db)
    ensures var (db', r) := Reopen(db, a);
            && (!r.Reopened? ==> db' == db)
            && (a >= |db.attempts| ==> r == NotReopenable("TRANSACTION_NOT_FOUND"))
            && (a < |db.attempts| ==>
                  var pt := db.attempts[a]; var order := db.orders[pt.order];
                  var pending := exists b :: 0 <= b < |db.attempts| && db.attempts[b].order == pt.order
                                             && db.attempts[b].status.AttemptPending?;
                  var succeeded := exists b :: 0 <= b < |db.attempts| && db.attempts[b].order == pt.order
                                               && db.attempts[b].status.Succeeded?;
                  if !pt.status.Failed? && !pt.status.Cancelled? then r == NotReopenable("TRANSACTION_NOT_TERMINAL")
                  else
                    && (r.Reopened? <==> order.status.OrderPending? && !pending && !succeeded)
                    && (r.AlreadyPaid? <==> order.status.OrderPaid?)
                    && (r.SuccessPendingFinalization? <==> !order.status.OrderPaid? && succeeded)
                    && (r.RetryInProgress? <==> !order.status.OrderPaid? && !succeeded && pending && !order.status.OrderCreated?)
                    && (r.AlreadyReopened? <==> order.status.OrderCreated? && !pending && !succeeded)
                    && (r.NotReopenable? <==> !succeeded && (if pending then order.status.OrderCreated?
                                                             else order.status.OrderFailed? || order.status.OrderCancelled?
                                                                  || order.status.OrderExpired?))
                    && (r.Reopened? ==> db' == db.(orders := db'.orders)
                                        && RowBecomes(db.orders, db'.orders, pt.order, order.(status := OrderCreated))))
  {
  }

  // ---- orders, discounts and earnings ----

  /** An order is created at its price, unpriced by any discount. */
  lemma CreateOrderEffect(db: Db, user: Id, price: Id)
    ensures var db' := CreateOrder(db, user, price);
            if price < |db.prices| && db.prices[price].currency == "UZS" && db.prices[price].amount >= 0 then
              && db' == db.(orders := db'.orders) && |db'.orders| == |db.orders| + 1
              && var order := db'.orders[|db.orders|];
              && RowIsAdded(db.orders, db'.orders, order)
              && order.user == user && order.price == price && order.plan == db.prices[price].plan
              && order.gross == db.prices[price].amount == order.payable && order.discount == 0 && order.redemption.None?
              && order.status.OrderCreated? && order.purpose.SubscriptionPurchase? && order.currency == "UZS"
              && order.expiresAt.None?
            else db' == db
  {
  }

  /** IZL is reserved for a discount of at most a fifth of the gross price, within what the user can spend. */
  lemma CreateRedemptionEffect(db: Db, user: Id, o: Id, amount: int, rate: int, now: int)
    ensures var db' := CreateRedemption(db, user, o, amount, rate, now);
            if o < |db.orders| && db.orders[o].user == user && db.orders[o].purpose.SubscriptionPurchase?
               && db.orders[o].status.OrderCreated? && db.orders[o].discount == 0 && db.orders[o].payable == db.orders[o].gross
               && Unexpired(db.orders[o], now) && amount > 0
               && amount * rate <= db.orders[o].gross && 5 * (amount * rate) <= db.orders[o].gross
               && amount <= Balance(db.ledger, user) - ActiveHolds(db.redemptions, user)
               && !exists r :: 0 <= r < |db.redemptions| && db.redemptions[r].order == o
                               && (db.redemptions[r].status.Requested? || db.redemptions[r].status.Reserved?)
            then db' == db.(redemptions := db'.redemptions)
                 && RowIsAdded(db.redemptions, db'.redemptions,
                               Redemption(user, o, amount, amount * rate, Reserved, Hold(user, amount, HoldActive)))
            else db' == db
  {
    hide Balance, ActiveHolds;
    if o < |db.orders| {
      Fifth(db.orders[o].gross, amount * rate);
    }
  }

  /** The largest discount is a fifth of the gross price, rounded down. */
  lemma Fifth(gross: int, value: int)
    ensures value <= MaxDiscount(gross) <==> 5 * value <= gross
  {
  }

  /** A reserved discount is priced into its order exactly when the order is CREATED, undiscounted and unexpired. */
  lemma CommitDiscountEffect(db: Db, user: Id, r: Id, now: int)
    requires ForeignKeys(db)
    ensures var db' := CommitDiscount(db, user, r, now);
            if r < |db.redemptions| && db.redemptions[r].user == user
               && var red := db.redemptions[r]; var o := db.orders[red.order];
               && o.user == user && o.redemption.None? && red.status.Reserved? && red.hold.user == user
               && red.hold.status.HoldActive? && red.hold.amount == red.amount
               && o.purpose.SubscriptionPurchase? && o.status.OrderCreated? && Unexpired(o, now)
               && o.discount == 0 && o.payable == o.gross && 0 < red.value && red.value <= o.gross && 5 * red.value <= o.gross
            then var red := db.redemptions[r]; var o := db.orders[red.order];
                 && db' == db.(orders := db'.orders)
                 && RowBecomes(db.orders, db'.orders, red.order,
                               o.(discount := red.value, payable := o.gross - red.value, redemption := Some(r)))
            else db' == db
  {
    if r < |db.redemptions| {
      Fifth(db.orders[db.redemptions[r].order].gross, db.redemptions[r].value);
    }
  }

  /**
   A reserved redemption and its hold are released; an order priced with it gets its full price back, and blocks the
   release once it is no longer CREATED.
   */
  lemma ReleaseEffect(db: Db, user: Id, r: Id)
    requires ForeignKeys(db)
    ensures var db' := ReleaseRedemption(db, user, r);
            if r < |db.redemptions| && db.redemptions[r].user == user && db.redemptions[r].status.Reserved?
               && var o := db.orders[db.redemptions[r].order];
               && (o.user == user && o.redemption == Some(r) ==> o.status.OrderCreated?)
            then var red := db.redemptions[r]; var o := db.orders[red.order];
                 && db' == db.(orders := db'.orders, redemptions := db'.redemptions)
                 && RowBecomes(db.redemptions, db'.redemptions, r,
                               red.(status := RedemptionReleased,
                                    hold := if red.hold.status.HoldActive? then red.hold.(status := HoldReleased) else red.hold))
                 && RowBecomes(db.orders, db'.orders, red.order,
                               if o.user == user && o.redemption == Some(r)
                               then o.(discount := 0, payable := o.gross, redemption := None) else o)
            else db' == db
  {
  }

  /** An earning adds one entry, numbered after and summed with the user's others. */
  lemma EarnEffect(db: Db, user: Id, amount: int)
    requires LedgerOk(db.ledger)
    ensures var db' := EarnIzl(db, user, amount);
            if amount > 0 then
              && db' == db.(ledger := db'.ledger)
              && RowIsAdded(db.ledger, db'.ledger, Entry(user, EntriesOf(db.ledger, user) + 1, Earn, amount,
                                                         Balance(db.ledger, user) + amount, None, None))
            else db' == db
  {
    MaxEntryIsCount(db.ledger, user);
    hide MaxEntryNo, EntriesOf, Balance;
  }
}
