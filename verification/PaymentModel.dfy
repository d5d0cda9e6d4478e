/**
 The payment tables and the provider's verified events.

 A table is the sequence of its rows in insertion order and a row's id is its position in it: rows of these
 tables are never deleted, and ids are only ever compared. `EventKey` is the unique index
 (provider, providerEventId). A reservation is embedded in its redemption, to which it is bound one to one.
 Amounts are whole UZS or IZL; instants are the time values of `CalendarMonth`.
 */
module PaymentModel {
  import opened Basics

  type Id = nat

  datatype Provider = CLICK | PAYME

  datatype Purpose = SubscriptionPurchase | SubscriptionRenewal

  datatype OrderStatus = OrderCreated | OrderPending | OrderPaid | OrderFailed | OrderCancelled | OrderExpired

  datatype AttemptStatus = AttemptPending | Succeeded | Failed | Cancelled | Refunded

  datatype SubStatus = SubActive | SubExpired | SubCancelled

  datatype RedemptionStatus = Requested | Reserved | Applied | RedemptionReleased

  datatype HoldStatus = HoldActive | HoldReleased | HoldConsumed

  datatype EntryKind = Earn | Redeem

  datatype Price = Price(plan: Id, amount: int, currency: string, months: int)

  datatype Order = Order(
    user: Id, purpose: Purpose, status: OrderStatus, gross: int, discount: int, payable: int,
    currency: string, plan: Id, price: Id, redemption: Option<Id>, expiresAt: Option<int>)

  datatype Attempt = Attempt(
    order: Id, provider: Provider, externalId: Option<string>, amount: int, status: AttemptStatus,
    clientRequest: string, confirmedAt: Option<int>)

  datatype EventKey = EventKey(provider: Provider, eventId: string)

  /** One processed callback; `result` is the stored text column. */
  datatype Event = Event(id: Id, attempt: Option<Id>, result: string)

  datatype Hold = Hold(user: Id, amount: int, status: HoldStatus)

  datatype Redemption = Redemption(user: Id, order: Id, amount: int, value: int, status: RedemptionStatus, hold: Hold)

  datatype Sub = Sub(user: Id, plan: Id, status: SubStatus, startedAt: int, currentCycle: Option<Id>)

  datatype Cycle = Cycle(
    sub: Id, seqNo: int, start: int, end: int, plan: Id, price: Id, gross: int, discount: int, paid: int, order: Id)

  datatype Entry = Entry(
    user: Id, entryNo: int, kind: EntryKind, amount: int, balanceAfter: int, redemption: Option<Id>, cycle: Option<Id>)

  datatype Db = Db(
    prices: seq<Price>,
    orders: seq<Order>,
    attempts: seq<Attempt>,
    events: map<EventKey, Event>,
    redemptions: seq<Redemption>,
    subs: seq<Sub>,
    cycles: seq<Cycle>,
    ledger: seq<Entry>)

  /** The foreign keys of the schema. */
  ghost predicate ForeignKeys(db: Db) {
    && (forall o :: 0 <= o < |db.orders| ==>
          db.orders[o].price < |db.prices|
          && (db.orders[o].redemption.Some? ==> db.orders[o].redemption.value < |db.redemptions|))
    && (forall a :: 0 <= a < |db.attempts| ==> db.attempts[a].order < |db.orders|)
    && (forall r :: 0 <= r < |db.redemptions| ==> db.redemptions[r].order < |db.orders|)
    && (forall c :: 0 <= c < |db.cycles| ==> db.cycles[c].sub < |db.subs| && db.cycles[c].order < |db.orders|)
  }

  // ---- the provider's verified event (src/payments/provider/payment-provider.port.ts) ----

  datatype Target = TargetFailed | TargetCancelled

  datatype VerifiedEvent = VerifiedEvent(
    provider: Provider, eventId: string, attempt: Id, externalId: Option<string>,
    reasonCode: Option<string>, amount: Option<int>, currency: Option<string>, confirmedAt: int)

  function KeyOf(v: VerifiedEvent): EventKey { EventKey(v.provider, v.eventId) }

  predicate Present(externalId: Option<string>) {
    externalId.Some? && NonBlank(externalId.value)
  }

  function StatusOf(t: Target): AttemptStatus {
    match t
    case TargetFailed => Failed
    case TargetCancelled => Cancelled
  }

  // ---- the result column ----

  datatype RejectReason =
    | IdentityMismatch | ProviderMismatch | AmountMismatch | OrderAmountMismatch | CurrencyMismatch
    | SuccessDataConflict | TerminalStatusConflict | OrderState | SuccessConflict | ExternalIdConflict

  function ReasonCode(r: RejectReason): string {
    match r
    case IdentityMismatch => "IDENTITY_MISMATCH"
    case ProviderMismatch => "PROVIDER_MISMATCH"
    case AmountMismatch => "AMOUNT_MISMATCH"
    case OrderAmountMismatch => "ORDER_AMOUNT_MISMATCH"
    case CurrencyMismatch => "CURRENCY_MISMATCH"
    case SuccessDataConflict => "SUCCESS_DATA_CONFLICT"
    case TerminalStatusConflict => "TERMINAL_STATUS_CONFLICT"
    case OrderState => "ORDER_STATE"
    case SuccessConflict => "SUCCESS_CONFLICT"
    case ExternalIdConflict => "EXTERNAL_ID_CONFLICT"
  }

  const ACCEPTED: string := "ACCEPTED"
  const DUPLICATE: string := "DUPLICATE"

  function TargetName(t: Target): string {
    match t
    case TargetFailed => "FAILED"
    case TargetCancelled => "CANCELLED"
  }

  /** src/payments/payments.repository.ts:318; an empty reason code counts as none. */
  function AcceptedCode(t: Target, reason: Option<string>): string {
    if reason.Some? && reason.value != "" then ACCEPTED + "_" + TargetName(t) + ":" + reason.value
    else ACCEPTED + "_" + TargetName(t)
  }

  /** The attempt status an accepted result names; None for a result that is not an acceptance. */
  function NamedStatus(result: string): Option<AttemptStatus> {
    if !(ACCEPTED <= result) then None
    else if result == ACCEPTED then Some(Succeeded)
    else if "_F" <= result[|ACCEPTED|..] then Some(Failed)
    else if "_C" <= result[|ACCEPTED|..] then Some(Cancelled)
    else None
  }

  lemma SuccessNames()
    ensures NamedStatus(ACCEPTED) == Some(Succeeded)
  {
  }

  lemma TerminalNames(t: Target, reason: Option<string>)
    ensures NamedStatus(AcceptedCode(t, reason)) == Some(StatusOf(t))
    ensures ACCEPTED <= AcceptedCode(t, reason)
  {
    var code := AcceptedCode(t, reason);
    var rest := code[|ACCEPTED|..];
    assert code == ACCEPTED + rest;
    assert rest == "_" + TargetName(t) || rest == "_" + TargetName(t) + ":" + reason.value;
    assert rest[0] == '_' && rest[1] == TargetName(t)[0];
  }

  /** No rejection and no duplicate reads as an acceptance. */
  lemma OthersNameNothing(r: RejectReason)
    ensures NamedStatus(ReasonCode(r)) == None && !(ACCEPTED <= ReasonCode(r)) && ReasonCode(r) != DUPLICATE
    ensures NamedStatus(DUPLICATE) == None && !(ACCEPTED <= DUPLICATE)
  {
    assert ACCEPTED[1] == 'C';
    assert DUPLICATE[0] == 'D';
    assert ReasonCode(r)[0] != 'D';
    assert ReasonCode(r)[0] == 'A' ==> ReasonCode(r)[1] == 'M';
  }
}
