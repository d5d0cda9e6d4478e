/**
 What each payment transaction does to the tables, as a function of the state it starts from.
 The methods of `PaymentRepositories` are proved against these functions; the invariants and the theorems over
 runs are proved about them. A transaction that throws leaves the state as it was.
 */
module PaymentSteps {
  import opened Basics
  import opened PaymentModel
  import CalendarMonth

  // ---- queries ----

  predicate Live(s: AttemptStatus) { s.AttemptPending? || s.Succeeded? }

  predicate Terminal(s: AttemptStatus) { s.Failed? || s.Cancelled? }

  predicate HasStatus(attempts: seq<Attempt>, order: Id, status: AttemptStatus) {
    exists b :: 0 <= b < |attempts| && attempts[b].order == order && attempts[b].status == status
  }

  predicate OtherSucceeded(attempts: seq<Attempt>, order: Id, self: Id) {
    exists b :: 0 <= b < |attempts| && b != self && attempts[b].order == order && attempts[b].status.Succeeded?
  }

  predicate ExternalIdTaken(attempts: seq<Attempt>, provider: Provider, externalId: string, self: Id) {
    exists b :: 0 <= b < |attempts| && b != self
                && attempts[b].provider == provider && attempts[b].externalId == Some(externalId)
  }

  /** The attempt of `order` created for client request `req`, searched from row `i`. */
  function FindRequest(attempts: seq<Attempt>, order: Id, req: string, i: nat := 0): (r: Option<Id>)
    requires i <= |attempts|
    ensures r.Some? ==> i <= r.value < |attempts|
                        && attempts[r.value].order == order && attempts[r.value].clientRequest == req
    ensures r.None? ==> forall a :: i <= a < |attempts| ==> !(attempts[a].order == order && attempts[a].clientRequest == req)
    decreases |attempts| - i
  {
    if i == |attempts| then None
    else if attempts[i].order == order && attempts[i].clientRequest == req then Some(i)
    else FindRequest(attempts, order, req, i + 1)
  }

  predicate Nonterminal(s: SubStatus) { s.SubActive? || s.SubExpired? }

  function FindNonterminal(subs: seq<Sub>, user: Id, i: nat := 0): (r: Option<Id>)
    requires i <= |subs|
    ensures r.Some? ==> i <= r.value < |subs| && subs[r.value].user == user && Nonterminal(subs[r.value].status)
    ensures r.None? ==> forall s :: i <= s < |subs| && subs[s].user == user ==> !Nonterminal(subs[s].status)
    decreases |subs| - i
  {
    if i == |subs| then None
    else if subs[i].user == user && Nonterminal(subs[i].status) then Some(i)
    else FindNonterminal(subs, user, i + 1)
  }

  function FindCycle(cycles: seq<Cycle>, order: Id, i: nat := 0): (r: Option<Id>)
    requires i <= |cycles|
    ensures r.Some? ==> i <= r.value < |cycles| && cycles[r.value].order == order
    ensures r.None? ==> forall c :: i <= c < |cycles| ==> cycles[c].order != order
    decreases |cycles| - i
  {
    if i == |cycles| then None
    else if cycles[i].order == order then Some(i)
    else FindCycle(cycles, order, i + 1)
  }

  function Max(a: int, b: int): int { if a < b then b else a }

  /** Greatest sequence number among the cycles of `sub`, 0 when it has none. */
  function MaxSeqNo(cycles: seq<Cycle>, sub: Id): int {
    if cycles == [] then 0
    else
      var last := cycles[|cycles| - 1];
      var rest := MaxSeqNo(cycles[..|cycles| - 1], sub);
      if last.sub == sub then Max(rest, last.seqNo) else rest
  }

  /** Greatest entry number in the ledger of `user`, 0 when it is empty. */
  function MaxEntryNo(ledger: seq<Entry>, user: Id): int {
    if ledger == [] then 0
    else
      var last := ledger[|ledger| - 1];
      var rest := MaxEntryNo(ledger[..|ledger| - 1], user);
      if last.user == user then Max(rest, last.entryNo) else rest
  }

  /** Canonical balance of `user`: the signed sum of the ledger. */
  function Balance(ledger: seq<Entry>, user: Id): int {
    if ledger == [] then 0
    else
      var last := ledger[|ledger| - 1];
      Balance(ledger[..|ledger| - 1], user) + if last.user == user then last.amount else 0
  }

  /** Sum of the ACTIVE holds of `user`. */
  function ActiveHolds(redemptions: seq<Redemption>, user: Id): int {
    if redemptions == [] then 0
    else
      var last := redemptions[|redemptions| - 1].hold;
      ActiveHolds(redemptions[..|redemptions| - 1], user)
      + if last.user == user && last.status.HoldActive? then last.amount else 0
  }

  // ---- order creation and the writers of the discount, outside the payment transactions ----

  /** src/payments/payments.repository.ts:54-70 for a purchasable price in UZS. */
  ghost function CreateOrder(db: Db, user: Id, price: Id): Db {
    if price >= |db.prices| || db.prices[price].currency != "UZS" || db.prices[price].amount < 0 then db
    else
      var p := db.prices[price];
      db.(orders := db.orders + [Order(user, SubscriptionPurchase, OrderCreated, p.amount, 0, p.amount, "UZS",
                                       p.plan, price, None, None)])
  }

  ghost predicate OpenRedemption(db: Db, order: Id) {
    exists r :: 0 <= r < |db.redemptions| && db.redemptions[r].order == order
                && (db.redemptions[r].status.Requested? || db.redemptions[r].status.Reserved?)
  }

  function MaxDiscount(gross: int): int { gross * 2000 / 10000 }

  predicate Expired(order: Order, now: int) { order.expiresAt.Some? && now >= order.expiresAt.value }

  /** src/finance/redemption/redemption.repository.ts:91-141, without the replay of a repeated request. */
  ghost function CreateRedemption(db: Db, user: Id, order: Id, amount: int, rate: int, now: int): Db {
    if order >= |db.orders| || db.orders[order].user != user then db
    else
      var o := db.orders[order];
      if !o.purpose.SubscriptionPurchase? || !o.status.OrderCreated? || o.discount != 0 || o.payable != o.gross then db
      else if Expired(o, now) || OpenRedemption(db, order) || amount <= 0 then db
      else if amount * rate > MaxDiscount(o.gross) || amount * rate > o.gross then db
      else if amount > Max(Balance(db.ledger, user) - ActiveHolds(db.redemptions, user), 0) then db
      else db.(redemptions := db.redemptions
                              + [Redemption(user, order, amount, amount * rate, Reserved, Hold(user, amount, HoldActive))])
  }

  /** The guards of committing a discount, on its redemption and its order. */
  predicate Committable(red: Redemption, o: Order, user: Id, now: int) {
    && o.user == user && o.redemption.None? && red.status.Reserved?
    && red.hold == Hold(user, red.amount, HoldActive)
    && o.purpose.SubscriptionPurchase? && o.status.OrderCreated? && !Expired(o, now)
    && o.discount == 0 && o.payable == o.gross
    && 0 < red.value && red.value <= MaxDiscount(o.gross) && red.value <= o.gross
  }

  /** src/finance/redemption/redemption.repository.ts:51-84. */
  ghost function CommitDiscount(db: Db, user: Id, r: Id, now: int): Db
    requires ForeignKeys(db)
  {
    if r >= |db.redemptions| || db.redemptions[r].user != user then db
    else
      var red := db.redemptions[r];
      var o := db.orders[red.order];
      if !Committable(red, o, user, now) then db
      else db.(orders := db.orders[red.order := o.(discount := red.value, payable := o.gross - red.value,
                                                   redemption := Some(r))])
  }

  /** src/finance/redemption/redemption.repository.ts:149-172. */
  ghost function ReleaseRedemption(db: Db, user: Id, r: Id): Db
    requires ForeignKeys(db)
  {
    if r >= |db.redemptions| || db.redemptions[r].user != user || !db.redemptions[r].status.Reserved? then db
    else
      var red := db.redemptions[r];
      var o := db.orders[red.order];
      var hold := if red.hold.status.HoldActive? then red.hold.(status := HoldReleased) else red.hold;
      var freed := db.(redemptions := db.redemptions[r := red.(status := RedemptionReleased, hold := hold)]);
      if o.user == user && o.redemption == Some(r) then
        if !o.status.OrderCreated? then db
        else freed.(orders := db.orders[red.order := o.(discount := 0, payable := o.gross, redemption := None)])
      else freed
  }

  /**
   IZL earning posts with the same numbering as finalization (src/finance/reward/reward.repository.ts:88-97); the amounts
   of a reward policy are positive (src/finance/reward/daily-mission-izl.policy.ts:38).
   */
  ghost function EarnIzl(db: Db, user: Id, amount: int): Db {
    if amount <= 0 then db
    else db.(ledger := db.ledger + [Entry(user, MaxEntryNo(db.ledger, user) + 1, Earn, amount,
                                     Balance(db.ledger, user) + amount, None, None)])
  }

  /** A subscription lapses or is cancelled; no writer of these transitions is part of the repository. */
  ghost function LapseSub(db: Db, s: Id, cancel: bool): Db {
    if s >= |db.subs| || !Nonterminal(db.subs[s].status) then db
    else db.(subs := db.subs[s := db.subs[s].(status := if cancel then SubCancelled else SubExpired)])
  }

  // ---- initiation (src/payments/payments.repository.ts:84-151) ----

  datatype InitiateError = OrderNotFound | RequestConflict | NotEligible(why: string)

  datatype InitiateResult =
    | Attempted(attempt: Id, needsProviderInit: bool, amount: int, currency: string)
    | InitiateFailed(error: InitiateError)

  function ReplayAttempt(a: Id, prior: Attempt, provider: Provider, order: Order): InitiateResult {
    if prior.provider != provider then InitiateFailed(RequestConflict)
    else Attempted(a, prior.externalId.None?, order.payable, order.currency)
  }

  predicate CommittedDiscountOk(db: Db, o: Id)
    requires o < |db.orders|
  {
    var order := db.orders[o];
    order.redemption.None? || (
      && order.redemption.value < |db.redemptions|
      && var r := db.redemptions[order.redemption.value];
      && r.user == order.user && r.status.Reserved? && r.order == o && r.value == order.discount
      && order.payable == order.gross - order.discount
      && r.hold.status.HoldActive? && r.hold.amount == r.amount)
  }

  ghost function Initiate(db: Db, user: Id, o: Id, provider: Provider, req: string, now: int): (Db, InitiateResult) {
    if o >= |db.orders| || db.orders[o].user != user then (db, InitiateFailed(OrderNotFound))
    else
      var order := db.orders[o];
      var prior := FindRequest(db.attempts, o, req);
      if prior.Some? then (db, ReplayAttempt(prior.value, db.attempts[prior.value], provider, order))
      else if !order.purpose.SubscriptionPurchase? then (db, InitiateFailed(NotEligible("order purpose")))
      else if !order.status.OrderCreated? then (db, InitiateFailed(NotEligible("order not CREATED")))
      else if Expired(order, now) then (db, InitiateFailed(NotEligible("order expired")))
      else if order.payable <= 0 then (db, InitiateFailed(NotEligible("non-positive payable")))
      else if !CommittedDiscountOk(db, o) then (db, InitiateFailed(NotEligible("committed discount integrity")))
      else if HasStatus(db.attempts, o, AttemptPending) then
        (db, InitiateFailed(NotEligible("a pending attempt already exists for this order")))
      else
        (db.(attempts := db.attempts + [Attempt(o, provider, None, order.payable, AttemptPending, req, None)],
             orders := db.orders[o := order.(status := OrderPending)]),
         Attempted(|db.attempts|, true, order.payable, order.currency))
  }

  // ---- external ids (src/payments/payments.repository.ts:119-130, src/payments/payment-provider-binding.repository.ts) ----

  ghost function AttachInit(db: Db, a: Id, externalId: string): Db {
    if a >= |db.attempts| || !db.attempts[a].status.AttemptPending? || db.attempts[a].externalId.Some? then db
    else if ExternalIdTaken(db.attempts, db.attempts[a].provider, externalId, a) then db
    else db.(attempts := db.attempts[a := db.attempts[a].(externalId := Some(externalId))])
  }

  datatype Binding = Bound | AlreadyBound | Conflict(why: string) | NotBindable(why: string)

  ghost function Bind(db: Db, a: Id, provider: Provider, externalId: string): (Db, Binding) {
    if !NonBlank(externalId) then (db, NotBindable("EXTERNAL_ID_REQUIRED"))
    else if a >= |db.attempts| then (db, NotBindable("TRANSACTION_NOT_FOUND"))
    else
      var pt := db.attempts[a];
      if pt.provider != provider then (db, Conflict("PROVIDER_MISMATCH"))
      else if !pt.status.AttemptPending? then (db, NotBindable("TRANSACTION_NOT_PENDING"))
      else if pt.externalId == Some(externalId) then (db, AlreadyBound)
      else if pt.externalId.Some? then (db, Conflict("EXTERNAL_ID_ALREADY_ATTACHED"))
      else if ExternalIdTaken(db.attempts, provider, externalId, a) then (db, Conflict("EXTERNAL_ID_IN_USE"))
      else (db.(attempts := db.attempts[a := pt.(externalId := Some(externalId))]), Bound)
  }

  // ---- callbacks (src/payments/payments.repository.ts:164-331) ----

  datatype Kind = Accepted | Duplicate | Rejected

  datatype Outcome = Outcome(
    kind: Kind, reason: Option<string>, eventId: Id, attempt: Option<Id>,
    attemptStatus: Option<AttemptStatus>, orderStatus: Option<OrderStatus>)

  /** The decision taken under the lock, before anything is written. */
  datatype Verdict =
    | Reject(attempt: Option<Id>, why: RejectReason)
    | SameTruth
    | Accept

  /** The guards of the success callback on what it has read: the attempt, its order, another success, a taken external id. */
  function SuccessDecision(v: VerifiedEvent, pt: Attempt, order: Order, other: bool, taken: bool): Verdict {
    var self := Some(v.attempt);
    if pt.provider != v.provider then Reject(self, ProviderMismatch)
    else if v.amount != Some(pt.amount) then Reject(self, AmountMismatch)
    else if pt.amount != order.payable then Reject(self, OrderAmountMismatch)
    else if v.currency != Some(order.currency) then Reject(self, CurrencyMismatch)
    else if pt.status.Succeeded? then
      if v.externalId.None? || pt.externalId != v.externalId then Reject(self, SuccessDataConflict) else SameTruth
    else if !pt.status.AttemptPending? then Reject(self, TerminalStatusConflict)
    else if !order.status.OrderPending? then Reject(self, OrderState)
    else if other then Reject(self, SuccessConflict)
    else if !Present(v.externalId) then Reject(self, IdentityMismatch)
    else if pt.externalId.Some? && pt.externalId != v.externalId then Reject(self, ExternalIdConflict)
    else if taken then Reject(self, ExternalIdConflict)
    else Accept
  }

  /** The external id a terminal callback brings; a blank one counts as none. */
  function Brought(v: VerifiedEvent): Option<string> { if Present(v.externalId) then v.externalId else None }

  function TerminalDecision(v: VerifiedEvent, target: Target, pt: Attempt, order: Order, taken: bool): Verdict {
    var self := Some(v.attempt);
    var externalId := Brought(v);
    if pt.provider != v.provider then Reject(self, ProviderMismatch)
    else if v.amount.Some? && v.amount.value != pt.amount then Reject(self, AmountMismatch)
    else if v.currency.Some? && v.currency.value != order.currency then Reject(self, CurrencyMismatch)
    else if !pt.status.AttemptPending? then
      if pt.status == StatusOf(target) && (externalId.None? || pt.externalId.None? || pt.externalId == externalId)
      then SameTruth else Reject(self, TerminalStatusConflict)
    else if externalId.None? then Accept
    else if pt.externalId.Some? && pt.externalId != externalId then Reject(self, ExternalIdConflict)
    else if taken then Reject(self, ExternalIdConflict)
    else Accept
  }

  /** Another attempt has the external id of the event. */
  predicate BroughtIsTaken(attempts: seq<Attempt>, v: VerifiedEvent) {
    Present(v.externalId) && ExternalIdTaken(attempts, v.provider, v.externalId.value, v.attempt)
  }

  ghost function SuccessVerdict(db: Db, v: VerifiedEvent): (r: Verdict)
    requires ForeignKeys(db)
    ensures !r.Reject? ==> v.attempt < |db.attempts|
    ensures r.Reject? && r.attempt.Some? ==> r.attempt.value < |db.attempts|
  {
    if v.attempt >= |db.attempts| then Reject(None, IdentityMismatch)
    else
      var pt := db.attempts[v.attempt];
      SuccessDecision(v, pt, db.orders[pt.order], OtherSucceeded(db.attempts, pt.order, v.attempt), BroughtIsTaken(db.attempts, v))
  }

  ghost function TerminalVerdict(db: Db, v: VerifiedEvent, target: Target): (r: Verdict)
    requires ForeignKeys(db)
    ensures !r.Reject? ==> v.attempt < |db.attempts|
    ensures r.Reject? && r.attempt.Some? ==> r.attempt.value < |db.attempts|
  {
    if v.attempt >= |db.attempts| then Reject(None, IdentityMismatch)
    else
      var pt := db.attempts[v.attempt];
      TerminalDecision(v, target, pt, db.orders[pt.order], BroughtIsTaken(db.attempts, v))
  }

  function StatusesOf(db: Db, a: Option<Id>): (Option<AttemptStatus>, Option<OrderStatus>) {
    if a.Some? && a.value < |db.attempts| && db.attempts[a.value].order < |db.orders|
    then (Some(db.attempts[a.value].status), Some(db.orders[db.attempts[a.value].order].status))
    else (None, None)
  }

  /** src/payments/payments.repository.ts:244-255: the outcome a stored event replays as. */
  function Reconstruct(db: Db, ev: Event): Outcome {
    var kind := if ACCEPTED <= ev.result then Accepted else if ev.result == DUPLICATE then Duplicate else Rejected;
    var (pt, order) := StatusesOf(db, ev.attempt);
    Outcome(kind, if kind.Rejected? then Some(ev.result) else None, ev.id, ev.attempt, pt, order)
  }

  function LogEvent(db: Db, v: VerifiedEvent, attempt: Option<Id>, result: string): Db {
    db.(events := db.events[KeyOf(v) := Event(|db.events|, attempt, result)])
  }

  function RejectEvent(db: Db, v: VerifiedEvent, attempt: Option<Id>, why: RejectReason): (Db, Outcome) {
    var (pt, order) := StatusesOf(db, attempt);
    (LogEvent(db, v, attempt, ReasonCode(why)),
     Outcome(Rejected, Some(ReasonCode(why)), |db.events|, attempt, pt, order))
  }

  function DuplicateEvent(db: Db, v: VerifiedEvent): (Db, Outcome)
    requires v.attempt < |db.attempts| && db.attempts[v.attempt].order < |db.orders|
  {
    (LogEvent(db, v, Some(v.attempt), DUPLICATE),
     Outcome(Duplicate, None, |db.events|, Some(v.attempt), Some(db.attempts[v.attempt].status),
             Some(db.orders[db.attempts[v.attempt].order].status)))
  }

  /** The accepted event and the attempt's transition, written together. */
  function AcceptEvent(db: Db, v: VerifiedEvent, result: string, pt: Attempt): (Db, Outcome)
    requires v.attempt < |db.attempts| && db.attempts[v.attempt].order < |db.orders|
  {
    (LogEvent(db, v, Some(v.attempt), result).(attempts := db.attempts[v.attempt := pt]),
     Outcome(Accepted, None, |db.events|, Some(v.attempt), Some(pt.status),
             Some(db.orders[db.attempts[v.attempt].order].status)))
  }

  function AttachIfMissing(pt: Attempt, externalId: Option<string>): Option<string> {
    if pt.externalId.None? then externalId else pt.externalId
  }

  ghost function RecordSuccess(db: Db, v: VerifiedEvent): (Db, Outcome)
    requires ForeignKeys(db)
  {
    if KeyOf(v) in db.events then (db, Reconstruct(db, db.events[KeyOf(v)]))
    else
      match SuccessVerdict(db, v)
      case Reject(a, why) => RejectEvent(db, v, a, why)
      case SameTruth => DuplicateEvent(db, v)
      case Accept =>
        var pt := db.attempts[v.attempt];
        AcceptEvent(db, v, ACCEPTED,
                    pt.(status := Succeeded, confirmedAt := Some(v.confirmedAt),
                        externalId := AttachIfMissing(pt, v.externalId)))
  }

  ghost function RecordTerminal(db: Db, v: VerifiedEvent, target: Target): (Db, Outcome)
    requires ForeignKeys(db)
  {
    if KeyOf(v) in db.events then (db, Reconstruct(db, db.events[KeyOf(v)]))
    else
      match TerminalVerdict(db, v, target)
      case Reject(a, why) => RejectEvent(db, v, a, why)
      case SameTruth => DuplicateEvent(db, v)
      case Accept =>
        var pt := db.attempts[v.attempt];
        AcceptEvent(db, v, AcceptedCode(target, v.reasonCode),
                    pt.(status := StatusOf(target),
                        externalId := AttachIfMissing(pt, Brought(v))))
  }

  /** src/payments/payments.repository.ts:258-266: a rejection logged on its own, for a reason found earlier. */
  ghost function LogRejection(db: Db, v: VerifiedEvent, why: RejectReason): Db {
    if KeyOf(v) in db.events then db
    else RejectEvent(db, v, if v.attempt < |db.attempts| then Some(v.attempt) else None, why).0
  }

  // ---- reopening (src/payments/payment-order-reopen.repository.ts:32-69) ----

  datatype ReopenOutcome =
    | Reopened | AlreadyReopened | RetryInProgress | SuccessPendingFinalization | AlreadyPaid
    | NotReopenable(why: string)

  /** The decision, on the order's status and on whether it has a PENDING and a SUCCEEDED attempt. */
  function ReopenDecision(status: OrderStatus, pending: bool, succeeded: bool): ReopenOutcome {
    if status.OrderPaid? then AlreadyPaid
    else if succeeded then SuccessPendingFinalization
    else if pending then
      if status.OrderCreated? then NotReopenable("INTEGRITY_CREATED_WITH_PENDING") else RetryInProgress
    else if status.OrderCreated? then AlreadyReopened
    else if status.OrderPending? then Reopened
    else NotReopenable("ORDER_STATE")
  }

  ghost function Reopen(db: Db, a: Id): (Db, ReopenOutcome)
    requires ForeignKeys(db)
  {
    if a >= |db.attempts| then (db, NotReopenable("TRANSACTION_NOT_FOUND"))
    else if !Terminal(db.attempts[a].status) then (db, NotReopenable("TRANSACTION_NOT_TERMINAL"))
    else
      var o := db.attempts[a].order;
      var decision := ReopenDecision(db.orders[o].status, HasStatus(db.attempts, o, AttemptPending),
                                     HasStatus(db.attempts, o, Succeeded));
      (if decision.Reopened? then db.(orders := db.orders[o := db.orders[o].(status := OrderCreated)]) else db, decision)
  }

  // ---- finalization (src/payments/payment-finalization.repository.ts:39-165) ----

  datatype FinalizeError = Integrity(why: string) | PurchaseActiveConflict

  datatype FinalizeResult =
    | Finalized(order: Id, attempt: Option<Id>, user: Id, sub: Id, cycle: Id, discounted: bool, replay: bool)
    | FinalizeFailed(error: FinalizeError)

  /** Lines 78-87: a discounted order is backed by its reserved redemption, an undiscounted one costs its gross price. */
  predicate DiscountProvenance(db: Db, o: Id)
    requires o < |db.orders|
  {
    var order := db.orders[o];
    if order.redemption.Some? then
      && order.redemption.value < |db.redemptions|
      && var r := db.redemptions[order.redemption.value];
      && r.user == order.user && r.status.Reserved? && r.order == o && r.amount > 0 && r.value == order.discount
      && r.hold.user == order.user && r.hold.status.HoldActive? && r.hold.amount == r.amount
    else order.discount == 0 && order.payable == order.gross
  }

  predicate PriceConsistent(db: Db, order: Order) {
    && order.price < |db.prices|
    && db.prices[order.price].plan == order.plan
    && db.prices[order.price].currency == order.currency
    && db.prices[order.price].months > 0
  }

  predicate HasRedeem(ledger: seq<Entry>, r: Id) {
    exists e :: 0 <= e < |ledger| && ledger[e].kind.Redeem? && ledger[e].redemption == Some(r)
  }

  function ReconstructFinalized(db: Db, o: Id): FinalizeResult
    requires ForeignKeys(db) && o < |db.orders|
  {
    var order := db.orders[o];
    var c := FindCycle(db.cycles, o);
    if c.None? || db.subs[db.cycles[c.value].sub].user != order.user then
      FinalizeFailed(Integrity("paid order missing a consistent cycle"))
    else if order.redemption.Some?
            && !(db.redemptions[order.redemption.value].status.Applied?
                 && db.redemptions[order.redemption.value].hold.status.HoldConsumed?
                 && HasRedeem(db.ledger, order.redemption.value)) then
      FinalizeFailed(Integrity("paid discounted order missing REDEEM/CONSUMED/APPLIED provenance"))
    else Finalized(o, None, order.user, db.cycles[c.value].sub, c.value, order.redemption.Some?, true)
  }

  /** The subscription the cycle goes to: a new one, or the user's lapsed one. */
  function TargetSub(db: Db, user: Id): Id {
    var found := FindNonterminal(db.subs, user);
    if found.Some? then found.value else |db.subs|
  }

  function NewCycle(db: Db, a: Id): Cycle
    requires a < |db.attempts| && db.attempts[a].confirmedAt.Some?
    requires db.attempts[a].order < |db.orders| && PriceConsistent(db, db.orders[db.attempts[a].order])
  {
    var order := db.orders[db.attempts[a].order];
    var start := db.attempts[a].confirmedAt.value;
    var sub := TargetSub(db, order.user);
    var seqNo := if sub == |db.subs| then 1 else MaxSeqNo(db.cycles, sub) + 1;
    Cycle(sub, seqNo, start, CalendarMonth.AddCalendarMonths(start, db.prices[order.price].months),
          order.plan, order.price, order.gross, order.discount, order.payable, db.attempts[a].order)
  }

  function ActivateSub(db: Db, user: Id, plan: Id, start: int): seq<Sub> {
    var sub := TargetSub(db, user);
    var active := if sub == |db.subs| then Sub(user, plan, SubActive, start, Some(|db.cycles|))
                  else db.subs[sub].(plan := plan, status := SubActive, currentCycle := Some(|db.cycles|));
    if sub == |db.subs| then db.subs + [active] else db.subs[sub := active]
  }

  /** Lines 139-146: debit the ledger, consume the hold, apply the redemption. */
  function ConsumeDiscount(db: Db, user: Id, r: Id): Db
    requires r < |db.redemptions|
  {
    var red := db.redemptions[r];
    db.(ledger := db.ledger + [Entry(user, MaxEntryNo(db.ledger, user) + 1, Redeem, -red.amount,
                                     Balance(db.ledger, user) - red.amount, Some(r), Some(|db.cycles|))],
        redemptions := db.redemptions[r := red.(status := Applied, hold := red.hold.(status := HoldConsumed))])
  }

  function CommitFinalization(db: Db, a: Id): Db
    requires ForeignKeys(db)
    requires a < |db.attempts| && db.attempts[a].confirmedAt.Some?
    requires PriceConsistent(db, db.orders[db.attempts[a].order])
  {
    var o := db.attempts[a].order;
    var order := db.orders[o];
    var consumed := if order.redemption.Some? then ConsumeDiscount(db, order.user, order.redemption.value) else db;
    consumed.(subs := ActivateSub(db, order.user, order.plan, db.attempts[a].confirmedAt.value),
              cycles := db.cycles + [NewCycle(db, a)],
              orders := db.orders[o := order.(status := OrderPaid)])
  }

  /** The rows one finalization commits, field by field. */
  lemma CommittedRows(db: Db, a: Id)
    requires ForeignKeys(db)
    requires a < |db.attempts| && db.attempts[a].confirmedAt.Some?
    requires PriceConsistent(db, db.orders[db.attempts[a].order])
    ensures var db' := CommitFinalization(db, a);
            var o := db.attempts[a].order;
            var order := db.orders[o];
            && db'.prices == db.prices && db'.attempts == db.attempts && db'.events == db.events
            && db'.orders == db.orders[o := order.(status := OrderPaid)]
            && db'.subs == ActivateSub(db, order.user, order.plan, db.attempts[a].confirmedAt.value)
            && db'.cycles == db.cycles + [NewCycle(db, a)]
            && (order.redemption.None? ==> db'.ledger == db.ledger && db'.redemptions == db.redemptions)
            && (order.redemption.Some? ==>
                  && db'.ledger == ConsumeDiscount(db, order.user, order.redemption.value).ledger
                  && db'.redemptions == ConsumeDiscount(db, order.user, order.redemption.value).redemptions)
  {
    hide MaxEntryNo, Balance, MaxSeqNo, ActivateSub, FindNonterminal, NewCycle;
  }

  ghost function Finalize(db: Db, a: Id): (Db, FinalizeResult)
    requires ForeignKeys(db)
  {
    if a >= |db.attempts| then (db, FinalizeFailed(Integrity("payment transaction not found")))
    else
      var pt := db.attempts[a];
      var o := pt.order;
      var order := db.orders[o];
      if !pt.status.Succeeded? || pt.confirmedAt.None? then
        (db, FinalizeFailed(Integrity("transaction not trusted-succeeded")))
      else if !order.purpose.SubscriptionPurchase? then (db, FinalizeFailed(Integrity("unsupported order purpose")))
      else if pt.amount != order.payable then (db, FinalizeFailed(Integrity("amount differs from order payable")))
      else if order.status.OrderPaid? then (db, ReconstructFinalized(db, o))
      else if !order.status.OrderPending? then (db, FinalizeFailed(Integrity("order not PENDING")))
      else if FindCycle(db.cycles, o).Some? then (db, FinalizeFailed(Integrity("pending order already has a cycle")))
      else if !DiscountProvenance(db, o) then
        (db, FinalizeFailed(Integrity(if order.redemption.Some? then "committed discount provenance invalid"
                                      else "undiscounted order pricing inconsistent")))
      else if !PriceConsistent(db, order) then (db, FinalizeFailed(Integrity("plan price inconsistent")))
      else
        var found := FindNonterminal(db.subs, order.user);
        if found.Some? && db.subs[found.value].status.SubActive? then (db, FinalizeFailed(PurchaseActiveConflict))
        else (CommitFinalization(db, a),
              Finalized(o, Some(a), order.user, TargetSub(db, order.user), |db.cycles|, order.redemption.Some?, false))
  }
}
