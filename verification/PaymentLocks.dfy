/**
 The payment transactions at the granularity of their statements: any number of threads, each taking its advisory
 locks, reading row by row, deciding on what it read, and committing its writes in one step. Other threads run between
 any two steps. Initiation locks `izl(user)`, callbacks, binding and reopening lock `pay(order)`, finalization locks
 `sub(user)`, `pay(order)` and, for a discounted order, `izl(user)`; committing a discount locks `izl(user)`. The other
 writers outside these transactions take their lock and run as one statement. The lock keys are modelled as themselves,
 not as their hashes.
 */
module PaymentLocks {
  import opened Basics
  import opened PaymentModel
  import opened PaymentSteps
  import opened PaymentRuns
  import CalendarMonth

  /** A transaction a thread runs; `discounted` is what finalization read of the order before it took its locks. */
  datatype Tx =
    | TxWhole(step: Step)
    | TxInitiate(user: Id, order: Id, provider: Provider, request: string, now: int)
    | TxCall(event: VerifiedEvent, target: Option<Target>)
    | TxBind(attempt: Id, provider: Provider, externalId: string)
    | TxReopen(attempt: Id)
    | TxFinalize(attempt: Id, discounted: bool)

  datatype Lock = SubLock(user: Id) | PayLock(order: Id) | IzlLock(user: Id)

  /** Where a thread stands and what it has read so far. `Taking(tx, n)` holds the first `n` locks of `tx`. */
  datatype Proc =
    | Idle
    | Taking(tx: Tx, n: nat)
    | Ready(tx: Tx)
    | InitOrderRead(tx: Tx, order: Order)
    | InitEligible(tx: Tx, order: Order)
    | InitBacked(tx: Tx, order: Order)
    | PriceRead(tx: Tx, red: Redemption)
    | PriceChecked(tx: Tx, red: Redemption, order: Order)
    | CallFresh(tx: Tx)
    | CallAttemptRead(tx: Tx, pt: Attempt)
    | CallOrderRead(tx: Tx, pt: Attempt, order: Order)
    | CallOthersRead(tx: Tx, pt: Attempt, order: Order, other: bool)
    | CallDecided(tx: Tx, pt: Attempt, order: Order, other: bool, taken: bool)
    | BindRead(tx: Tx, pt: Attempt)
    | ReopenTerminal(tx: Tx)
    | ReopenOrderRead(tx: Tx, status: OrderStatus)
    | ReopenPendingRead(tx: Tx, status: OrderStatus, pending: bool)
    | ReopenDeciding(tx: Tx, status: OrderStatus, pending: bool, succeeded: bool)
    | FinAttemptRead(tx: Tx, pt: Attempt)
    | FinOrderRead(tx: Tx, pt: Attempt, order: Order)
    | FinUnpaid(tx: Tx, pt: Attempt, order: Order)
    | FinBacked(tx: Tx, pt: Attempt, order: Order, izl: int)
    | FinSubRead(tx: Tx, pt: Attempt, order: Order, izl: int, sub: Option<Id>)
    | FinNumbered(tx: Tx, pt: Attempt, order: Order, izl: int, sub: Option<Id>, seqNo: int)
    | FinPosted(tx: Tx, pt: Attempt, order: Order, izl: int, sub: Option<Id>, seqNo: int, entryNo: int, balance: int)

  datatype Sys = Sys(db: Db, procs: seq<Proc>, locks: map<Lock, nat>)

  // ---- transactions and their locks ----

  predicate AttemptKnown(db: Db, a: Id) { a < |db.attempts| && db.attempts[a].order < |db.orders| }

  function OrderOf(db: Db, a: Id): Id
    requires AttemptKnown(db, a)
  {
    db.attempts[a].order
  }

  function UserOf(db: Db, a: Id): Id
    requires AttemptKnown(db, a)
  {
    db.orders[OrderOf(db, a)].user
  }

  /** A writer outside the repositories of the payment transactions, or the rejection logged after a rollback. */
  predicate RunsWhole(db: Db, step: Step) {
    || step.DoCreateOrder? || step.DoCreateRedemption? || step.DoCommitDiscount? || step.DoReleaseRedemption? || step.DoEarn?
    || (step.DoLapseSub? && step.sub < |db.subs|)
    || step.DoLogRejection?
  }

  /** The discount a thread is committing. */
  predicate PriceKnown(db: Db, tx: Tx, red: Redemption) {
    tx.TxWhole? && tx.step.DoCommitDiscount? && tx.step.redemption < |db.redemptions| && red.order < |db.orders|
  }

  predicate TxKnown(db: Db, tx: Tx) {
    match tx
    case TxWhole(step) => RunsWhole(db, step)
    case TxInitiate(_, _, _, _, _) => true
    case TxCall(v, _) => AttemptKnown(db, v.attempt)
    case TxBind(a, _, _) => AttemptKnown(db, a)
    case TxReopen(a) => AttemptKnown(db, a)
    case TxFinalize(a, _) => AttemptKnown(db, a)
  }

  /** The locks of a transaction, in the order it takes them. */
  function LocksOf(db: Db, tx: Tx): seq<Lock>
    requires TxKnown(db, tx)
  {
    match tx
    case TxWhole(step) =>
      if step.DoCreateOrder? || step.DoLogRejection? then []
      else if step.DoLapseSub? then [SubLock(db.subs[step.sub].user)]
      else [IzlLock(step.user)]
    case TxInitiate(user, _, _, _, _) => [IzlLock(user)]
    case TxCall(v, _) => [PayLock(OrderOf(db, v.attempt))]
    case TxBind(a, _, _) => [PayLock(OrderOf(db, a))]
    case TxReopen(a) => [PayLock(OrderOf(db, a))]
    case TxFinalize(a, discounted) =>
      [SubLock(UserOf(db, a)), PayLock(OrderOf(db, a))] + if discounted then [IzlLock(UserOf(db, a))] else []
  }

  predicate InInit(p: Proc) { p.InitOrderRead? || p.InitEligible? || p.InitBacked? }

  predicate InPrice(p: Proc) { p.PriceRead? || p.PriceChecked? }

  predicate InCall(p: Proc) {
    p.CallFresh? || p.CallAttemptRead? || p.CallOrderRead? || p.CallOthersRead? || p.CallDecided?
  }

  predicate InReopen(p: Proc) { p.ReopenTerminal? || p.ReopenOrderRead? || p.ReopenPendingRead? || p.ReopenDeciding? }

  predicate InFin(p: Proc) {
    p.FinAttemptRead? || p.FinOrderRead? || p.FinUnpaid? || p.FinBacked? || p.FinSubRead? || p.FinNumbered? || p.FinPosted?
  }

  /** A thread stands at a point of a transaction of the right kind. */
  predicate Known(db: Db, p: Proc) {
    p.Idle? || (
      && TxKnown(db, p.tx)
      && (p.Taking? ==> p.n <= |LocksOf(db, p.tx)|)
      && (InInit(p) ==> p.tx.TxInitiate? && p.tx.order < |db.orders|)
      && (InPrice(p) ==> PriceKnown(db, p.tx, p.red))
      && (InCall(p) ==> p.tx.TxCall?)
      && (p.BindRead? ==> p.tx.TxBind?)
      && (InReopen(p) ==> p.tx.TxReopen?)
      && (InFin(p) ==> p.tx.TxFinalize?))
  }

  /** The locks a thread holds: those it has taken, and all of them from then on. */
  function Held(db: Db, p: Proc): seq<Lock>
    requires Known(db, p)
  {
    if p.Idle? then [] else if p.Taking? then LocksOf(db, p.tx)[..p.n] else LocksOf(db, p.tx)
  }

  predicate Holds(db: Db, p: Proc, l: Lock) { Known(db, p) && l in Held(db, p) }

  // ---- the commits, built from what was read ----

  /** The insert fails on the unique indexes (order, request) and one PENDING attempt per order. */
  function InitWrite(db: Db, tx: Tx, order: Order): Db
    requires tx.TxInitiate? && tx.order < |db.orders|
  {
    var o := tx.order;
    if FindRequest(db.attempts, o, tx.request).Some? || HasStatus(db.attempts, o, AttemptPending) then db
    else
      db.(attempts := db.attempts + [Attempt(o, tx.provider, None, order.payable, AttemptPending, tx.request, None)],
          orders := db.orders[o := db.orders[o].(status := OrderPending)])
  }

  /** The columns of the order a discount sets. */
  function PriceWrite(db: Db, tx: Tx, red: Redemption, order: Order): Db
    requires PriceKnown(db, tx, red)
  {
    db.(orders := db.orders[red.order := db.orders[red.order].(discount := red.value, payable := order.gross - red.value,
                                                               redemption := Some(tx.step.redemption))])
  }

  function Decision(tx: Tx, pt: Attempt, order: Order, other: bool, taken: bool): Verdict
    requires tx.TxCall?
  {
    if tx.target.None? then SuccessDecision(tx.event, pt, order, other, taken)
    else TerminalDecision(tx.event, tx.target.value, pt, order, taken)
  }

  /** The accepted event and the columns it sets; the external id only when none was read. */
  function AcceptWrite(db: Db, tx: Tx, pt: Attempt): Db
    requires tx.TxCall? && AttemptKnown(db, tx.event.attempt)
  {
    var v, row := tx.event, db.attempts[tx.event.attempt];
    var externalId := if pt.externalId.Some? then row.externalId else if tx.target.None? then v.externalId else Brought(v);
    if tx.target.None? then
      AcceptEvent(db, v, ACCEPTED, row.(status := Succeeded, confirmedAt := Some(v.confirmedAt), externalId := externalId)).0
    else
      AcceptEvent(db, v, AcceptedCode(tx.target.value, v.reasonCode),
                  row.(status := StatusOf(tx.target.value), externalId := externalId)).0
  }

  /** The accepted write fails on the unique index of external ids. */
  predicate AcceptConflicts(db: Db, tx: Tx, pt: Attempt)
    requires tx.TxCall?
  {
    pt.externalId.None? && BroughtIsTaken(db.attempts, tx.event)
  }

  function CallWrite(db: Db, tx: Tx, pt: Attempt, verdict: Verdict): Db
    requires tx.TxCall? && AttemptKnown(db, tx.event.attempt)
  {
    match verdict
    case Reject(a, why) => RejectEvent(db, tx.event, a, why).0
    case SameTruth => DuplicateEvent(db, tx.event).0
    case Accept => AcceptWrite(db, tx, pt)
  }

  /** The update fails on the unique index of external ids. */
  function BindWrite(db: Db, tx: Tx): Db
    requires tx.TxBind? && AttemptKnown(db, tx.attempt)
  {
    if ExternalIdTaken(db.attempts, tx.provider, tx.externalId, tx.attempt) then db
    else db.(attempts := db.attempts[tx.attempt := db.attempts[tx.attempt].(externalId := Some(tx.externalId))])
  }

  function ReopenWrite(db: Db, a: Id): Db
    requires AttemptKnown(db, a)
  {
    var o := OrderOf(db, a);
    db.(orders := db.orders[o := db.orders[o].(status := OrderCreated)])
  }

  /** The cycle, the subscription, the debit and the paid order, all from the rows read. */
  function FinWrite(db: Db, p: Proc): Db
    requires p.FinPosted? && p.pt.confirmedAt.Some? && p.pt.order < |db.orders| && p.order.price < |db.prices|
    requires db.prices[p.order.price].months > 0
    requires p.sub.Some? ==> p.sub.value < |db.subs|
    requires p.order.redemption.Some? ==> p.order.redemption.value < |db.redemptions|
  {
    var o, start := p.pt.order, p.pt.confirmedAt.value;
    var sub := if p.sub.Some? then p.sub.value else |db.subs|;
    var cycle := Cycle(sub, p.seqNo, start, CalendarMonth.AddCalendarMonths(start, db.prices[p.order.price].months),
                       p.order.plan, p.order.price, p.order.gross, p.order.discount, p.order.payable, o);
    var posted :=
      if p.order.redemption.None? then db
      else
        var r := p.order.redemption.value;
        var red := db.redemptions[r];
        db.(ledger := db.ledger + [Entry(p.order.user, p.entryNo + 1, Redeem, -p.izl, p.balance - p.izl, Some(r), Some(|db.cycles|))],
            redemptions := db.redemptions[r := red.(status := Applied, hold := red.hold.(status := HoldConsumed))]);
    posted.(subs := if p.sub.Some?
                    then db.subs[sub := db.subs[sub].(plan := p.order.plan, status := SubActive, currentCycle := Some(|db.cycles|))]
                    else db.subs + [Sub(p.order.user, p.order.plan, SubActive, start, Some(|db.cycles|))],
            cycles := db.cycles + [cycle],
            orders := db.orders[o := db.orders[o].(status := OrderPaid)])
  }

  // ---- the scheduler ----

  /** A thread may begin any transaction; finalization has pre-read whether its order is discounted. */
  predicate Begins(db: Db, tx: Tx) {
    && TxKnown(db, tx)
    && !(tx.TxWhole? && tx.step.DoLogRejection?)
    && (tx.TxFinalize? ==> tx.discounted == db.orders[OrderOf(db, tx.attempt)].redemption.Some?)
  }

  function Goto(s: Sys, i: nat, p: Proc): Sys
    requires i < |s.procs|
  {
    s.(procs := s.procs[i := p])
  }

  /** Commit `db` (or roll back, with `db == s.db`), release every lock of the thread, and go on as `p`. */
  function Finish(s: Sys, i: nat, db: Db, p: Proc := Idle): Sys
    requires i < |s.procs|
  {
    Sys(db, s.procs[i := p], map l | l in s.locks && s.locks[l] != i :: s.locks[l])
  }

  /** Takes the next lock of its transaction, and blocks (stays put) while that is taken. */
  function Take(s: Sys, i: nat, tx: Tx, n: nat): Sys
    requires i < |s.procs| && TxKnown(s.db, tx)
  {
    if n >= |LocksOf(s.db, tx)| then Goto(s, i, Ready(tx))
    else
      var l := LocksOf(s.db, tx)[n];
      if l in s.locks then s else Goto(s, i, Taking(tx, n + 1)).(locks := s.locks[l := i])
  }

  /** The first read of a transaction that holds its locks. */
  ghost function First(s: Sys, i: nat, tx: Tx): Sys
    requires i < |s.procs| && ForeignKeys(s.db) && TxKnown(s.db, tx)
  {
    var db := s.db;
    match tx
    case TxWhole(step) =>
      if !step.DoCommitDiscount? then Finish(s, i, Apply(db, step))
      else if step.redemption < |db.redemptions| && db.redemptions[step.redemption].user == step.user
      then Goto(s, i, PriceRead(tx, db.redemptions[step.redemption]))
      else Finish(s, i, db)
    case TxInitiate(user, o, _, _, _) =>
      if o < |db.orders| && db.orders[o].user == user then Goto(s, i, InitOrderRead(tx, db.orders[o])) else Finish(s, i, db)
    case TxCall(v, _) => if KeyOf(v) in db.events then Finish(s, i, db) else Goto(s, i, CallFresh(tx))
    case TxBind(a, provider, externalId) =>
      var pt := db.attempts[a];
      if NonBlank(externalId) && pt.provider == provider && pt.status.AttemptPending? && pt.externalId.None?
      then Goto(s, i, BindRead(tx, pt)) else Finish(s, i, db)
    case TxReopen(a) => if Terminal(db.attempts[a].status) then Goto(s, i, ReopenTerminal(tx)) else Finish(s, i, db)
    case TxFinalize(a, _) =>
      var pt := db.attempts[a];
      if pt.status.Succeeded? && pt.confirmedAt.Some? then Goto(s, i, FinAttemptRead(tx, pt)) else Finish(s, i, db)
  }

  /** The guards of initiation on the order row, between the reads of a prior request and of the redemption. */
  predicate Eligible(order: Order, now: int) {
    order.purpose.SubscriptionPurchase? && order.status.OrderCreated? && !Expired(order, now) && order.payable > 0
  }

  ghost function InitNext(s: Sys, i: nat): Sys
    requires i < |s.procs| && Known(s.db, s.procs[i])
    requires InInit(s.procs[i])
  {
    var db := s.db;
    match s.procs[i]
    case InitOrderRead(tx, order) =>
      if FindRequest(db.attempts, tx.order, tx.request).None? && Eligible(order, tx.now) then Goto(s, i, InitEligible(tx, order))
      else Finish(s, i, db)
    case InitEligible(tx, order) =>
      if CommittedDiscountOk(db, tx.order) then Goto(s, i, InitBacked(tx, order)) else Finish(s, i, db)
    case InitBacked(tx, order) => Finish(s, i, InitWrite(db, tx, order))
  }

  ghost function PriceNext(s: Sys, i: nat): Sys
    requires i < |s.procs| && Known(s.db, s.procs[i]) && InPrice(s.procs[i])
  {
    var db := s.db;
    match s.procs[i]
    case PriceRead(tx, red) =>
      var order := db.orders[red.order];
      if Committable(red, order, tx.step.user, tx.step.now) then Goto(s, i, PriceChecked(tx, red, order)) else Finish(s, i, db)
    case PriceChecked(tx, red, order) => Finish(s, i, PriceWrite(db, tx, red, order))
  }

  ghost function CallNext(s: Sys, i: nat): Sys
    requires i < |s.procs| && Known(s.db, s.procs[i])
    requires InCall(s.procs[i])
  {
    var db := s.db;
    var a := s.procs[i].tx.event.attempt;
    match s.procs[i]
    case CallFresh(tx) => Goto(s, i, CallAttemptRead(tx, db.attempts[a]))
    case CallAttemptRead(tx, pt) => Goto(s, i, CallOrderRead(tx, pt, db.orders[OrderOf(db, a)]))
    case CallOrderRead(tx, pt, order) =>
      Goto(s, i, CallOthersRead(tx, pt, order, OtherSucceeded(db.attempts, OrderOf(db, a), a)))
    case CallOthersRead(tx, pt, order, other) =>
      Goto(s, i, CallDecided(tx, pt, order, other, BroughtIsTaken(db.attempts, tx.event)))
    case CallDecided(tx, pt, order, other, taken) =>
      var verdict := Decision(tx, pt, order, other, taken);
      if KeyOf(tx.event) in db.events then Finish(s, i, db)
      else if verdict.Accept? && AcceptConflicts(db, tx, pt) then
        Finish(s, i, db, Taking(TxWhole(DoLogRejection(tx.event, ExternalIdConflict)), 0))
      else Finish(s, i, CallWrite(db, tx, pt, verdict))
  }

  ghost function ReopenNext(s: Sys, i: nat): Sys
    requires i < |s.procs| && Known(s.db, s.procs[i])
    requires InReopen(s.procs[i])
  {
    var db := s.db;
    var o := OrderOf(db, s.procs[i].tx.attempt);
    match s.procs[i]
    case ReopenTerminal(tx) => Goto(s, i, ReopenOrderRead(tx, db.orders[o].status))
    case ReopenOrderRead(tx, status) => Goto(s, i, ReopenPendingRead(tx, status, HasStatus(db.attempts, o, AttemptPending)))
    case ReopenPendingRead(tx, status, pending) =>
      Goto(s, i, ReopenDeciding(tx, status, pending, HasStatus(db.attempts, o, Succeeded)))
    case ReopenDeciding(tx, status, pending, succeeded) =>
      if ReopenDecision(status, pending, succeeded).Reopened? then Finish(s, i, ReopenWrite(db, tx.attempt)) else Finish(s, i, db)
  }

  /** The guards of finalization on the two rows read first; a PAID order is replayed, which writes nothing. */
  predicate Payable(pt: Attempt, order: Order) {
    order.purpose.SubscriptionPurchase? && pt.amount == order.payable && order.status.OrderPending?
  }

  ghost function FinNext(s: Sys, i: nat): Sys
    requires i < |s.procs| && Known(s.db, s.procs[i]) && ForeignKeys(s.db) && FinReadsFit(s.db, s.procs[i])
    requires InFin(s.procs[i])
  {
    var db := s.db;
    var o := OrderOf(db, s.procs[i].tx.attempt);
    match s.procs[i]
    case FinAttemptRead(tx, pt) =>
      if Payable(pt, db.orders[o]) then Goto(s, i, FinOrderRead(tx, pt, db.orders[o])) else Finish(s, i, db)
    case FinOrderRead(tx, pt, order) =>
      if FindCycle(db.cycles, o).None? then Goto(s, i, FinUnpaid(tx, pt, order)) else Finish(s, i, db)
    case FinUnpaid(tx, pt, order) =>
      if DiscountProvenance(db, o) && PriceConsistent(db, order) then
        var izl := if order.redemption.Some? && order.redemption.value < |db.redemptions|
                   then db.redemptions[order.redemption.value].amount else 0;
        Goto(s, i, FinBacked(tx, pt, order, izl))
      else Finish(s, i, db)
    case FinBacked(tx, pt, order, izl) =>
      var sub := FindNonterminal(db.subs, order.user);
      if sub.Some? && db.subs[sub.value].status.SubActive? then Finish(s, i, db)
      else Goto(s, i, FinSubRead(tx, pt, order, izl, sub))
    case FinSubRead(tx, pt, order, izl, sub) =>
      Goto(s, i, FinNumbered(tx, pt, order, izl, sub, if sub.None? then 1 else MaxSeqNo(db.cycles, sub.value) + 1))
    case FinNumbered(tx, pt, order, izl, sub, seqNo) =>
      Goto(s, i, FinPosted(tx, pt, order, izl, sub, seqNo, MaxEntryNo(db.ledger, order.user), Balance(db.ledger, order.user)))
    case FinPosted(_, _, _, _, _, _, _, _) => Finish(s, i, FinWrite(db, s.procs[i]))
  }

  /** The ids among the rows read refer to rows. */
  predicate FinReadsFit(db: Db, p: Proc) {
    p.FinPosted? ==>
      && p.pt.confirmedAt.Some? && p.pt.order < |db.orders| && p.order.price < |db.prices|
      && db.prices[p.order.price].months > 0
      && (p.sub.Some? ==> p.sub.value < |db.subs|)
      && (p.order.redemption.Some? ==> p.order.redemption.value < |db.redemptions|)
  }

  /** One step of thread `i`. `begin` is the transaction it starts when idle. */
  ghost function Advance(s: Sys, i: nat, begin: Tx): Sys
    requires i < |s.procs| && ForeignKeys(s.db) && Known(s.db, s.procs[i]) && FinReadsFit(s.db, s.procs[i])
  {
    var p := s.procs[i];
    if p.Idle? then (if Begins(s.db, begin) then Goto(s, i, Taking(begin, 0)) else s)
    else if p.Taking? then Take(s, i, p.tx, p.n)
    else if p.Ready? then First(s, i, p.tx)
    else if p.BindRead? then Finish(s, i, BindWrite(s.db, p.tx))
    else if InInit(p) then InitNext(s, i)
    else if InPrice(p) then PriceNext(s, i)
    else if InCall(p) then CallNext(s, i)
    else if InReopen(p) then ReopenNext(s, i)
    else FinNext(s, i)
  }
}
