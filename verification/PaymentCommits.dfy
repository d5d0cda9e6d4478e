/** A commit built from rows read earlier is the whole transaction of `PaymentSteps`, taken at the moment of the commit. */
module PaymentCommits {
  import opened Basics
  import opened PaymentModel
  import opened PaymentSteps
  import opened PaymentInvariants
  import opened PaymentRuns
  import opened PaymentLocks
  import opened PaymentReads
  import CalendarMonth

  /** The whole transaction a thread runs piecemeal. */
  function StepOf(tx: Tx): Step {
    match tx
    case TxWhole(step) => step
    case TxInitiate(user, order, provider, request, now) => DoInitiate(user, order, provider, request, now)
    case TxCall(v, target) => if target.None? then DoSuccess(v) else DoTerminal(v, target.value)
    case TxBind(a, provider, externalId) => DoBind(a, provider, externalId)
    case TxReopen(a) => DoReopen(a)
    case TxFinalize(a, _) => DoFinalize(a)
  }

  // ---- initiation, binding, reopening ----

  /** A CREATED order has no live attempt. */
  lemma CreatedHasNoLive(db: Db, o: Id)
    requires AttemptsOk(db.orders, db.attempts) && o < |db.orders| && db.orders[o].status.OrderCreated?
    ensures !HasStatus(db.attempts, o, AttemptPending) && !HasStatus(db.attempts, o, Succeeded)
  {
    assert forall b :: 0 <= b < |db.attempts| ==> AttemptOk(db.orders, db.attempts[b]);
  }

  lemma InitCommit(db: Db, p: Proc)
    requires Inv(db) && ProcOk(db, p) && p.InitBacked?
    ensures FindRequest(db.attempts, p.tx.order, p.tx.request).None? && !HasStatus(db.attempts, p.tx.order, AttemptPending)
    ensures InitWrite(db, p.tx, p.order) == Apply(db, StepOf(p.tx))
  {
    assert AttemptsOk(db.orders, db.attempts) && InitOk(db, p);
    hide Inv, AttemptsOk, ProcOk, ReadsOk;
    CreatedHasNoLive(db, p.tx.order);
    hide HasStatus, CommittedDiscountOk, FindRequest, Expired;
  }

  lemma PriceCommit(db: Db, p: Proc)
    requires ForeignKeys(db) && ProcOk(db, p) && p.PriceChecked?
    ensures PriceKnown(db, p.tx, p.red) && PriceWrite(db, p.tx, p.red, p.order) == Apply(db, StepOf(p.tx))
  {
    hide Expired, MaxDiscount, ForeignKeys;
  }

  lemma BindCommit(db: Db, p: Proc)
    requires ProcOk(db, p) && p.BindRead?
    ensures BindWrite(db, p.tx) == Bind(db, p.tx.attempt, p.tx.provider, p.tx.externalId).0
  {
    hide ExternalIdTaken, NonBlank;
  }

  lemma ReopenCommit(db: Db, p: Proc)
    requires ForeignKeys(db) && ProcOk(db, p) && p.ReopenDeciding? && ReopenDecision(p.status, p.pending, p.succeeded).Reopened?
    ensures ReopenWrite(db, p.tx.attempt) == Reopen(db, p.tx.attempt).0
  {
    hide HasStatus;
  }

  // ---- callbacks ----

  /** What the whole transaction would decide now. */
  function DecisionNow(db: Db, tx: Tx): Verdict
    requires tx.TxCall? && AttemptKnown(db, tx.event.attempt)
  {
    var a, pt := tx.event.attempt, db.attempts[tx.event.attempt];
    Decision(tx, pt, db.orders[pt.order], OtherSucceeded(db.attempts, pt.order, a), BroughtIsTaken(db.attempts, tx.event))
  }

  lemma DecisionIsVerdict(db: Db, tx: Tx)
    requires ForeignKeys(db) && tx.TxCall? && TxKnown(db, tx)
    ensures DecisionNow(db, tx) == if tx.target.None? then SuccessVerdict(db, tx.event) else TerminalVerdict(db, tx.event, tx.target.value)
  {
    hide SuccessDecision, TerminalDecision, BroughtIsTaken, OtherSucceeded, ForeignKeys;
  }

  /** A PENDING attempt is the only live one of its order, and no other has its external id. */
  lemma PendingIsAlone(db: Db, a: Id)
    requires AttemptsOk(db.orders, db.attempts) && ExternalIdsOk(db.attempts)
    requires a < |db.attempts| && db.attempts[a].status.AttemptPending?
    ensures !OtherSucceeded(db.attempts, db.attempts[a].order, a)
    ensures db.attempts[a].externalId.Some?
            ==> !ExternalIdTaken(db.attempts, db.attempts[a].provider, db.attempts[a].externalId.value, a)
  {
  }

  /** A success of a terminal attempt, with the right provider and amount, whose order was re-priced since it was read. */
  predicate PriceOvertakes(v: VerifiedEvent, pt: Attempt, order: Order, now: Order) {
    && Terminal(pt.status) && pt.provider == v.provider && v.amount == Some(pt.amount)
    && (pt.amount == order.payable) != (pt.amount == now.payable)
  }

  predicate Overtaken(db: Db, p: Proc)
    requires p.CallDecided? && Known(db, p)
  {
    p.tx.target.None? && p.pt.order < |db.orders| && PriceOvertakes(p.tx.event, p.pt, p.order, db.orders[p.pt.order])
  }

  /**
   The decision from the rows read is the one of the whole transaction, exactly unless a success of a terminal attempt
   is refused for an amount that has been overtaken, or an accepted write meets the unique index of external ids.
   */
  lemma DecisionHolds(db: Db, p: Proc)
    requires Inv(db) && ProcOk(db, p) && p.CallDecided?
    ensures Known(db, p)
    ensures var verdict, now, a := Decision(p.tx, p.pt, p.order, p.other, p.taken), DecisionNow(db, p.tx), p.tx.event.attempt;
            && (verdict == now <==> !Overtaken(db, p) && !(verdict.Accept? && AcceptConflicts(db, p.tx, p.pt)))
            && (Overtaken(db, p) ==> verdict.Reject? && verdict.attempt == Some(a) && now.Reject?)
            && (verdict.Accept? && AcceptConflicts(db, p.tx, p.pt) ==> now == Reject(Some(a), ExternalIdConflict))
  {
    var a, v := p.tx.event.attempt, p.tx.event;
    assert AttemptsOk(db.orders, db.attempts) && ExternalIdsOk(db.attempts) && CallOk(db, p);
    assert AttemptOk(db.orders, db.attempts[a]);
    hide Inv, AttemptsOk, ExternalIdsOk, ProcOk, ReadsOk;
    if p.pt.status.AttemptPending? {
      PendingIsAlone(db, a);
    }
    hide OtherSucceeded, ExternalIdTaken;
    var order, other, taken := db.orders[p.pt.order], OtherSucceeded(db.attempts, p.pt.order, a), BroughtIsTaken(db.attempts, v);
    assert taken && p.pt.status.AttemptPending? && p.pt.provider == v.provider ==> p.pt.externalId != v.externalId;
    assert taken ==> Present(v.externalId);
    hide BroughtIsTaken, Present, AttemptOk;
    if p.tx.target.None? {
      SuccessAgrees(v, p.pt, p.order, order, p.other, other, p.taken, taken);
    } else {
      TerminalAgrees(v, p.tx.target.value, p.pt, p.order, order, p.taken, taken);
    }
    hide SuccessDecision, TerminalDecision, OrderSeen, Live, PriceOvertakes;
  }

  /** The guards of a success on rows read (`order`, `other`, `taken`) and on the rows as they are now. */
  lemma SuccessAgrees(v: VerifiedEvent, pt: Attempt, order: Order, order': Order, other: bool, other': bool, taken: bool, taken': bool)
    requires !pt.status.Refunded? && (Live(pt.status) ==> order == order')
    requires pt.status.AttemptPending? ==> !other && !other'
    requires taken ==> taken'
    requires taken' ==> Present(v.externalId)
    requires taken' && pt.status.AttemptPending? && pt.provider == v.provider ==> pt.externalId != v.externalId
    requires order.currency == order'.currency
    ensures var was, now := SuccessDecision(v, pt, order, other, taken), SuccessDecision(v, pt, order', other', taken');
            var overtaken, conflicts := PriceOvertakes(v, pt, order, order'), was.Accept? && pt.externalId.None? && taken';
            && (was == now <==> !overtaken && !conflicts)
            && (overtaken ==> was.Reject? && was.attempt == Some(v.attempt) && now.Reject?)
            && (conflicts ==> now == Reject(Some(v.attempt), ExternalIdConflict))
  {
    hide Present;
  }

  lemma TerminalAgrees(v: VerifiedEvent, target: Target, pt: Attempt, order: Order, order': Order, taken: bool, taken': bool)
    requires order.currency == order'.currency
    requires taken ==> taken'
    requires taken' ==> Present(v.externalId)
    requires taken' && pt.status.AttemptPending? && pt.provider == v.provider ==> pt.externalId != v.externalId
    ensures var was, now := TerminalDecision(v, target, pt, order, taken), TerminalDecision(v, target, pt, order', taken');
            var conflicts := was.Accept? && pt.externalId.None? && taken';
            && (was == now <==> !conflicts)
            && (conflicts ==> now == Reject(Some(v.attempt), ExternalIdConflict))
  {
    hide Present;
  }

  lemma RejectedIsLogged(db: Db, v: VerifiedEvent, why: RejectReason)
    requires KeyOf(v) !in db.events && v.attempt < |db.attempts|
    ensures RejectEvent(db, v, Some(v.attempt), why).0 == LogRejection(db, v, why)
  {
  }

  /** A decided callback commits the whole transaction, or logs a refusal whose reason has been overtaken. */
  lemma CallCommit(db: Db, p: Proc)
    requires Inv(db) && ProcOk(db, p) && p.CallDecided? && KeyOf(p.tx.event) !in db.events
    ensures Known(db, p)
    ensures var verdict := Decision(p.tx, p.pt, p.order, p.other, p.taken);
            || (verdict.Accept? && AcceptConflicts(db, p.tx, p.pt))
            || CallWrite(db, p.tx, p.pt, verdict) == Apply(db, StepOf(p.tx))
            || (Overtaken(db, p) && verdict.Reject?
                && CallWrite(db, p.tx, p.pt, verdict) == Apply(db, DoLogRejection(p.tx.event, verdict.why)))
  {
    DecisionHolds(db, p);
    assert ForeignKeys(db) && CallOk(db, p);
    var verdict := Decision(p.tx, p.pt, p.order, p.other, p.taken);
    hide Inv, ReadsOk, ForeignKeys, Decision, DecisionNow, AcceptConflicts, Apply, Held, BroughtIsTaken, Overtaken;
    if verdict == DecisionNow(db, p.tx) {
      VerdictIsWritten(db, p.tx, p.pt, verdict);
    } else if verdict.Reject? {
      RejectionIsWritten(db, p.tx, p.pt, verdict);
    }
  }

  lemma RejectionIsWritten(db: Db, tx: Tx, pt: Attempt, verdict: Verdict)
    requires tx.TxCall? && TxKnown(db, tx) && ForeignKeys(db) && KeyOf(tx.event) !in db.events
    requires verdict.Reject? && verdict.attempt == Some(tx.event.attempt)
    ensures CallWrite(db, tx, pt, verdict) == Apply(db, DoLogRejection(tx.event, verdict.why))
  {
    RejectedIsLogged(db, tx.event, verdict.why);
    hide RejectEvent, LogRejection;
  }

  lemma VerdictIsWritten(db: Db, tx: Tx, pt: Attempt, verdict: Verdict)
    requires tx.TxCall? && TxKnown(db, tx) && ForeignKeys(db) && KeyOf(tx.event) !in db.events
    requires db.attempts[tx.event.attempt] == pt && verdict == DecisionNow(db, tx)
    ensures CallWrite(db, tx, pt, verdict) == Apply(db, StepOf(tx))
  {
    DecisionIsVerdict(db, tx);
    hide DecisionNow, SuccessVerdict, TerminalVerdict, RejectEvent, DuplicateEvent, ForeignKeys, AcceptedCode, Brought;
  }

  // ---- finalization ----

  /** The guards passed on the rows read are those of the whole transaction. */
  lemma FinPasses(db: Db, p: Proc)
    requires ForeignKeys(db) && Known(db, p) && p.FinPosted? && FinRowsOk(db, p) && FinDiscountOk(db, p) && FinSubOk(db, p)
    ensures Finalizable(db, p.tx.attempt)
    ensures Finalize(db, p.tx.attempt).0 == CommitFinalization(db, p.tx.attempt)
  {
    hide FindNonterminal, MaxSeqNo, FindCycle, ReconstructFinalized, CommitFinalization, DiscountProvenance, PriceConsistent,
      ForeignKeys;
  }

  lemma FinFits(db: Db, p: Proc)
    requires ForeignKeys(db) && Known(db, p) && p.FinPosted? && FinRowsOk(db, p) && FinDiscountOk(db, p) && FinSubOk(db, p)
    ensures FinReadsFit(db, p)
  {
    hide MaxSeqNo, FindCycle;
  }

  lemma SubIsWritten(db: Db, p: Proc)
    requires Known(db, p) && p.FinPosted? && FinSubOk(db, p) && FinReadsFit(db, p)
    ensures FinWrite(db, p).subs == ActivateSub(db, p.order.user, p.order.plan, p.pt.confirmedAt.value)
  {
    hide MaxSeqNo;
  }

  lemma CycleOfRows(db: Db, a: Id, pt: Attempt, order: Order, seqNo: int)
    requires a < |db.attempts| && db.attempts[a] == pt && pt.confirmedAt.Some? && pt.order < |db.orders|
    requires db.orders[pt.order] == order && PriceConsistent(db, order)
    requires var found := FindNonterminal(db.subs, order.user);
             seqNo == if found.None? then 1 else MaxSeqNo(db.cycles, found.value) + 1
    ensures NewCycle(db, a)
            == Cycle(TargetSub(db, order.user), seqNo, pt.confirmedAt.value,
                     CalendarMonth.AddCalendarMonths(pt.confirmedAt.value, db.prices[order.price].months),
                     order.plan, order.price, order.gross, order.discount, order.payable, pt.order)
  {
    hide MaxSeqNo;
  }

  lemma CycleIsWritten(db: Db, p: Proc)
    requires ForeignKeys(db) && Known(db, p) && p.FinPosted? && FinRowsOk(db, p) && FinSubOk(db, p) && FinReadsFit(db, p)
    requires PriceConsistent(db, p.order)
    ensures FinWrite(db, p).cycles == db.cycles + [NewCycle(db, p.tx.attempt)]
  {
    hide MaxSeqNo, FindCycle, ForeignKeys, LocksOf, FindNonterminal, NewCycle;
    CycleOfRows(db, p.tx.attempt, p.pt, p.order, p.seqNo);
    hide Payable, Known, PriceConsistent, FinRowsOk;
  }

  lemma MoneyIsWritten(db: Db, p: Proc)
    requires p.FinPosted? && FinReadsFit(db, p) && p.order.redemption.Some?
    requires p.izl == db.redemptions[p.order.redemption.value].amount
    requires p.entryNo == MaxEntryNo(db.ledger, p.order.user) && p.balance == Balance(db.ledger, p.order.user)
    ensures var db', consumed := FinWrite(db, p), ConsumeDiscount(db, p.order.user, p.order.redemption.value);
            db'.ledger == consumed.ledger && db'.redemptions == consumed.redemptions
  {
    hide MaxEntryNo, Balance;
  }

  /** The tables finalization does not touch, and the one order it does. */
  lemma RestIsWritten(db: Db, p: Proc)
    requires p.FinPosted? && FinReadsFit(db, p) && db.orders[p.pt.order] == p.order
    ensures var db' := FinWrite(db, p);
            && db'.prices == db.prices && db'.attempts == db.attempts && db'.events == db.events
            && db'.orders == db.orders[p.pt.order := p.order.(status := OrderPaid)]
            && (p.order.redemption.None? ==> db'.ledger == db.ledger && db'.redemptions == db.redemptions)
  {
  }

  lemma FinMoney(db: Db, p: Proc)
    requires Known(db, p) && p.FinPosted? && FinRowsOk(db, p) && FinDiscountOk(db, p) && FinLedgerOk(db, p) && FinReadsFit(db, p)
    requires p.order.redemption.Some?
    ensures p.izl == db.redemptions[p.order.redemption.value].amount
    ensures p.entryNo == MaxEntryNo(db.ledger, p.order.user) && p.balance == Balance(db.ledger, p.order.user)
  {
    hide MaxEntryNo, Balance, FindCycle, DiscountProvenance, PriceConsistent, Known;
  }

  lemma FinRows(db: Db, p: Proc)
    requires Known(db, p) && p.FinPosted? && FinRowsOk(db, p)
    ensures db.attempts[p.tx.attempt] == p.pt && db.orders[p.pt.order] == p.order && p.pt.confirmedAt.Some?
  {
    hide FindCycle;
  }

  lemma FinWritesAll(db: Db, p: Proc)
    requires ForeignKeys(db) && Known(db, p) && p.FinPosted? && FinRowsOk(db, p) && FinDiscountOk(db, p) && FinSubOk(db, p)
    requires FinLedgerOk(db, p)
    ensures FinReadsFit(db, p) && FinWrite(db, p) == Finalize(db, p.tx.attempt).0
  {
    hide FinRowsOk, FinDiscountOk, FinSubOk, FinLedgerOk, FinWrite, CommitFinalization, Finalize, ForeignKeys, ActivateSub,
      NewCycle, ConsumeDiscount, Finalizable, PriceConsistent;
    FinPasses(db, p);
    FinFits(db, p);
    FinRows(db, p);
    assert p.tx.attempt < |db.attempts| && db.attempts[p.tx.attempt].order < |db.orders|;
    FinPriced(db, p);
    SubIsWritten(db, p);
    CycleIsWritten(db, p);
    RestIsWritten(db, p);
    if p.order.redemption.Some? {
      FinMoney(db, p);
      MoneyIsWritten(db, p);
    }
    CommittedRows(db, p.tx.attempt);
    SameTables(FinWrite(db, p), CommitFinalization(db, p.tx.attempt));
  }

  lemma FinPriced(db: Db, p: Proc)
    requires Known(db, p) && p.FinPosted? && FinRowsOk(db, p) && FinDiscountOk(db, p)
    ensures PriceConsistent(db, p.order)
  {
    hide FindCycle, DiscountProvenance;
  }

  lemma FinCommit(db: Db, p: Proc)
    requires Inv(db) && ProcOk(db, p) && p.FinPosted?
    ensures FinReadsFit(db, p) && FinWrite(db, p) == Apply(db, StepOf(p.tx))
  {
    hide FinReadsFit, FinWrite, Finalize, FinRowsOk, FinDiscountOk, FinSubOk, FinLedgerOk, AttemptsOk, OrdersOk, LogOk,
      DiscountsOk, RedeemsOk, LedgerOk, SubsOk, CyclesOk, ExternalIdsOk, PricesOk, ForeignKeys, TxOk, Held;
    FinWritesAll(db, p);
  }

  lemma SameTables(x: Db, y: Db)
    requires x.prices == y.prices && x.orders == y.orders && x.attempts == y.attempts && x.events == y.events
    requires x.redemptions == y.redemptions && x.subs == y.subs && x.cycles == y.cycles && x.ledger == y.ledger
    ensures x == y
  {
  }
}
