/**
 What each lock protects. A transaction leaves alone what is protected by the locks it does not hold, so what another
 thread read under them still holds.
 */
module PaymentRely {
  import opened PaymentModel
  import opened PaymentSteps
  import opened PaymentInvariants
  import opened PaymentRuns
  import opened PaymentLocks

  /** What becomes of an order read CREATED while its pay lock is held: only an initiation moves it. */
  predicate CreatedOrRetried(db: Db, o: Id) {
    && o < |db.orders|
    && (db.orders[o].status.OrderCreated? || (db.orders[o].status.OrderPending? && HasStatus(db.attempts, o, AttemptPending)))
  }

  ghost predicate NoNewAttempt(db: Db, db': Db, o: Id) {
    forall a :: |db.attempts| <= a < |db'.attempts| ==> db'.attempts[a].order != o
  }

  /** `pay(o)`: the attempts of the order, its cycles, and the order itself unless it is CREATED. */
  ghost predicate PayKeeps(db: Db, db': Db, o: Id) {
    o < |db.orders| ==>
      && |db.orders| <= |db'.orders| && |db.attempts| <= |db'.attempts|
      && (forall a :: 0 <= a < |db.attempts| && db.attempts[a].order == o ==> db'.attempts[a] == db.attempts[a])
      && (forall c :: |db.cycles| <= c < |db'.cycles| ==> db'.cycles[c].order != o)
      && (if db.orders[o].status.OrderCreated? then CreatedOrRetried(db', o)
          else db'.orders[o] == db.orders[o] && NoNewAttempt(db, db', o) && KeepsRedemption(db, db', db.orders[o]))
  }

  ghost predicate KeepsRedemption(db: Db, db': Db, order: Order) {
    order.redemption.Some? && order.redemption.value < |db.redemptions| ==>
      order.redemption.value < |db'.redemptions|
      && db'.redemptions[order.redemption.value] == db.redemptions[order.redemption.value]
  }

  /** `izl(u)`: the CREATED orders of the user, the redemptions and the ledger. */
  ghost predicate IzlKeeps(db: Db, db': Db, u: Id) {
    && |db.orders| <= |db'.orders| && |db.redemptions| <= |db'.redemptions| && db.ledger <= db'.ledger
    && (forall o :: 0 <= o < |db.orders| && db.orders[o].user == u && db.orders[o].status.OrderCreated? ==>
          db'.orders[o] == db.orders[o] && NoNewAttempt(db, db', o))
    && (forall r :: 0 <= r < |db.redemptions| && db.redemptions[r].user == u ==> db'.redemptions[r] == db.redemptions[r])
    && (forall e :: |db.ledger| <= e < |db'.ledger| ==> db'.ledger[e].user != u)
  }

  /** `sub(u)`: the subscriptions of the user and their cycles. */
  ghost predicate SubKeeps(db: Db, db': Db, u: Id) {
    && |db.subs| <= |db'.subs| && db.cycles <= db'.cycles
    && (forall s :: 0 <= s < |db.subs| && db.subs[s].user == u ==> db'.subs[s] == db.subs[s])
    && (forall s :: |db.subs| <= s < |db'.subs| ==> db'.subs[s].user != u)
    && (forall c :: |db.cycles| <= c < |db'.cycles| && db'.cycles[c].sub < |db.subs| ==> db.subs[db'.cycles[c].sub].user != u)
  }

  ghost predicate Keeps(db: Db, db': Db, l: Lock) {
    match l
    case SubLock(u) => SubKeeps(db, db', u)
    case PayLock(o) => PayKeeps(db, db', o)
    case IzlLock(u) => IzlKeeps(db, db', u)
  }

  /** Without any lock: an order that is not CREATED keeps its price. */
  ghost predicate PricesSettled(db: Db, db': Db) {
    forall o :: 0 <= o < |db.orders| && !db.orders[o].status.OrderCreated? ==>
      o < |db'.orders| && db'.orders[o].payable == db.orders[o].payable && db'.orders[o].redemption == db.orders[o].redemption
  }

  lemma NothingChanges(db: Db, l: Lock)
    ensures Keeps(db, db, l) && PricesSettled(db, db)
  {
  }

  /** The locks that protect what a step writes. */
  function Covers(db: Db, step: Step): set<Lock>
    requires ForeignKeys(db)
  {
    match step
    case DoCreateOrder(_, _) => {}
    case DoCreateRedemption(u, _, _, _, _) => {IzlLock(u)}
    case DoCommitDiscount(u, _, _) => {IzlLock(u)}
    case DoReleaseRedemption(u, _) => {IzlLock(u)}
    case DoEarn(u, _) => {IzlLock(u)}
    case DoLapseSub(s, _) => if s < |db.subs| then {SubLock(db.subs[s].user)} else {}
    case DoInitiate(u, _, _, _, _) => {IzlLock(u)}
    case DoAttachInit(a, _) => if a < |db.attempts| then {PayLock(db.attempts[a].order)} else {}
    case DoBind(a, _, _) => if a < |db.attempts| then {PayLock(db.attempts[a].order)} else {}
    case DoSuccess(v) => if v.attempt < |db.attempts| then {PayLock(db.attempts[v.attempt].order)} else {}
    case DoTerminal(v, _) => if v.attempt < |db.attempts| then {PayLock(db.attempts[v.attempt].order)} else {}
    case DoLogRejection(_, _) => {}
    case DoReopen(a) => if a < |db.attempts| then {PayLock(db.attempts[a].order)} else {}
    case DoFinalize(a) =>
      if a < |db.attempts| then
        var order := db.orders[db.attempts[a].order];
        {SubLock(order.user), PayLock(db.attempts[a].order)} + if order.redemption.Some? then {IzlLock(order.user)} else {}
      else {}
  }

  // ---- each step writes only under its locks ----

  lemma CreateOrderKeeps(db: Db, user: Id, price: Id, l: Lock)
    requires ForeignKeys(db)
    ensures Keeps(db, CreateOrder(db, user, price), l) && PricesSettled(db, CreateOrder(db, user, price))
  {
  }

  lemma CreateRedemptionKeeps(db: Db, user: Id, order: Id, amount: int, rate: int, now: int, l: Lock)
    requires l != IzlLock(user)
    ensures var db' := CreateRedemption(db, user, order, amount, rate, now); Keeps(db, db', l) && PricesSettled(db, db')
  {
    CreateRedemptionShape(db, user, order, amount, rate, now);
    NothingChanges(db, l);
    hide CreateRedemption;
  }

  lemma CommitDiscountKeeps(db: Db, user: Id, r: Id, now: int, l: Lock)
    requires ForeignKeys(db) && l != IzlLock(user)
    ensures var db' := CommitDiscount(db, user, r, now); Keeps(db, db', l) && PricesSettled(db, db')
  {
    hide Expired, MaxDiscount;
  }

  lemma ReleaseKeeps(db: Db, user: Id, r: Id, l: Lock)
    requires ForeignKeys(db) && DiscountsOk(db.orders, db.redemptions) && l != IzlLock(user)
    ensures var db' := ReleaseRedemption(db, user, r); Keeps(db, db', l) && PricesSettled(db, db')
  {
  }

  lemma EarnKeeps(db: Db, user: Id, amount: int, l: Lock)
    requires l != IzlLock(user)
    ensures Keeps(db, EarnIzl(db, user, amount), l) && PricesSettled(db, EarnIzl(db, user, amount))
  {
    hide Balance, MaxEntryNo;
  }

  lemma LapseKeeps(db: Db, s: Id, cancel: bool, l: Lock)
    requires s < |db.subs| ==> l != SubLock(db.subs[s].user)
    ensures Keeps(db, LapseSub(db, s, cancel), l) && PricesSettled(db, LapseSub(db, s, cancel))
  {
  }

  lemma InitiateKeeps(db: Db, user: Id, o: Id, provider: Provider, req: string, now: int, l: Lock)
    requires l != IzlLock(user)
    ensures var db' := Initiate(db, user, o, provider, req, now).0; Keeps(db, db', l) && PricesSettled(db, db')
  {
    InitiateShape(db, user, o, provider, req, now);
    InitiateIsOwn(db, user, o, provider, req, now);
    hide Initiate;
    var db' := Initiate(db, user, o, provider, req, now).0;
    if db' != db {
      assert db'.attempts[|db.attempts|].status.AttemptPending?;
    }
  }

  lemma InitiateIsOwn(db: Db, user: Id, o: Id, provider: Provider, req: string, now: int)
    ensures Initiate(db, user, o, provider, req, now).0 != db ==> o < |db.orders| && db.orders[o].user == user
  {
    hide CommittedDiscountOk, ReplayAttempt, Expired, HasStatus;
  }

  /** Only one attempt row of an order and the event log change. */
  ghost predicate OnlyAttempt(db: Db, db': Db, a: Id) {
    && a < |db.attempts| && |db'.attempts| == |db.attempts| && db'.attempts == db.attempts[a := db'.attempts[a]]
    && db' == db.(attempts := db'.attempts, events := db'.events)
  }

  lemma OnlyAttemptKeeps(db: Db, db': Db, a: Id, l: Lock)
    requires ForeignKeys(db) && OnlyAttempt(db, db', a) && l != PayLock(db.attempts[a].order)
    requires !db.attempts[a].status.AttemptPending? ==> db'.attempts[a] == db.attempts[a]
    requires db'.attempts[a].order == db.attempts[a].order
    ensures Keeps(db, db', l) && PricesSettled(db, db')
  {
    if l.PayLock? && l.order < |db.orders| {
      assert NoNewAttempt(db, db', l.order);
    }
  }

  lemma OnlyEvents(db: Db, db': Db, l: Lock)
    requires db' == db.(events := db'.events)
    ensures Keeps(db, db', l) && PricesSettled(db, db')
  {
  }

  lemma BindKeeps(db: Db, a: Id, provider: Provider, externalId: string, l: Lock)
    requires ForeignKeys(db) && (a < |db.attempts| ==> l != PayLock(db.attempts[a].order))
    ensures var db' := Bind(db, a, provider, externalId).0; Keeps(db, db', l) && PricesSettled(db, db')
  {
    NothingChanges(db, l);
    hide Keeps, PricesSettled, ForeignKeys, ExternalIdTaken;
    var db' := Bind(db, a, provider, externalId).0;
    if db' != db {
      OnlyAttemptKeeps(db, db', a, l);
    }
  }

  lemma AttachKeeps(db: Db, a: Id, externalId: string, l: Lock)
    requires ForeignKeys(db) && (a < |db.attempts| ==> l != PayLock(db.attempts[a].order))
    ensures var db' := AttachInit(db, a, externalId); Keeps(db, db', l) && PricesSettled(db, db')
  {
    NothingChanges(db, l);
    hide Keeps, PricesSettled, ForeignKeys, ExternalIdTaken;
    var db' := AttachInit(db, a, externalId);
    if db' != db {
      OnlyAttemptKeeps(db, db', a, l);
    }
  }

  lemma SuccessKeeps(db: Db, v: VerifiedEvent, l: Lock)
    requires ForeignKeys(db) && (v.attempt < |db.attempts| ==> l != PayLock(db.attempts[v.attempt].order))
    ensures var db' := RecordSuccess(db, v).0; Keeps(db, db', l) && PricesSettled(db, db')
  {
    NothingChanges(db, l);
    hide Keeps, PricesSettled, ForeignKeys, ReasonCode, OtherSucceeded, BroughtIsTaken;
    var db' := RecordSuccess(db, v).0;
    if db' != db {
      if SuccessVerdict(db, v).Accept? {
        OnlyAttemptKeeps(db, db', v.attempt, l);
      } else {
        OnlyEvents(db, db', l);
      }
    }
  }

  lemma TerminalKeeps(db: Db, v: VerifiedEvent, target: Target, l: Lock)
    requires ForeignKeys(db) && (v.attempt < |db.attempts| ==> l != PayLock(db.attempts[v.attempt].order))
    ensures var db' := RecordTerminal(db, v, target).0; Keeps(db, db', l) && PricesSettled(db, db')
  {
    NothingChanges(db, l);
    hide Keeps, PricesSettled, ForeignKeys, ReasonCode, AcceptedCode, BroughtIsTaken;
    var db' := RecordTerminal(db, v, target).0;
    if db' != db {
      if TerminalVerdict(db, v, target).Accept? {
        OnlyAttemptKeeps(db, db', v.attempt, l);
      } else {
        OnlyEvents(db, db', l);
      }
    }
  }

  lemma ReopenKeeps(db: Db, a: Id, l: Lock)
    requires ForeignKeys(db) && (a < |db.attempts| ==> l != PayLock(db.attempts[a].order))
    ensures var db' := Reopen(db, a).0; Keeps(db, db', l) && PricesSettled(db, db')
  {
  }

  lemma FinalizeShape(db: Db, a: Id)
    requires ForeignKeys(db)
    ensures Finalize(db, a).0 == db || (Finalizable(db, a) && Finalize(db, a).0 == CommitFinalization(db, a))
  {
    hide CommitFinalization, ReconstructFinalized, PriceConsistent, DiscountProvenance;
  }

  lemma FinalizePay(db: Db, a: Id, o: Id)
    requires ForeignKeys(db) && DiscountsOk(db.orders, db.redemptions) && Finalizable(db, a) && db.attempts[a].order != o
    ensures PayKeeps(db, CommitFinalization(db, a), o) && PricesSettled(db, CommitFinalization(db, a))
  {
    CommittedRows(db, a);
    NewCycleRow(db, a);
    ConsumedIsOwn(db, a, o);
    hide CommitFinalization, NewCycle, ActivateSub, MaxEntryNo, Balance, PriceConsistent, FindNonterminal, Finalizable,
         DiscountsOk;
    assert NoNewAttempt(db, CommitFinalization(db, a), o);
  }

  /** No other order points to the redemption a finalization consumes. */
  lemma ConsumedIsOwn(db: Db, a: Id, o: Id)
    requires ForeignKeys(db) && DiscountsOk(db.orders, db.redemptions) && Finalizable(db, a) && db.attempts[a].order != o
    ensures o < |db.orders| && db.orders[o].redemption.Some? && db.orders[db.attempts[a].order].redemption.Some?
            ==> db.orders[o].redemption != db.orders[db.attempts[a].order].redemption
    ensures db.attempts[a].order < |db.orders| && db.orders[db.attempts[a].order].status.OrderPending?
  {
    hide PriceConsistent, FindNonterminal;
    if o < |db.orders| {
      assert OrderDiscountOk(o, db.orders[o], db.redemptions);
    }
  }

  lemma NewCycleRow(db: Db, a: Id)
    requires ForeignKeys(db) && Finalizable(db, a)
    ensures NewCycle(db, a).order == db.attempts[a].order
    ensures NewCycle(db, a).sub == TargetSub(db, db.orders[db.attempts[a].order].user)
  {
    hide MaxSeqNo;
  }

  lemma FinalizeIzl(db: Db, a: Id, u: Id)
    requires ForeignKeys(db) && Finalizable(db, a)
    requires var order := db.orders[db.attempts[a].order]; order.redemption.None? || order.user != u
    ensures IzlKeeps(db, CommitFinalization(db, a), u)
  {
    CommittedRows(db, a);
    hide CommitFinalization, NewCycle, ActivateSub, MaxEntryNo, Balance, PriceConsistent, FindNonterminal;
    var db' := CommitFinalization(db, a);
    assert forall o :: NoNewAttempt(db, db', o);
  }

  lemma FinalizeSub(db: Db, a: Id, u: Id)
    requires ForeignKeys(db) && Finalizable(db, a) && db.orders[db.attempts[a].order].user != u
    ensures SubKeeps(db, CommitFinalization(db, a), u)
  {
    CommittedRows(db, a);
    NewCycleRow(db, a);
    hide CommitFinalization, NewCycle, MaxEntryNo, Balance, PriceConsistent, ConsumeDiscount;
  }

  lemma CommitFinalizationKeeps(db: Db, a: Id, l: Lock)
    requires ForeignKeys(db) && DiscountsOk(db.orders, db.redemptions) && Finalizable(db, a)
    requires l !in Covers(db, DoFinalize(a))
    ensures Keeps(db, CommitFinalization(db, a), l) && PricesSettled(db, CommitFinalization(db, a))
  {
    assert a < |db.attempts| && db.attempts[a].order < |db.orders|;
    hide CommitFinalization, Finalizable, PayKeeps, IzlKeeps, SubKeeps, PricesSettled, DiscountsOk;
    match l
    case PayLock(p) => FinalizePay(db, a, p);
    case IzlLock(u) =>
      FinalizeIzl(db, a, u);
      FinalizePay(db, a, db.attempts[a].order + 1);
    case SubLock(u) =>
      FinalizeSub(db, a, u);
      FinalizePay(db, a, db.attempts[a].order + 1);
  }

  lemma FinalizeKeeps(db: Db, a: Id, l: Lock)
    requires ForeignKeys(db) && DiscountsOk(db.orders, db.redemptions) && l !in Covers(db, DoFinalize(a))
    ensures var db' := Finalize(db, a).0; Keeps(db, db', l) && PricesSettled(db, db')
  {
    NothingChanges(db, l);
    FinalizeShape(db, a);
    hide Finalize, CommitFinalization, ForeignKeys, Finalizable, Keeps, PricesSettled, DiscountsOk, Covers;
    if Finalize(db, a).0 != db {
      CommitFinalizationKeeps(db, a, l);
    }
  }

  predicate IsWriter(step: Step) {
    step.DoCreateOrder? || step.DoCreateRedemption? || step.DoCommitDiscount? || step.DoReleaseRedemption? || step.DoEarn?
    || step.DoLapseSub? || step.DoInitiate?
  }

  lemma WriterKeeps(db: Db, step: Step, l: Lock)
    requires ForeignKeys(db) && DiscountsOk(db.orders, db.redemptions) && IsWriter(step) && l !in Covers(db, step)
    ensures Keeps(db, Apply(db, step), l) && PricesSettled(db, Apply(db, step))
  {
    hide ForeignKeys, DiscountsOk, Keeps, PricesSettled;
    hide CreateOrder, CreateRedemption, CommitDiscount, ReleaseRedemption, EarnIzl, LapseSub, Initiate;
    match step
    case DoCreateOrder(user, price) => CreateOrderKeeps(db, user, price, l);
    case DoCreateRedemption(user, order, amount, rate, now) => CreateRedemptionKeeps(db, user, order, amount, rate, now, l);
    case DoCommitDiscount(user, r, now) => CommitDiscountKeeps(db, user, r, now, l);
    case DoReleaseRedemption(user, r) => ReleaseKeeps(db, user, r, l);
    case DoEarn(user, amount) => EarnKeeps(db, user, amount, l);
    case DoLapseSub(sub, cancel) => LapseKeeps(db, sub, cancel, l);
    case DoInitiate(user, order, provider, req, now) => InitiateKeeps(db, user, order, provider, req, now, l);
  }

  lemma PaymentKeeps(db: Db, step: Step, l: Lock)
    requires ForeignKeys(db) && DiscountsOk(db.orders, db.redemptions) && !IsWriter(step) && l !in Covers(db, step)
    ensures Keeps(db, Apply(db, step), l) && PricesSettled(db, Apply(db, step))
  {
    hide ForeignKeys, DiscountsOk, Keeps, PricesSettled;
    hide AttachInit, Bind, RecordSuccess, RecordTerminal, LogRejection, Reopen, Finalize;
    match step
    case DoAttachInit(a, externalId) => AttachKeeps(db, a, externalId, l);
    case DoBind(a, provider, externalId) => BindKeeps(db, a, provider, externalId, l);
    case DoSuccess(v) => SuccessKeeps(db, v, l);
    case DoTerminal(v, target) => TerminalKeeps(db, v, target, l);
    case DoLogRejection(v, why) => LogKeeps(db, v, why, l);
    case DoReopen(a) => ReopenKeeps(db, a, l);
    case DoFinalize(a) => FinalizeKeeps(db, a, l);
  }

  lemma LogKeeps(db: Db, v: VerifiedEvent, why: RejectReason, l: Lock)
    ensures var db' := LogRejection(db, v, why); Keeps(db, db', l) && PricesSettled(db, db')
  {
    hide Keeps, PricesSettled, ReasonCode;
    OnlyEvents(db, LogRejection(db, v, why), l);
  }

  lemma StepKeeps(db: Db, step: Step, l: Lock)
    requires Inv(db) && l !in Covers(db, step)
    ensures Keeps(db, Apply(db, step), l) && PricesSettled(db, Apply(db, step))
  {
    assert ForeignKeys(db) && DiscountsOk(db.orders, db.redemptions);
    hide Inv, ForeignKeys, DiscountsOk, Keeps, PricesSettled, Covers, Apply;
    if IsWriter(step) {
      WriterKeeps(db, step, l);
    } else {
      PaymentKeeps(db, step, l);
    }
  }
}
