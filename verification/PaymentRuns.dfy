/**
 Runs of the payment machine: any finite sequence of the transactions of `PaymentSteps`, in any order and with any
 arguments, replays and lost bridges included. A bridge is an ordinary later step that may never be taken.
 */
module PaymentRuns {
  import opened Basics
  import opened PaymentModel
  import opened PaymentSteps
  import opened PaymentInvariants

  datatype Step =
    | DoCreateOrder(user: Id, price: Id)
    | DoCreateRedemption(user: Id, order: Id, amount: int, rate: int, now: int)
    | DoCommitDiscount(user: Id, redemption: Id, now: int)
    | DoReleaseRedemption(user: Id, redemption: Id)
    | DoEarn(user: Id, amount: int)
    | DoLapseSub(sub: Id, cancel: bool)
    | DoInitiate(user: Id, order: Id, provider: Provider, request: string, now: int)
    | DoAttachInit(attempt: Id, externalId: string)
    | DoBind(attempt: Id, provider: Provider, externalId: string)
    | DoSuccess(event: VerifiedEvent)
    | DoTerminal(event: VerifiedEvent, target: Target)
    | DoLogRejection(event: VerifiedEvent, why: RejectReason)
    | DoReopen(attempt: Id)
    | DoFinalize(attempt: Id)

  /** FP-DB-01: a price buys at least one month. */
  ghost predicate PricesOk(prices: seq<Price>) {
    forall p :: 0 <= p < |prices| ==> prices[p].months > 0
  }

  ghost predicate Inv(db: Db) {
    && PricesOk(db.prices)
    && ForeignKeys(db)
    && OrdersOk(db.prices, db.orders)
    && AttemptsOk(db.orders, db.attempts)
    && ExternalIdsOk(db.attempts)
    && LogOk(db.attempts, db.events)
    && DiscountsOk(db.orders, db.redemptions)
    && RedeemsOk(db.redemptions, db.ledger)
    && LedgerOk(db.ledger)
    && SubsOk(db.subs)
    && CyclesOk(db.orders, db.subs, db.cycles)
  }

  lemma InvKeys(db: Db)
    requires Inv(db)
    ensures ForeignKeys(db)
  {
  }

  ghost function Apply(db: Db, s: Step): Db
    requires ForeignKeys(db)
  {
    match s
    case DoCreateOrder(user, price) => CreateOrder(db, user, price)
    case DoCreateRedemption(user, order, amount, rate, now) => CreateRedemption(db, user, order, amount, rate, now)
    case DoCommitDiscount(user, r, now) => CommitDiscount(db, user, r, now)
    case DoReleaseRedemption(user, r) => ReleaseRedemption(db, user, r)
    case DoEarn(user, amount) => EarnIzl(db, user, amount)
    case DoLapseSub(sub, cancel) => LapseSub(db, sub, cancel)
    case DoInitiate(user, order, provider, req, now) => Initiate(db, user, order, provider, req, now).0
    case DoAttachInit(a, externalId) => AttachInit(db, a, externalId)
    case DoBind(a, provider, externalId) => Bind(db, a, provider, externalId).0
    case DoSuccess(v) => RecordSuccess(db, v).0
    case DoTerminal(v, target) => RecordTerminal(db, v, target).0
    case DoLogRejection(v, why) => LogRejection(db, v, why)
    case DoReopen(a) => Reopen(db, a).0
    case DoFinalize(a) => Finalize(db, a).0
  }

  // ---- each step keeps the invariant ----

  lemma KeepCreateOrder(db: Db, user: Id, price: Id)
    requires Inv(db)
    ensures Inv(CreateOrder(db, user, price))
  {
    var db' := CreateOrder(db, user, price);
    if db' != db {
      AttemptsAfterOrder(db.orders, db.attempts, db'.orders[|db.orders|]);
    }
  }

  lemma CreateRedemptionShape(db: Db, user: Id, order: Id, amount: int, rate: int, now: int)
    ensures var db' := CreateRedemption(db, user, order, amount, rate, now);
            db' == db
            || (order < |db.orders| && db.orders[order].user == user && amount > 0
                && db' == db.(redemptions := db.redemptions
                                             + [Redemption(user, order, amount, amount * rate, Reserved,
                                                           Hold(user, amount, HoldActive))]))
  {
    hide Expired, OpenRedemption, Balance, ActiveHolds, MaxDiscount;
  }

  lemma DiscountsAfterReserve(db: Db, red: Redemption)
    requires ForeignKeys(db) && DiscountsOk(db.orders, db.redemptions) && RedeemsOk(db.redemptions, db.ledger)
    requires red.order < |db.orders| && db.orders[red.order].user == red.user
    requires red.amount > 0 && red.status.Reserved? && red.hold == Hold(red.user, red.amount, HoldActive)
    ensures var redemptions := db.redemptions + [red];
            ForeignKeys(db.(redemptions := redemptions)) && DiscountsOk(db.orders, redemptions)
            && RedeemsOk(redemptions, db.ledger)
  {
  }

  lemma KeepCreateRedemption(db: Db, user: Id, order: Id, amount: int, rate: int, now: int)
    requires Inv(db)
    ensures Inv(CreateRedemption(db, user, order, amount, rate, now))
  {
    CreateRedemptionShape(db, user, order, amount, rate, now);
    hide AttemptsOk, ExternalIdsOk, LogOk, LedgerOk, SubsOk, CyclesOk, PricesOk, OrdersOk, DiscountsOk, RedeemsOk,
         ForeignKeys, CreateRedemption;
    if CreateRedemption(db, user, order, amount, rate, now) != db {
      DiscountsAfterReserve(db, Redemption(user, order, amount, amount * rate, Reserved, Hold(user, amount, HoldActive)));
    }
  }

  lemma KeepCommitDiscount(db: Db, user: Id, r: Id, now: int)
    requires Inv(db)
    ensures Inv(CommitDiscount(db, user, r, now))
  {
    var db' := CommitDiscount(db, user, r, now);
    if db' != db {
      var o := db.redemptions[r].order;
      AttemptsAfterPricing(db.orders, db.attempts, o, db'.orders[o]);
      CyclesAfterOrder(db.orders, db.subs, db.cycles, o, db'.orders[o]);
    }
  }

  lemma DiscountsAfterRelease(db: Db, user: Id, r: Id)
    requires Inv(db)
    ensures var db' := ReleaseRedemption(db, user, r);
            ForeignKeys(db') && OrdersOk(db'.prices, db'.orders) && DiscountsOk(db'.orders, db'.redemptions)
  {
    hide AttemptsOk, ExternalIdsOk, LogOk, RedeemsOk, LedgerOk, SubsOk, CyclesOk, PricesOk;
    ReleaseShape(db, user, r);
    var db' := ReleaseRedemption(db, user, r);
    hide ReleaseRedemption;
    if db' != db {
      var o := db.redemptions[r].order;
      DiscountsAfterReleasedRow(db.orders, db.redemptions, r, db'.orders[o], db'.redemptions[r]);
      hide DiscountsOk;
    }
  }

  /** A release that writes frees one RESERVED redemption, and unprices its order exactly when it was committed to it. */
  lemma ReleaseShape(db: Db, user: Id, r: Id)
    requires ForeignKeys(db) && DiscountsOk(db.orders, db.redemptions)
    ensures var db' := ReleaseRedemption(db, user, r);
            db' == db
            || (r < |db.redemptions| && db.redemptions[r].status.Reserved?
                && var red := db.redemptions[r]; var o := db.orders[red.order];
                && db' == db.(orders := db'.orders, redemptions := db'.redemptions)
                && db'.redemptions == db.redemptions[r := red.(status := RedemptionReleased, hold := red.hold.(status := HoldReleased))]
                && db'.orders == db.orders[red.order := if o.redemption == Some(r)
                                                        then o.(discount := 0, payable := o.gross, redemption := None) else o]
                && (o.redemption == Some(r) ==> o.status.OrderCreated?))
  {
    hide ForeignKeys;
    if r < |db.redemptions| {
      assert RedemptionOk(db.orders, r, db.redemptions[r]);
      hide DiscountsOk;
      assert db.orders == db.orders[db.redemptions[r].order := db.orders[db.redemptions[r].order]];
    }
  }

  lemma DiscountsAfterReleasedRow(orders: seq<Order>, redemptions: seq<Redemption>, r: Id, order: Order, red: Redemption)
    requires DiscountsOk(orders, redemptions) && r < |redemptions| && redemptions[r].status.Reserved?
    requires red == redemptions[r].(status := RedemptionReleased, hold := redemptions[r].hold.(status := HoldReleased))
    requires redemptions[r].order < |orders|
    requires var o := orders[redemptions[r].order];
             if o.redemption == Some(r) then o.status.OrderCreated? && order == o.(discount := 0, payable := o.gross, redemption := None)
             else order == o
    ensures DiscountsOk(orders[redemptions[r].order := order], redemptions[r := red])
  {
  }

  lemma KeepReleaseRedemption(db: Db, user: Id, r: Id)
    requires Inv(db)
    ensures Inv(ReleaseRedemption(db, user, r))
  {
    hide AttemptsOk, ExternalIdsOk, LogOk, LedgerOk, SubsOk, CyclesOk, PricesOk, OrdersOk;
    DiscountsAfterRelease(db, user, r);
    var db' := ReleaseRedemption(db, user, r);
    if db' != db {
      RedeemsAfterOtherRow(db.redemptions, db.ledger, r, db'.redemptions[r]);
      var o := db.redemptions[r].order;
      if db'.orders != db.orders {
        AttemptsAfterPricing(db.orders, db.attempts, o, db'.orders[o]);
        CyclesAfterOrder(db.orders, db.subs, db.cycles, o, db'.orders[o]);
      }
    }
  }

  lemma KeepEarn(db: Db, user: Id, amount: int)
    requires Inv(db)
    ensures Inv(EarnIzl(db, user, amount))
  {
    hide MaxEntryNo, Balance, LedgerOk, RedeemsOk, AttemptsOk, LogOk, DiscountsOk, CyclesOk, OrdersOk;
    if amount > 0 {
      var e := EarnIzl(db, user, amount).ledger[|db.ledger|];
      LedgerAfterPost(db.ledger, e);
      RedeemsAfterEarn(db.redemptions, db.ledger, e);
    }
  }

  lemma KeepLapseSub(db: Db, s: Id, cancel: bool)
    requires Inv(db)
    ensures Inv(LapseSub(db, s, cancel))
  {
  }

  lemma KeepInitiate(db: Db, user: Id, o: Id, provider: Provider, req: string, now: int)
    requires Inv(db)
    ensures Inv(Initiate(db, user, o, provider, req, now).0)
  {
    hide Initiate;
    var db' := Initiate(db, user, o, provider, req, now).0;
    InitiateShape(db, user, o, provider, req, now);
    if db' != db {
      var pt := db'.attempts[|db.attempts|];
      AttemptsAfterInitiate(db.orders, db.attempts, pt);
      LogAfterNewAttempt(db.attempts, db.events, pt);
      CyclesAfterOrder(db.orders, db.subs, db.cycles, o, db'.orders[o]);
      hide LogOk, CyclesOk, RedeemsOk, LedgerOk, SubsOk, AttemptsOk;
    }
  }

  /** An initiation that writes adds one PENDING attempt and turns its CREATED order PENDING. */
  lemma InitiateShape(db: Db, user: Id, o: Id, provider: Provider, req: string, now: int)
    ensures var db' := Initiate(db, user, o, provider, req, now).0;
            db' == db
            || (o < |db.orders| && db.orders[o].status.OrderCreated?
                && |db'.attempts| == |db.attempts| + 1
                && var pt := db'.attempts[|db.attempts|];
                && db' == db.(attempts := db.attempts + [pt], orders := db.orders[o := db.orders[o].(status := OrderPending)])
                && pt.order == o && pt.status.AttemptPending? && pt.amount == db.orders[o].payable && pt.externalId.None?)
  {
    hide CommittedDiscountOk, ReplayAttempt, Expired, HasStatus;
  }

  lemma KeepExternalId(db: Db, a: Id, externalId: string)
    requires Inv(db) && a < |db.attempts| && db.attempts[a].externalId.None?
    requires !ExternalIdTaken(db.attempts, db.attempts[a].provider, externalId, a)
    ensures Inv(db.(attempts := db.attempts[a := db.attempts[a].(externalId := Some(externalId))]))
  {
    var pt := db.attempts[a].(externalId := Some(externalId));
    AttemptsAfterUpdate(db.orders, db.attempts, a, pt);
    ExternalIdsAfterUpdate(db.attempts, a, pt);
    LogAfterSameStatus(db.attempts, db.events, a, pt);
  }

  lemma KeepOther(db: Db, v: VerifiedEvent, attempt: Option<Id>, result: string)
    requires Inv(db) && KeyOf(v) !in db.events
    requires NamedStatus(result).None? && !(ACCEPTED <= result)
    requires attempt.Some? ==> attempt.value < |db.attempts|
    ensures Inv(LogEvent(db, v, attempt, result))
  {
    LogAfterOther(db.attempts, db.events, KeyOf(v), Event(|db.events|, attempt, result));
  }

  lemma KeepAccept(db: Db, v: VerifiedEvent, result: string, pt: Attempt)
    requires Inv(db) && KeyOf(v) !in db.events && v.attempt < |db.attempts|
    requires db.attempts[v.attempt].status.AttemptPending? && !pt.status.AttemptPending?
    requires AttemptMayBecome(db.attempts[v.attempt], pt)
    requires ACCEPTED <= result && NamedStatus(result) == Some(pt.status)
    requires pt.externalId == db.attempts[v.attempt].externalId
             || (pt.externalId.Some? && !ExternalIdTaken(db.attempts, pt.provider, pt.externalId.value, v.attempt))
    ensures Inv(AcceptEvent(db, v, result, pt).0)
  {
    hide NamedStatus;
    AttemptsAfterUpdate(db.orders, db.attempts, v.attempt, pt);
    ExternalIdsAfterUpdate(db.attempts, v.attempt, pt);
    LogAfterAccept(db.attempts, db.events, KeyOf(v), Event(|db.events|, Some(v.attempt), result), v.attempt, pt);
    hide AttemptsOk, ExternalIdsOk, LogOk, RedeemsOk, LedgerOk, SubsOk, CyclesOk, DiscountsOk, OrdersOk, NamedStatus, Live,
         ExternalIdTaken;
  }

  lemma KeepSuccess(db: Db, v: VerifiedEvent)
    requires Inv(db)
    ensures Inv(RecordSuccess(db, v).0)
  {
    OthersNameNothing(IdentityMismatch);
    SuccessNames();
    if KeyOf(v) !in db.events {
      match SuccessVerdict(db, v)
      case Reject(a, why) =>
        OthersNameNothing(why);
        KeepOther(db, v, a, ReasonCode(why));
      case SameTruth =>
        KeepOther(db, v, Some(v.attempt), DUPLICATE);
      case Accept =>
        var pt := db.attempts[v.attempt];
        KeepAccept(db, v, ACCEPTED, pt.(status := Succeeded, confirmedAt := Some(v.confirmedAt),
                                        externalId := AttachIfMissing(pt, v.externalId)));
    }
  }

  lemma KeepTerminal(db: Db, v: VerifiedEvent, target: Target)
    requires Inv(db)
    ensures Inv(RecordTerminal(db, v, target).0)
  {
    OthersNameNothing(IdentityMismatch);
    TerminalNames(target, v.reasonCode);
    if KeyOf(v) !in db.events {
      match TerminalVerdict(db, v, target)
      case Reject(a, why) =>
        OthersNameNothing(why);
        KeepOther(db, v, a, ReasonCode(why));
      case SameTruth =>
        KeepOther(db, v, Some(v.attempt), DUPLICATE);
      case Accept =>
        var pt := db.attempts[v.attempt];
        KeepAccept(db, v, AcceptedCode(target, v.reasonCode),
                   pt.(status := StatusOf(target),
                       externalId := AttachIfMissing(pt, Brought(v))));
    }
  }

  lemma KeepLogRejection(db: Db, v: VerifiedEvent, why: RejectReason)
    requires Inv(db)
    ensures Inv(LogRejection(db, v, why))
  {
    if KeyOf(v) !in db.events {
      OthersNameNothing(why);
      KeepOther(db, v, if v.attempt < |db.attempts| then Some(v.attempt) else None, ReasonCode(why));
    }
  }

  lemma KeepReopen(db: Db, a: Id)
    requires Inv(db)
    ensures Inv(Reopen(db, a).0)
  {
    var db' := Reopen(db, a).0;
    if db' != db {
      var o := db.attempts[a].order;
      AttemptsAfterStatus(db.orders, db.attempts, o, OrderCreated);
      CyclesAfterOrder(db.orders, db.subs, db.cycles, o, db'.orders[o]);
    }
  }

  // ---- finalization ----

  lemma SubsAfterActivate(db: Db, user: Id, plan: Id, start: int)
    requires SubsOk(db.subs)
    requires FindNonterminal(db.subs, user).Some? ==> !db.subs[FindNonterminal(db.subs, user).value].status.SubActive?
    ensures SubsOk(ActivateSub(db, user, plan, start))
    ensures |db.subs| <= |ActivateSub(db, user, plan, start)|
    ensures forall s :: 0 <= s < |db.subs| ==> ActivateSub(db, user, plan, start)[s].user == db.subs[s].user
    ensures TargetSub(db, user) < |ActivateSub(db, user, plan, start)|
    ensures ActivateSub(db, user, plan, start)[TargetSub(db, user)].user == user
  {
  }

  lemma NewCycleOk(db: Db, a: Id)
    requires Inv(db) && a < |db.attempts| && db.attempts[a].confirmedAt.Some?
    requires PriceConsistent(db, db.orders[db.attempts[a].order])
    ensures NewCycle(db, a).seqNo == CyclesOf(db.cycles, NewCycle(db, a).sub) + 1
    ensures NewCycle(db, a).start < NewCycle(db, a).end
  {
    var c := NewCycle(db, a);
    CalendarMonth.EndsAfterStart(c.start, db.prices[db.orders[c.order].price].months);
    if c.sub == |db.subs| {
      NoCycles(db.cycles, c.sub);
    } else {
      MaxSeqIsCount(db.cycles, c.sub);
    }
  }

  lemma DiscountsAfterPaid(orders: seq<Order>, redemptions: seq<Redemption>, o: Id)
    requires DiscountsOk(orders, redemptions) && o < |orders| && orders[o].status.OrderPending?
    ensures var order := orders[o];
            var orders' := orders[o := order.(status := OrderPaid)];
            if order.redemption.None? then DiscountsOk(orders', redemptions)
            else
              var r := order.redemption.value;
              DiscountsOk(orders', redemptions[r := redemptions[r].(status := Applied,
                                                                    hold := redemptions[r].hold.(status := HoldConsumed))])
  {
  }

  lemma KeepConsume(db: Db, user: Id, r: Id)
    requires LedgerOk(db.ledger) && RedeemsOk(db.redemptions, db.ledger)
    requires r < |db.redemptions| && !db.redemptions[r].status.Applied? && db.redemptions[r].user == user
    ensures LedgerOk(ConsumeDiscount(db, user, r).ledger)
    ensures RedeemsOk(ConsumeDiscount(db, user, r).redemptions, ConsumeDiscount(db, user, r).ledger)
  {
    var e := ConsumeDiscount(db, user, r).ledger[|db.ledger|];
    LedgerAfterPost(db.ledger, e);
    RedeemsAfterApply(db.redemptions, db.ledger, r, e);
  }

  /** The states in which finalization commits. */
  ghost predicate Finalizable(db: Db, a: Id)
    requires ForeignKeys(db)
  {
    && a < |db.attempts| && db.attempts[a].status.Succeeded? && db.attempts[a].confirmedAt.Some?
    && var order := db.orders[db.attempts[a].order];
    && order.status.OrderPending? && PriceConsistent(db, order) && DiscountProvenance(db, db.attempts[a].order)
    && var found := FindNonterminal(db.subs, order.user);
    found.Some? ==> !db.subs[found.value].status.SubActive?
  }

  lemma KeysAfterCommit(db: Db, a: Id)
    requires Inv(db) && Finalizable(db, a)
    ensures ForeignKeys(CommitFinalization(db, a))
    ensures OrdersOk(db.prices, CommitFinalization(db, a).orders)
  {
    hide AttemptsOk, ExternalIdsOk, LogOk, RedeemsOk, LedgerOk, SubsOk, CyclesOk, DiscountsOk, DiscountProvenance;
    CommittedRows(db, a);
    var order := db.orders[db.attempts[a].order];
    CommittedSub(db, order.user, order.plan, db.attempts[a].confirmedAt.value);
    assert NewCycle(db, a).sub == TargetSub(db, order.user) && NewCycle(db, a).order == db.attempts[a].order;
    hide CommitFinalization, NewCycle, ActivateSub, TargetSub, MaxSeqNo, MaxEntryNo, Balance, Finalizable;
  }

  lemma CommittedSub(db: Db, user: Id, plan: Id, start: int)
    ensures TargetSub(db, user) < |ActivateSub(db, user, plan, start)| && |db.subs| <= |ActivateSub(db, user, plan, start)|
  {
  }

  lemma CyclesAfterCommit(db: Db, a: Id)
    requires Inv(db) && Finalizable(db, a)
    ensures var db' := CommitFinalization(db, a); CyclesOk(db'.orders, db'.subs, db'.cycles) && SubsOk(db'.subs)
  {
    hide AttemptsOk, ExternalIdsOk, LogOk, RedeemsOk, LedgerOk, DiscountsOk;
    hide MaxSeqNo, MaxEntryNo, Balance, ActivateSub, CyclesNumbered;
    var order := db.orders[db.attempts[a].order];
    SubsAfterActivate(db, order.user, order.plan, db.attempts[a].confirmedAt.value);
    NewCycleOk(db, a);
    CyclesAfterPaid(db.orders, db.subs, CommitFinalization(db, a).subs, db.cycles, NewCycle(db, a));
  }

  lemma AttemptsAfterCommit(db: Db, a: Id)
    requires Inv(db) && Finalizable(db, a)
    ensures AttemptsOk(CommitFinalization(db, a).orders, db.attempts)
  {
    hide ExternalIdsOk, LogOk, RedeemsOk, LedgerOk, DiscountsOk, SubsOk, CyclesOk, DiscountProvenance;
    hide MaxSeqNo, MaxEntryNo, Balance, ActivateSub;
    var o := db.attempts[a].order;
    assert HasStatus(db.attempts, o, Succeeded);
    AttemptsAfterStatus(db.orders, db.attempts, o, OrderPaid);
  }

  lemma DiscountsAfterCommit(db: Db, a: Id)
    requires Inv(db) && Finalizable(db, a)
    ensures var db' := CommitFinalization(db, a);
            DiscountsOk(db'.orders, db'.redemptions) && RedeemsOk(db'.redemptions, db'.ledger) && LedgerOk(db'.ledger)
  {
    hide AttemptsOk, ExternalIdsOk, LogOk, RedeemsOk, LedgerOk, SubsOk, CyclesOk;
    hide MaxSeqNo, MaxEntryNo, Balance, ActivateSub;
    var o := db.attempts[a].order;
    DiscountsAfterPaid(db.orders, db.redemptions, o);
    if db.orders[o].redemption.Some? {
      KeepConsume(db, db.orders[o].user, db.orders[o].redemption.value);
    }
  }

  lemma KeepCommitFinalization(db: Db, a: Id)
    requires Inv(db) && Finalizable(db, a)
    ensures Inv(CommitFinalization(db, a))
  {
    hide AttemptsOk, ExternalIdsOk, LogOk, RedeemsOk, LedgerOk, SubsOk, CyclesOk, DiscountsOk, OrdersOk, ForeignKeys;
    hide MaxSeqNo, MaxEntryNo, Balance, ActivateSub, NewCycle;
    KeysAfterCommit(db, a);
    CyclesAfterCommit(db, a);
    AttemptsAfterCommit(db, a);
    DiscountsAfterCommit(db, a);
  }

  lemma KeepFinalize(db: Db, a: Id)
    requires Inv(db)
    ensures Inv(Finalize(db, a).0)
  {
    hide CommitFinalization;
    if Finalize(db, a).0 != db {
      KeepCommitFinalization(db, a);
    }
  }

  lemma KeepStep(db: Db, s: Step)
    requires Inv(db)
    ensures Inv(Apply(db, s))
  {
    hide AttemptsOk, ExternalIdsOk, LogOk, RedeemsOk, LedgerOk, SubsOk, CyclesOk, DiscountsOk, OrdersOk, ForeignKeys;
    hide CreateOrder, CreateRedemption, CommitDiscount, ReleaseRedemption, EarnIzl, LapseSub;
    hide Initiate, RecordSuccess, RecordTerminal, LogRejection, Reopen, Finalize;
    match s
    case DoCreateOrder(user, price) => KeepCreateOrder(db, user, price);
    case DoCreateRedemption(user, order, amount, rate, now) => KeepCreateRedemption(db, user, order, amount, rate, now);
    case DoCommitDiscount(user, r, now) => KeepCommitDiscount(db, user, r, now);
    case DoReleaseRedemption(user, r) => KeepReleaseRedemption(db, user, r);
    case DoEarn(user, amount) => KeepEarn(db, user, amount);
    case DoLapseSub(sub, cancel) => KeepLapseSub(db, sub, cancel);
    case DoInitiate(user, order, provider, req, now) => KeepInitiate(db, user, order, provider, req, now);
    case DoAttachInit(a, externalId) =>
      if AttachInit(db, a, externalId) != db {
        KeepExternalId(db, a, externalId);
      }
    case DoBind(a, provider, externalId) =>
      if Bind(db, a, provider, externalId).0 != db {
        KeepExternalId(db, a, externalId);
      }
    case DoSuccess(v) => KeepSuccess(db, v);
    case DoTerminal(v, target) => KeepTerminal(db, v, target);
    case DoLogRejection(v, why) => KeepLogRejection(db, v, why);
    case DoReopen(a) => KeepReopen(db, a);
    case DoFinalize(a) => KeepFinalize(db, a);
  }

  // ---- runs ----

  ghost function Run(db: Db, steps: seq<Step>): Db
    requires Inv(db)
    decreases |steps|
  {
    if steps == [] then db
    else
      KeepStep(db, steps[0]);
      Run(Apply(db, steps[0]), steps[1..])
  }

  lemma {:induction false} RunKeeps(db: Db, steps: seq<Step>)
    requires Inv(db)
    ensures Inv(Run(db, steps))
    decreases |steps|
  {
    hide PricesOk, ForeignKeys, OrdersOk, AttemptsOk, ExternalIdsOk, LogOk, DiscountsOk, RedeemsOk, LedgerOk, SubsOk,
         CyclesOk, Apply;
    if steps != [] {
      KeepStep(db, steps[0]);
      RunKeeps(Apply(db, steps[0]), steps[1..]);
    }
  }

  function Start(prices: seq<Price>): Db {
    Db(prices, [], [], map[], [], [], [], [])
  }

  lemma EmptyLogOk()
    ensures LogOk([], map[])
  {
    hide NamedStatus;
  }

  lemma EmptyOrdersOk(prices: seq<Price>)
    ensures ForeignKeys(Start(prices)) && OrdersOk(prices, []) && AttemptsOk([], []) && ExternalIdsOk([])
  {
  }

  lemma EmptyMoneyOk()
    ensures DiscountsOk([], []) && RedeemsOk([], []) && LedgerOk([])
  {
  }

  lemma EmptySubsOk()
    ensures SubsOk([]) && CyclesOk([], [], [])
  {
  }

  lemma StartOk(prices: seq<Price>)
    requires PricesOk(prices)
    ensures Inv(Start(prices))
  {
    hide PricesOk, ForeignKeys, OrdersOk, AttemptsOk, ExternalIdsOk, LogOk, DiscountsOk, RedeemsOk, LedgerOk, SubsOk,
         CyclesOk;
    EmptyLogOk();
    EmptyOrdersOk(prices);
    EmptyMoneyOk();
    EmptySubsOk();
  }

  /** The states that some run over some price catalogue leads to. */
  ghost predicate Reachable(db: Db) {
    exists prices, steps ::
      && PricesOk(prices)
      && (StartOk(prices); Run(Start(prices), steps) == db)
  }

  lemma ReachableInv(db: Db)
    requires Reachable(db)
    ensures Inv(db)
  {
    hide Inv, PricesOk;
    var prices, steps :| PricesOk(prices) && (StartOk(prices); Run(Start(prices), steps) == db);
    StartOk(prices);
    RunKeeps(Start(prices), steps);
  }

  lemma StartReachable(prices: seq<Price>)
    requires PricesOk(prices)
    ensures Inv(Start(prices)) && Reachable(Start(prices))
  {
    hide PricesOk, Inv, Start;
    StartOk(prices);
    assert Run(Start(prices), []) == Start(prices);
  }

  lemma {:induction false} RunAppend(db: Db, steps: seq<Step>, s: Step)
    requires Inv(db)
    ensures Inv(Run(db, steps)) && Run(db, steps + [s]) == Apply(Run(db, steps), s)
    decreases |steps|
  {
    hide PricesOk, ForeignKeys, OrdersOk, AttemptsOk, ExternalIdsOk, LogOk, DiscountsOk, RedeemsOk, LedgerOk, SubsOk,
         CyclesOk, Apply;
    if steps == [] {
      assert steps + [s] == [s];
      KeepStep(db, s);
      assert Run(Apply(db, s), []) == Apply(db, s);
    } else {
      KeepStep(db, steps[0]);
      assert (steps + [s])[1..] == steps[1..] + [s];
      RunAppend(Apply(db, steps[0]), steps[1..], s);
    }
  }

  lemma ReachableStep(db: Db, s: Step)
    requires Reachable(db)
    ensures Inv(db) && Reachable(Apply(db, s))
  {
    hide PricesOk, ForeignKeys, OrdersOk, AttemptsOk, ExternalIdsOk, LogOk, DiscountsOk, RedeemsOk, LedgerOk, SubsOk,
         CyclesOk, Apply;
    ReachableInv(db);
    var prices, steps :| PricesOk(prices) && (StartOk(prices); Run(Start(prices), steps) == db);
    StartOk(prices);
    RunAppend(Start(prices), steps, s);
  }
}
