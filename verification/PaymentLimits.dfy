/**
 Three more laws of every run: a request makes one attempt, a discount is at most a fifth of the price, and no user's
 holds exceed what he has.
 */
module PaymentLimits {
  import opened Basics
  import opened PaymentModel
  import opened PaymentSteps
  import opened PaymentInvariants
  import opened PaymentRuns
  import opened PaymentHistory
  import opened PaymentTheorems
  import opened PaymentEffects

  ghost predicate RequestsOnce(attempts: seq<Attempt>) {
    forall a, b :: 0 <= a < |attempts| && 0 <= b < |attempts| && attempts[a].order == attempts[b].order
                   && attempts[a].clientRequest == attempts[b].clientRequest
                   ==> a == b
  }

  /** Nothing is free of charge by discount: at most a fifth of the gross price is taken off, and only from a priced order. */
  predicate FairlyPriced(o: Order) {
    && o.gross >= 0 && 0 <= o.discount && 5 * o.discount <= o.gross && o.payable == o.gross - o.discount
  }

  ghost predicate OrdersFair(orders: seq<Order>) {
    forall o :: 0 <= o < |orders| ==> FairlyPriced(orders[o])
  }

  function Spendable(db: Db, user: Id): int { Balance(db.ledger, user) - ActiveHolds(db.redemptions, user) }

  ghost predicate Solvent(db: Db) { forall user: Id :: Spendable(db, user) >= 0 }

  ghost predicate Limits(db: Db) { RequestsOnce(db.attempts) && OrdersFair(db.orders) && Solvent(db) }

  // ---- requests ----

  /** Attempts keep their order and request; one is added only by a request that made none yet. */
  lemma KeepRequests(db: Db, s: Step)
    requires Inv(db) && RequestsOnce(db.attempts)
    ensures RequestsOnce(Apply(db, s).attempts)
  {
    InvKeys(db);
    StepIsLater(db, s);
    hide Inv, OrdersLater, LogLater, RedemptionsLater, SubsLater, ForeignKeys;
    if s.DoInitiate? {
      InitiateKeepsRequests(db, s);
    } else {
      hide Apply;
      NoNewAttempt(db, s);
    }
  }

  lemma InitiateKeepsRequests(db: Db, s: Step)
    requires ForeignKeys(db) && RequestsOnce(db.attempts) && s.DoInitiate?
    ensures RequestsOnce(Apply(db, s).attempts)
  {
    InitiateAnswers(db, s.user, s.order, s.provider, s.request, s.now);
    hide Initiate, ForeignKeys, Backs, Unexpired;
  }

  lemma NoNewAttempt(db: Db, s: Step)
    requires ForeignKeys(db) && !s.DoInitiate?
    ensures |Apply(db, s).attempts| == |db.attempts|
  {
    hide Balance, ActiveHolds, OpenRedemption, Committable, MaxEntryNo, ExternalIdTaken, NonBlank, SuccessVerdict, TerminalVerdict,
      ReasonCode, AcceptedCode, HasStatus, ReconstructFinalized, FindNonterminal, FindCycle, DiscountProvenance, PriceConsistent,
      NewCycle, ActivateSub, ForeignKeys, Reconstruct;
  }

  // ---- prices ----

  /** Only a committed or a released discount re-prices an order. */
  lemma SamePrices(db: Db, s: Step)
    requires ForeignKeys(db) && !s.DoCreateOrder? && !s.DoCommitDiscount? && !s.DoReleaseRedemption?
    ensures |Apply(db, s).orders| == |db.orders|
    ensures forall o :: 0 <= o < |db.orders| ==>
              var p, q := db.orders[o], Apply(db, s).orders[o];
              q.gross == p.gross && q.discount == p.discount && q.payable == p.payable
  {
    hide Balance, ActiveHolds, OpenRedemption, MaxEntryNo, ExternalIdTaken, NonBlank, SuccessVerdict, TerminalVerdict,
      ReasonCode, AcceptedCode, HasStatus, ReconstructFinalized, FindNonterminal, FindCycle, DiscountProvenance, PriceConsistent,
      NewCycle, ActivateSub, Reconstruct, FindRequest, CommittedDiscountOk;
  }

  lemma KeepPrices(db: Db, s: Step)
    requires Inv(db) && OrdersFair(db.orders)
    ensures OrdersFair(Apply(db, s).orders)
  {
    match s
    case DoCreateOrder(user, price) =>
      CreateOrderEffect(db, user, price);
      hide CreateOrder, Inv;
    case DoCommitDiscount(user, r, now) =>
      CommitDiscountEffect(db, user, r, now);
      hide CommitDiscount;
    case DoReleaseRedemption(user, r) =>
      ReleaseEffect(db, user, r);
      hide ReleaseRedemption;
    case _ =>
      SamePrices(db, s);
      hide Apply;
  }

  // ---- money ----

  lemma HoldsAfterReserve(redemptions: seq<Redemption>, red: Redemption, user: Id)
    requires red.hold.status.HoldActive?
    ensures ActiveHolds(redemptions + [red], user)
            == ActiveHolds(redemptions, user) + if red.hold.user == user then red.hold.amount else 0
  {
    assert (redemptions + [red])[..|redemptions|] == redemptions;
  }

  /** A reservation takes no more than its owner can spend, and nothing from anybody else. */
  lemma ReserveKeepsSolvent(db: Db, user: Id, o: Id, amount: int, rate: int, now: int)
    requires Solvent(db)
    ensures Solvent(CreateRedemption(db, user, o, amount, rate, now))
  {
    CreateRedemptionEffect(db, user, o, amount, rate, now);
    hide CreateRedemption, Balance, ActiveHolds;
    var db' := CreateRedemption(db, user, o, amount, rate, now);
    if db' != db {
      var red := db'.redemptions[|db.redemptions|];
      assert db'.redemptions == db.redemptions + [red];
      forall u: Id ensures Spendable(db', u) >= 0 {
        HoldsAfterReserve(db.redemptions, red, u);
        assert Spendable(db, u) >= 0;
      }
    }
  }

  lemma ReleaseKeepsSolvent(db: Db, user: Id, r: Id)
    requires Solvent(db) && Inv(db)
    ensures Solvent(ReleaseRedemption(db, user, r))
  {
    ReleaseEffect(db, user, r);
    hide ReleaseRedemption, Balance, ActiveHolds, OrdersOk, AttemptsOk, ExternalIdsOk, LogOk, RedeemsOk, LedgerOk, SubsOk, CyclesOk;
    var db' := ReleaseRedemption(db, user, r);
    if db' != db {
      assert RedemptionOk(db.orders, r, db.redemptions[r]);
      var red := db'.redemptions[r];
      assert db'.redemptions == db.redemptions[r := red];
      forall u: Id ensures Spendable(db', u) >= 0 {
        HoldsAfterUpdate(db.redemptions, r, red, u);
        assert Spendable(db, u) >= 0;
      }
    }
  }

  lemma EarnKeepsSolvent(db: Db, user: Id, amount: int)
    requires Solvent(db) && Inv(db)
    ensures Solvent(EarnIzl(db, user, amount))
  {
    EarnEffect(db, user, amount);
    hide EarnIzl, Balance, ActiveHolds, Inv;
    var db' := EarnIzl(db, user, amount);
    if db' != db {
      var e := db'.ledger[|db.ledger|];
      assert db'.ledger == db.ledger + [e];
      forall u: Id ensures Spendable(db', u) >= 0 {
        BalanceAfterPost(db.ledger, e, u);
        assert Spendable(db, u) >= 0;
      }
    }
  }

  lemma NoMoneyMoves(db: Db, s: Step)
    requires ForeignKeys(db) && !s.DoCreateRedemption? && !s.DoReleaseRedemption? && !s.DoEarn? && !s.DoFinalize?
    ensures Apply(db, s).ledger == db.ledger && Apply(db, s).redemptions == db.redemptions
  {
    hide Committable, ExternalIdTaken, NonBlank, SuccessVerdict, TerminalVerdict, ReasonCode, AcceptedCode, HasStatus, ForeignKeys,
      Reconstruct, FindRequest, CommittedDiscountOk;
  }

  lemma FinalizeKeepsSolvent(db: Db, s: Step)
    requires Reachable(db) && ForeignKeys(db) && Solvent(db) && s.DoFinalize?
    ensures Solvent(Apply(db, s))
  {
    hide Reachable, Balance, ActiveHolds, ForeignKeys, Finalize;
    forall u: Id ensures Spendable(Apply(db, s), u) >= 0 {
      FinalizeConserves(db, s.attempt, u);
      assert Spendable(db, u) >= 0;
    }
  }

  lemma OthersKeepSolvent(db: Db, s: Step)
    requires ForeignKeys(db) && Solvent(db)
    requires !s.DoCreateRedemption? && !s.DoReleaseRedemption? && !s.DoEarn? && !s.DoFinalize?
    ensures Solvent(Apply(db, s))
  {
    hide Balance, ActiveHolds, ForeignKeys, Apply;
    NoMoneyMoves(db, s);
    forall u: Id ensures Spendable(Apply(db, s), u) >= 0 {
      assert Spendable(db, u) >= 0;
    }
  }

  lemma KeepSolvent(db: Db, s: Step)
    requires Reachable(db) && Inv(db) && Solvent(db)
    ensures ForeignKeys(db) && Solvent(Apply(db, s))
  {
    hide *;
    InvKeys(db);
    if s.DoFinalize? {
      FinalizeKeepsSolvent(db, s);
    } else if s.DoCreateRedemption? || s.DoReleaseRedemption? || s.DoEarn? {
      MoneyStepKeepsSolvent(db, s);
    } else {
      OthersKeepSolvent(db, s);
    }
  }

  lemma MoneyStepKeepsSolvent(db: Db, s: Step)
    requires Inv(db) && ForeignKeys(db) && Solvent(db) && (s.DoCreateRedemption? || s.DoReleaseRedemption? || s.DoEarn?)
    ensures Solvent(Apply(db, s))
  {
    hide Inv, Solvent, ForeignKeys, CreateRedemption, ReleaseRedemption, EarnIzl;
    match s
    case DoCreateRedemption(user, o, amount, rate, now) => ReserveKeepsSolvent(db, user, o, amount, rate, now);
    case DoReleaseRedemption(user, r) => ReleaseKeepsSolvent(db, user, r);
    case DoEarn(user, amount) => EarnKeepsSolvent(db, user, amount);
  }

  // ---- runs ----

  lemma {:induction false} RunKeepsLimits(db: Db, steps: seq<Step>)
    requires Reachable(db) && Inv(db) && Limits(db)
    ensures Limits(Run(db, steps))
    decreases |steps|
  {
    hide Inv, Apply, Reachable, RequestsOnce, OrdersFair, Solvent;
    InvKeys(db);
    if steps != [] {
      KeepStep(db, steps[0]);
      ReachableStep(db, steps[0]);
      KeepRequests(db, steps[0]);
      KeepPrices(db, steps[0]);
      KeepSolvent(db, steps[0]);
      RunKeepsLimits(Apply(db, steps[0]), steps[1..]);
    }
  }

  lemma StartsWithin(prices: seq<Price>)
    ensures Limits(Start(prices))
  {
  }

  lemma ReachableLimits(db: Db)
    requires Reachable(db)
    ensures Limits(db)
  {
    hide Inv, PricesOk, Limits, Start;
    var prices, steps :| PricesOk(prices) && (StartOk(prices); Run(Start(prices), steps) == db);
    StartReachable(prices);
    StartsWithin(prices);
    RunKeepsLimits(Start(prices), steps);
  }

  /** However often and in whatever order requests are repeated, one request for an order makes one attempt. */
  lemma OneAttemptPerRequest(db: Db, a: Id, b: Id)
    requires Reachable(db) && a < |db.attempts| && b < |db.attempts|
    requires db.attempts[a].order == db.attempts[b].order && db.attempts[a].clientRequest == db.attempts[b].clientRequest
    ensures a == b
  {
    ReachableLimits(db);
    hide Reachable;
  }

  /** Every order is at its gross price less a discount of at most a fifth of it. */
  lemma DiscountIsLimited(db: Db, o: Id)
    requires Reachable(db) && o < |db.orders|
    ensures var order := db.orders[o];
            order.gross >= 0 && 0 <= order.discount && 5 * order.discount <= order.gross
            && order.payable == order.gross - order.discount && 5 * order.payable >= 4 * order.gross
  {
    ReachableLimits(db);
    hide Reachable;
  }

  /** No user's ACTIVE holds exceed his ledger balance, so no debit of a hold can overdraw it. */
  lemma NeverOverspent(db: Db, user: Id)
    requires Reachable(db)
    ensures ActiveHolds(db.redemptions, user) <= Balance(db.ledger, user)
  {
    ReachableLimits(db);
    hide Reachable, Balance, ActiveHolds;
    assert Spendable(db, user) >= 0;
  }
}
