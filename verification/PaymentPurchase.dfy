/**
 What finalization leaves behind, on the rows alone (src/payments/payment-finalization.repository.ts:39-165): when it
 answers what, and, when it commits, the subscription, the cycle, the order, the ledger and the redemption it writes.
 */
module PaymentPurchase {
  import opened Basics
  import opened PaymentModel
  import opened PaymentSteps
  import opened PaymentInvariants
  import opened PaymentRuns
  import opened PaymentTheorems
  import opened PaymentEffects
  import CalendarMonth

  // ---- answers ----

  /** The reserved redemption of a discounted order carries its discount; an undiscounted order costs its gross price. */
  predicate Provenance(order: Order, o: Id, redemptions: seq<Redemption>) {
    if order.redemption.None? then order.discount == 0 && order.payable == order.gross
    else
      && order.redemption.value < |redemptions|
      && var red := redemptions[order.redemption.value];
      && red.user == order.user && red.order == o && red.status.Reserved? && red.amount > 0 && red.value == order.discount
      && red.hold.user == order.user && red.hold.status.HoldActive? && red.hold.amount == red.amount
  }

  predicate SellsPlan(order: Order, prices: seq<Price>) {
    && order.price < |prices| && prices[order.price].plan == order.plan
    && prices[order.price].currency == order.currency && prices[order.price].months > 0
  }

  ghost predicate HasCycle(cycles: seq<Cycle>, o: Id) { exists c :: 0 <= c < |cycles| && cycles[c].order == o }

  ghost predicate IsOpen(subs: seq<Sub>, user: Id) {
    exists s :: 0 <= s < |subs| && subs[s].user == user && (subs[s].status.SubActive? || subs[s].status.SubExpired?)
  }

  /** Every answer of a finalization that is not a replay, in any state, with the rows that lead to it. */
  lemma FinalizeAnswers(db: Db, a: Id)
    requires ForeignKeys(db) && SubsOk(db.subs)
    ensures var (db', r) := Finalize(db, a);
            && (!(r.Finalized? && !r.replay) ==> db' == db)
            && if a >= |db.attempts| then r == FinalizeFailed(Integrity("payment transaction not found"))
               else
                 var pt := db.attempts[a]; var o := pt.order; var order := db.orders[o];
                 var trusted := pt.status.Succeeded? && pt.confirmedAt.Some?;
                 var due := trusted && order.purpose.SubscriptionPurchase? && pt.amount == order.payable && order.status.OrderPending?;
                 var sound := due && !HasCycle(db.cycles, o) && Provenance(order, o, db.redemptions);
                 && (!trusted ==> r == FinalizeFailed(Integrity("transaction not trusted-succeeded")))
                 && (trusted && !order.purpose.SubscriptionPurchase? ==> r == FinalizeFailed(Integrity("unsupported order purpose")))
                 && (trusted && order.purpose.SubscriptionPurchase? && pt.amount != order.payable
                     ==> r == FinalizeFailed(Integrity("amount differs from order payable")))
                 && (trusted && order.purpose.SubscriptionPurchase? && pt.amount == order.payable
                     && !order.status.OrderPending? && !order.status.OrderPaid?
                     ==> r == FinalizeFailed(Integrity("order not PENDING")))
                 && (due && HasCycle(db.cycles, o) ==> r == FinalizeFailed(Integrity("pending order already has a cycle")))
                 && (due && !HasCycle(db.cycles, o) && !Provenance(order, o, db.redemptions)
                     ==> r == FinalizeFailed(Integrity(if order.redemption.Some? then "committed discount provenance invalid"
                                                       else "undiscounted order pricing inconsistent")))
                 && (sound && !SellsPlan(order, db.prices) ==> r == FinalizeFailed(Integrity("plan price inconsistent")))
                 && (sound && SellsPlan(order, db.prices) && HasActiveSub(db.subs, order.user)
                     ==> r == FinalizeFailed(PurchaseActiveConflict))
                 && (sound && SellsPlan(order, db.prices) && !HasActiveSub(db.subs, order.user) ==>
                       && r.Finalized? && !r.replay && r.attempt == Some(a) && r.order == o && r.user == order.user
                       && r.cycle == |db.cycles| && r.discounted == order.redemption.Some?)
  {
    hide CommitFinalization, ReconstructFinalized, TargetSub, SubsOk;
    if a < |db.attempts| {
      ActiveIsFound(db.subs, db.orders[db.attempts[a].order].user);
    }
    hide FindNonterminal;
  }

  /** A PAID order answers with its own cycle, or reports that its rows do not belong together. */
  lemma ReplayAnswers(db: Db, a: Id)
    requires ForeignKeys(db) && a < |db.attempts| && db.attempts[a].status.Succeeded? && db.attempts[a].confirmedAt.Some?
    requires var order := db.orders[db.attempts[a].order];
             order.status.OrderPaid? && order.purpose.SubscriptionPurchase? && order.payable == db.attempts[a].amount
    requires forall c, d :: 0 <= c < |db.cycles| && 0 <= d < |db.cycles| && db.cycles[c].order == db.cycles[d].order ==> c == d
    ensures var (db', r) := Finalize(db, a);
            var o := db.attempts[a].order; var order := db.orders[o];
            var redeemed := order.redemption.None?
                            || (var red := db.redemptions[order.redemption.value];
                                red.status.Applied? && red.hold.status.HoldConsumed?
                                && exists e :: 0 <= e < |db.ledger| && db.ledger[e].kind.Redeem?
                                               && db.ledger[e].redemption == order.redemption);
            && db' == db
            && (r.Finalized? <==> redeemed && exists c :: 0 <= c < |db.cycles| && db.cycles[c].order == o
                                                          && db.subs[db.cycles[c].sub].user == order.user)
            && (r.Finalized? ==> r.replay && r.order == o && r.user == order.user && r.attempt.None?
                                 && r.discounted == order.redemption.Some?
                                 && r.cycle < |db.cycles| && db.cycles[r.cycle].order == o && db.cycles[r.cycle].sub == r.sub)
            && (r.FinalizeFailed? ==> r.error.Integrity?)
  {
    hide FindNonterminal;
  }

  // ---- what a commit writes ----

  /** The finalization of this attempt commits. */
  ghost predicate Commits(db: Db, a: Id)
    requires ForeignKeys(db)
  {
    Finalize(db, a).1.Finalized? && !Finalize(db, a).1.replay
  }

  lemma CommitRows(db: Db, a: Id)
    requires ForeignKeys(db) && Commits(db, a)
    ensures a < |db.attempts| && db.attempts[a].confirmedAt.Some? && db.attempts[a].status.Succeeded?
    ensures var order := db.orders[db.attempts[a].order];
            && PriceConsistent(db, order) && order.status.OrderPending?
            && Finalize(db, a) == (CommitFinalization(db, a),
                                   Finalized(db.attempts[a].order, Some(a), order.user, TargetSub(db, order.user), |db.cycles|,
                                             order.redemption.Some?, false))
            && (FindNonterminal(db.subs, order.user).Some?
                ==> !db.subs[FindNonterminal(db.subs, order.user).value].status.SubActive?)
  {
    hide CommitFinalization, TargetSub, FindNonterminal, FindCycle;
  }

  lemma InvParts(db: Db)
    requires Reachable(db)
    ensures ForeignKeys(db) && SubsOk(db.subs) && LedgerOk(db.ledger)
  {
    ReachableInv(db);
  }

  /** What activation leaves: the buyer's row ACTIVE, the others as they were. */
  lemma Activated(db: Db, user: Id, plan: Id, start: int)
    requires FindNonterminal(db.subs, user).Some? ==> !db.subs[FindNonterminal(db.subs, user).value].status.SubActive?
    ensures var subs, s := ActivateSub(db, user, plan, start), TargetSub(db, user);
            && s < |subs| && subs[s].status.SubActive? && subs[s].user == user && subs[s].plan == plan
            && subs[s].currentCycle == Some(|db.cycles|)
            && (forall t :: 0 <= t < |db.subs| && t != s ==> subs[t] == db.subs[t])
            && |subs| == (if s == |db.subs| then |db.subs| + 1 else |db.subs|)
            && (s == |db.subs| <==> !IsOpen(db.subs, user))
            && (s == |db.subs| ==> subs[s].startedAt == start)
            && (s < |db.subs| ==>
                  && db.subs[s].user == user && db.subs[s].status.SubExpired? && subs[s].startedAt == db.subs[s].startedAt)
  {
  }

  /**
   The paid subscription is ACTIVE, of the buyer and of the plan bought, and the new cycle is its current one. It is a new
   row, started at the confirmation, exactly when the buyer had none open; else the buyer's lapsed one, started when it
   was. No other subscription changes.
   */
  lemma PaidSubscription(db: Db, a: Id)
    requires Reachable(db)
    ensures ForeignKeys(db)
    ensures Commits(db, a) ==>
              var (db', r) := Finalize(db, a);
              var order := db.orders[db.attempts[a].order];
              && r.sub < |db'.subs|
              && db'.subs[r.sub].status.SubActive? && db'.subs[r.sub].user == order.user && db'.subs[r.sub].plan == order.plan
              && db'.subs[r.sub].currentCycle == Some(r.cycle)
              && (forall s :: 0 <= s < |db.subs| && s != r.sub ==> db'.subs[s] == db.subs[s])
              && |db'.subs| == (if r.sub == |db.subs| then |db.subs| + 1 else |db.subs|)
              && (r.sub == |db.subs| <==> !IsOpen(db.subs, order.user))
              && (r.sub == |db.subs| ==> Some(db'.subs[r.sub].startedAt) == db.attempts[a].confirmedAt)
              && (r.sub < |db.subs| ==>
                    && db.subs[r.sub].user == order.user && db.subs[r.sub].status.SubExpired?
                    && db'.subs[r.sub].startedAt == db.subs[r.sub].startedAt)
  {
    InvParts(db);
    hide SubsOk, Finalize, Reachable, LedgerOk;
    if Commits(db, a) {
      CommitRows(db, a);
      hide Commits;
      CommittedRows(db, a);
      var order := db.orders[db.attempts[a].order];
      Activated(db, order.user, order.plan, db.attempts[a].confirmedAt.value);
      hide CommitFinalization, ActivateSub, TargetSub, NewCycle, PriceConsistent, IsOpen, FindNonterminal, ForeignKeys;
    }
  }

  /**
   One cycle is added: the next of its subscription, for the months of the price from the confirmation on, with the plan,
   the price and the amounts of the order.
   */
  lemma PaidCycle(db: Db, a: Id)
    requires Reachable(db)
    ensures ForeignKeys(db)
    ensures Commits(db, a) ==>
              var (db', r) := Finalize(db, a);
              var order := db.orders[db.attempts[a].order];
              && r.cycle == |db.cycles| && |db'.cycles| == |db.cycles| + 1
              && var c := db'.cycles[r.cycle];
              && RowIsAdded(db.cycles, db'.cycles, c)
              && c.sub == r.sub && c.order == db.attempts[a].order && c.seqNo == CyclesOf(db.cycles, r.sub) + 1
              && Some(c.start) == db.attempts[a].confirmedAt && order.price < |db.prices|
              && c.end == CalendarMonth.AddCalendarMonths(c.start, db.prices[order.price].months) && c.start < c.end
              && c.plan == order.plan && c.price == order.price
              && c.gross == order.gross && c.discount == order.discount && c.paid == order.payable
  {
    ReachableInv(db);
    hide PricesOk, OrdersOk, AttemptsOk, ExternalIdsOk, LogOk, DiscountsOk, RedeemsOk, LedgerOk, SubsOk, CyclesOk;
    hide Finalize, ConsumeDiscount, ActivateSub, Reachable, CyclesOf, MaxSeqNo, Inv, CalendarMonth.AddCalendarMonths;
    if Commits(db, a) {
      CommitRows(db, a);
      NewCycleOk(db, a);
    }
  }

  /** A consumed discount: its debit, its hold and its redemption. */
  lemma Consumed(db: Db, user: Id, r: Id)
    requires LedgerOk(db.ledger) && r < |db.redemptions|
    ensures var db', red := ConsumeDiscount(db, user, r), db.redemptions[r];
            && RowBecomes(db.redemptions, db'.redemptions, r, red.(status := Applied, hold := red.hold.(status := HoldConsumed)))
            && RowIsAdded(db.ledger, db'.ledger,
                          Entry(user, EntriesOf(db.ledger, user) + 1, Redeem, -red.amount,
                                Balance(db.ledger, user) - red.amount, Some(r), Some(|db.cycles|)))
  {
    MaxEntryIsCount(db.ledger, user);
    hide MaxEntryNo, EntriesOf, Balance, LedgerOk;
  }

  /** The rows of the order and of its discount after `db` became `db'`. */
  predicate OrderIsPaid(db: Db, db': Db, o: Id, cycle: Id)
    requires o < |db.orders|
  {
    var order := db.orders[o];
    && db'.prices == db.prices && db'.attempts == db.attempts && db'.events == db.events
    && RowBecomes(db.orders, db'.orders, o, order.(status := OrderPaid))
    && (order.redemption.None? ==> db'.ledger == db.ledger && db'.redemptions == db.redemptions)
    && (order.redemption.Some? ==>
          && order.redemption.value < |db.redemptions|
          && var red := db.redemptions[order.redemption.value];
          && RowBecomes(db.redemptions, db'.redemptions, order.redemption.value,
                        red.(status := Applied, hold := red.hold.(status := HoldConsumed)))
          && RowIsAdded(db.ledger, db'.ledger,
                        Entry(order.user, EntriesOf(db.ledger, order.user) + 1, Redeem, -red.amount,
                              Balance(db.ledger, order.user) - red.amount, order.redemption, Some(cycle))))
  }

  lemma CommitPays(db: Db, a: Id)
    requires ForeignKeys(db) && LedgerOk(db.ledger)
    requires a < |db.attempts| && db.attempts[a].confirmedAt.Some?
    requires PriceConsistent(db, db.orders[db.attempts[a].order])
    ensures OrderIsPaid(db, CommitFinalization(db, a), db.attempts[a].order, |db.cycles|)
  {
    hide CommitFinalization, ActivateSub, NewCycle, ConsumeDiscount, LedgerOk, OrderIsPaid;
    CommittedRows(db, a);
    var o := db.attempts[a].order;
    hide PriceConsistent;
    PaysFromRows(db, CommitFinalization(db, a), o);
  }

  lemma PaysFromRows(db: Db, db': Db, o: Id)
    requires LedgerOk(db.ledger) && o < |db.orders|
    requires db'.prices == db.prices && db'.attempts == db.attempts && db'.events == db.events
    requires var order := db.orders[o];
             && db'.orders == db.orders[o := order.(status := OrderPaid)]
             && (order.redemption.None? ==> db'.ledger == db.ledger && db'.redemptions == db.redemptions)
             && (order.redemption.Some? ==>
                   && order.redemption.value < |db.redemptions|
                   && var consumed := ConsumeDiscount(db, order.user, order.redemption.value);
                   db'.ledger == consumed.ledger && db'.redemptions == consumed.redemptions)
    ensures OrderIsPaid(db, db', o, |db.cycles|)
  {
    hide ConsumeDiscount, LedgerOk, EntriesOf, Balance;
    if db.orders[o].redemption.Some? {
      Consumed(db, db.orders[o].user, db.orders[o].redemption.value);
    }
  }

  /**
   The order turns PAID. An undiscounted one moves no money; the discount of a discounted one is debited, under the next
   number and with the running balance, its hold is consumed and its redemption applied. Prices, attempts and the log stay.
   */
  lemma PaidOrder(db: Db, a: Id)
    requires Reachable(db)
    ensures ForeignKeys(db)
    ensures Commits(db, a) ==>
              a < |db.attempts| && OrderIsPaid(db, Finalize(db, a).0, db.attempts[a].order, Finalize(db, a).1.cycle)
  {
    InvParts(db);
    hide SubsOk, LedgerOk, Finalize, Reachable;
    if Commits(db, a) {
      CommitRows(db, a);
      CommitPays(db, a);
      hide OrderIsPaid, CommitFinalization, PriceConsistent;
    }
  }
}
