/**
 What a thread's earlier reads still guarantee while other threads commit, and that a commit built from them is the whole
 transaction of `PaymentSteps` on the tables as they are then.
 */
module PaymentReads {
  import opened Basics
  import opened PaymentModel
  import opened PaymentSteps
  import opened PaymentInvariants
  import opened PaymentRuns
  import opened PaymentHistory
  import opened PaymentLocks
  import opened PaymentRely

  // ---- what was read is still true ----

  /** The discount read before the locks were taken is right as long as the attempt is live. */
  predicate TxOk(db: Db, tx: Tx)
    requires TxKnown(db, tx)
  {
    tx.TxFinalize? && Live(db.attempts[tx.attempt].status) ==>
      tx.discounted == db.orders[OrderOf(db, tx.attempt)].redemption.Some?
  }

  ghost predicate InitOk(db: Db, p: Proc)
    requires InInit(p) && Known(db, p)
  {
    var row := db.orders[p.tx.order];
    && row.user == p.tx.user
    && (p.InitOrderRead? && p.order.status.OrderCreated? ==> row == p.order)
    && (p.InitEligible? || p.InitBacked? ==>
          row == p.order && Eligible(row, p.tx.now) && FindRequest(db.attempts, p.tx.order, p.tx.request).None?)
    && (p.InitBacked? ==> CommittedDiscountOk(db, p.tx.order))
  }

  ghost predicate PriceOk(db: Db, p: Proc)
    requires InPrice(p) && Known(db, p)
  {
    && db.redemptions[p.tx.step.redemption] == p.red && p.red.user == p.tx.step.user
    && (p.PriceChecked? ==> db.orders[p.red.order] == p.order && Committable(p.red, p.order, p.tx.step.user, p.tx.step.now))
  }

  /** The order row was read under the lock of a live attempt, or only its frozen columns count. */
  ghost predicate OrderSeen(db: Db, pt: Attempt, order: Order) {
    && pt.order < |db.orders| && order.currency == db.orders[pt.order].currency
    && (Live(pt.status) ==> db.orders[pt.order] == order)
  }

  ghost predicate CallOk(db: Db, p: Proc)
    requires InCall(p) && Known(db, p)
  {
    && (!p.CallFresh? ==> db.attempts[p.tx.event.attempt] == p.pt)
    && (p.CallOrderRead? || p.CallOthersRead? || p.CallDecided? ==> OrderSeen(db, p.pt, p.order))
    && ((p.CallOthersRead? || p.CallDecided?) && p.pt.status.AttemptPending? ==> !p.other)
    && (p.CallDecided? && p.taken ==> BroughtIsTaken(db.attempts, p.tx.event))
  }

  predicate BindOk(db: Db, p: Proc)
    requires p.BindRead? && Known(db, p)
  {
    && db.attempts[p.tx.attempt] == p.pt && p.pt.provider == p.tx.provider
    && p.pt.status.AttemptPending? && p.pt.externalId.None? && NonBlank(p.tx.externalId)
  }

  ghost predicate ReopenOk(db: Db, p: Proc)
    requires InReopen(p) && Known(db, p)
  {
    var o := OrderOf(db, p.tx.attempt);
    && Terminal(db.attempts[p.tx.attempt].status)
    && (!p.ReopenTerminal? && p.status.OrderPending? ==> db.orders[o].status.OrderPending?)
    && ((p.ReopenOrderRead? || p.ReopenPendingRead?) && p.status.OrderCreated? ==> CreatedOrRetried(db, o))
    && ((p.ReopenPendingRead? || p.ReopenDeciding?) && p.status.OrderPending? && !p.pending
        ==> !HasStatus(db.attempts, o, AttemptPending))
    && (p.ReopenDeciding? && p.status.OrderPending? && !p.succeeded ==> !HasStatus(db.attempts, o, Succeeded))
    && (p.ReopenDeciding? && p.status.OrderCreated? ==> !p.succeeded)
  }

  predicate FinHasOrder(p: Proc) { InFin(p) && !p.FinAttemptRead? }

  predicate FinHasNoCycle(p: Proc) { FinHasOrder(p) && !p.FinOrderRead? }

  predicate FinHasDiscount(p: Proc) { FinHasNoCycle(p) && !p.FinUnpaid? }

  predicate FinHasSub(p: Proc) { p.FinSubRead? || p.FinNumbered? || p.FinPosted? }

  ghost predicate FinRowsOk(db: Db, p: Proc)
    requires InFin(p) && Known(db, p)
  {
    && db.attempts[p.tx.attempt] == p.pt && p.pt.status.Succeeded? && p.pt.confirmedAt.Some?
    && (FinHasOrder(p) ==> db.orders[p.pt.order] == p.order && Payable(p.pt, p.order))
    && (FinHasNoCycle(p) ==> FindCycle(db.cycles, p.pt.order).None?)
  }

  ghost predicate FinDiscountOk(db: Db, p: Proc)
    requires InFin(p) && Known(db, p) && FinRowsOk(db, p)
  {
    FinHasDiscount(p) ==>
      && DiscountProvenance(db, p.pt.order) && PriceConsistent(db, p.order)
      && (p.order.redemption.Some? ==> p.izl == db.redemptions[p.order.redemption.value].amount)
  }

  ghost predicate FinSubOk(db: Db, p: Proc)
    requires InFin(p)
  {
    FinHasSub(p) ==>
      && p.sub == FindNonterminal(db.subs, p.order.user)
      && (p.sub.Some? ==> !db.subs[p.sub.value].status.SubActive?)
      && (p.FinNumbered? || p.FinPosted? ==> p.seqNo == if p.sub.None? then 1 else MaxSeqNo(db.cycles, p.sub.value) + 1)
  }

  ghost predicate FinLedgerOk(db: Db, p: Proc)
    requires InFin(p)
  {
    p.FinPosted? && p.order.redemption.Some? ==>
      p.entryNo == MaxEntryNo(db.ledger, p.order.user) && p.balance == Balance(db.ledger, p.order.user)
  }

  ghost predicate ReadsOk(db: Db, p: Proc)
    requires Known(db, p)
  {
    && (InInit(p) ==> InitOk(db, p))
    && (InPrice(p) ==> PriceOk(db, p))
    && (InCall(p) ==> CallOk(db, p))
    && (p.BindRead? ==> BindOk(db, p))
    && (InReopen(p) ==> ReopenOk(db, p))
    && (InFin(p) ==> FinRowsOk(db, p) && FinDiscountOk(db, p) && FinSubOk(db, p) && FinLedgerOk(db, p))
  }

  ghost predicate ProcOk(db: Db, p: Proc) {
    Known(db, p) && (!p.Idle? ==> TxOk(db, p.tx)) && ReadsOk(db, p)
  }

  // ---- stability ----

  /** What every commit of another thread is known to do. */
  ghost predicate Rely(db: Db, db': Db) {
    ForeignKeys(db') && Later(db, db') && PricesSettled(db, db')
  }

  lemma TxKnownStable(db: Db, db': Db, tx: Tx)
    requires TxKnown(db, tx) && Rely(db, db')
    ensures TxKnown(db', tx) && LocksOf(db', tx) == LocksOf(db, tx)
  {
    match tx
    case TxWhole(step) =>
      if step.DoLapseSub? {
        assert db'.subs[step.sub].user == db.subs[step.sub].user;
      }
    case TxInitiate(_, _, _, _, _) =>
    case TxCall(v, _) => AttemptStable(db, db', v.attempt);
    case TxBind(a, _, _) => AttemptStable(db, db', a);
    case TxReopen(a) => AttemptStable(db, db', a);
    case TxFinalize(a, _) => AttemptStable(db, db', a);
  }

  lemma AttemptStable(db: Db, db': Db, a: Id)
    requires AttemptKnown(db, a) && Rely(db, db')
    ensures AttemptKnown(db', a) && OrderOf(db', a) == OrderOf(db, a) && UserOf(db', a) == UserOf(db, a)
    ensures Live(db'.attempts[a].status) ==> Live(db.attempts[a].status)
  {
    assert AttemptEvolves(db.attempts[a], db'.attempts[a]);
    assert OrderEvolves(db.orders[OrderOf(db, a)], db'.orders[OrderOf(db, a)]);
  }

  lemma KnownStable(db: Db, db': Db, p: Proc)
    requires Known(db, p) && Rely(db, db')
    ensures Known(db', p) && Held(db', p) == Held(db, p)
  {
    if !p.Idle? {
      TxKnownStable(db, db', p.tx);
    }
    hide TxKnown, LocksOf, Later, PricesSettled;
    OrdersGrow(db, db');
  }

  lemma OrdersGrow(db: Db, db': Db)
    requires Later(db, db')
    ensures |db.orders| <= |db'.orders| && |db.redemptions| <= |db'.redemptions|
  {
  }

  lemma TxStable(db: Db, db': Db, tx: Tx)
    requires AttemptsOk(db.orders, db.attempts) && TxKnown(db, tx) && TxOk(db, tx) && Rely(db, db')
    ensures TxKnown(db', tx) && TxOk(db', tx)
  {
    TxKnownStable(db, db', tx);
    if tx.TxFinalize? {
      AttemptStable(db, db', tx.attempt);
      assert AttemptOk(db.orders, db.attempts[tx.attempt]);
    }
  }

  lemma InitStable(db: Db, db': Db, p: Proc)
    requires InInit(p) && Known(db, p) && InitOk(db, p) && Rely(db, db') && IzlKeeps(db, db', p.tx.user) && Known(db', p)
    ensures InitOk(db', p)
  {
    var o := p.tx.order;
    assert OrderEvolves(db.orders[o], db'.orders[o]);
    assert forall a :: 0 <= a < |db.attempts| ==> AttemptEvolves(db.attempts[a], db'.attempts[a]);
  }

  lemma PriceStable(db: Db, db': Db, p: Proc)
    requires InPrice(p) && Known(db, p) && PriceOk(db, p) && IzlKeeps(db, db', p.tx.step.user) && Known(db', p)
    ensures PriceOk(db', p)
  {
    hide Expired, MaxDiscount;
  }

  lemma TakenStable(db: Db, db': Db, v: VerifiedEvent)
    requires Later(db, db') && BroughtIsTaken(db.attempts, v)
    ensures BroughtIsTaken(db'.attempts, v)
  {
    var b :| 0 <= b < |db.attempts| && b != v.attempt && db.attempts[b].provider == v.provider
             && db.attempts[b].externalId == Some(v.externalId.value);
    assert AttemptEvolves(db.attempts[b], db'.attempts[b]);
  }

  lemma CallStable(db: Db, db': Db, p: Proc)
    requires AttemptsOk(db.orders, db.attempts)
    requires InCall(p) && Known(db, p) && CallOk(db, p) && Rely(db, db') && Known(db', p)
    requires PayKeeps(db, db', OrderOf(db, p.tx.event.attempt))
    ensures CallOk(db', p)
  {
    var a := p.tx.event.attempt;
    assert OrderEvolves(db.orders[OrderOf(db, a)], db'.orders[OrderOf(db, a)]);
    assert AttemptOk(db.orders, db.attempts[a]);
    if p.CallDecided? && p.taken {
      TakenStable(db, db', p.tx.event);
    }
    hide BroughtIsTaken;
  }

  lemma BindStable(db: Db, db': Db, p: Proc)
    requires p.BindRead? && Known(db, p) && BindOk(db, p) && Rely(db, db') && Known(db', p)
    requires PayKeeps(db, db', OrderOf(db, p.tx.attempt))
    ensures BindOk(db', p)
  {
  }

  lemma StatusStable(db: Db, db': Db, o: Id, status: AttemptStatus)
    requires AttemptsLater(db.attempts, db'.attempts) && PayKeeps(db, db', o) && o < |db.orders| && !db.orders[o].status.OrderCreated?
    ensures HasStatus(db'.attempts, o, status) <==> HasStatus(db.attempts, o, status)
  {
    if HasStatus(db.attempts, o, status) {
      var b :| 0 <= b < |db.attempts| && db.attempts[b].order == o && db.attempts[b].status == status;
      assert db'.attempts[b] == db.attempts[b];
    }
    if HasStatus(db'.attempts, o, status) {
      var b :| 0 <= b < |db'.attempts| && db'.attempts[b].order == o && db'.attempts[b].status == status;
      assert b < |db.attempts| && AttemptEvolves(db.attempts[b], db'.attempts[b]);
      assert db'.attempts[b] == db.attempts[b];
    }
  }

  lemma ReopenStable(db: Db, db': Db, p: Proc)
    requires InReopen(p) && Known(db, p) && ReopenOk(db, p) && Rely(db, db') && Known(db', p)
    requires PayKeeps(db, db', OrderOf(db, p.tx.attempt))
    ensures ReopenOk(db', p)
  {
    var o := OrderOf(db, p.tx.attempt);
    AttemptStable(db, db', p.tx.attempt);
    if !db.orders[o].status.OrderCreated? {
      StatusStable(db, db', o, AttemptPending);
      StatusStable(db, db', o, Succeeded);
    }
    hide HasStatus, Later, PricesSettled;
  }

  lemma NewCyclesElsewhere(db: Db, db': Db, o: Id)
    requires PayKeeps(db, db', o) && o < |db.orders| && db.cycles <= db'.cycles && FindCycle(db.cycles, o).None?
    ensures FindCycle(db'.cycles, o).None?
  {
    assert forall c :: 0 <= c < |db.cycles| ==> db'.cycles[c] == db.cycles[c];
  }

  lemma FinRowsStable(db: Db, db': Db, p: Proc)
    requires InFin(p) && Known(db, p) && FinRowsOk(db, p) && Rely(db, db') && Known(db', p)
    requires PayKeeps(db, db', OrderOf(db, p.tx.attempt))
    ensures FinRowsOk(db', p)
  {
    if FinHasNoCycle(p) {
      NewCyclesElsewhere(db, db', p.pt.order);
    }
    hide FindCycle, PricesSettled;
  }

  lemma FinDiscountStable(db: Db, db': Db, p: Proc)
    requires InFin(p) && Known(db, p) && FinRowsOk(db, p) && FinDiscountOk(db, p) && Rely(db, db') && Known(db', p)
    requires FinRowsOk(db', p) && PayKeeps(db, db', OrderOf(db, p.tx.attempt))
    ensures FinDiscountOk(db', p)
  {
    hide FindCycle, PricesSettled;
  }

  lemma FoundStable(db: Db, db': Db, u: Id)
    requires SubsOk(db.subs) && SubsOk(db'.subs) && SubsLater(db.subs, db'.subs) && SubKeeps(db, db', u)
    ensures FindNonterminal(db'.subs, u) == FindNonterminal(db.subs, u)
  {
    var was, now := FindNonterminal(db.subs, u), FindNonterminal(db'.subs, u);
    if was.Some? {
      assert db'.subs[was.value] == db.subs[was.value];
    }
    if now.Some? {
      assert now.value < |db.subs| && db'.subs[now.value].user == db.subs[now.value].user;
    }
  }

  lemma {:induction false} MaxSeqNoStable(cycles: seq<Cycle>, cycles': seq<Cycle>, sub: Id)
    requires cycles <= cycles' && forall c :: |cycles| <= c < |cycles'| ==> cycles'[c].sub != sub
    ensures MaxSeqNo(cycles', sub) == MaxSeqNo(cycles, sub)
    decreases |cycles'|
  {
    if |cycles| < |cycles'| {
      MaxSeqNoStable(cycles, cycles'[..|cycles'| - 1], sub);
    } else {
      assert cycles == cycles';
    }
  }

  lemma {:induction false} LedgerStable(ledger: seq<Entry>, ledger': seq<Entry>, u: Id)
    requires ledger <= ledger' && forall e :: |ledger| <= e < |ledger'| ==> ledger'[e].user != u
    ensures MaxEntryNo(ledger', u) == MaxEntryNo(ledger, u) && Balance(ledger', u) == Balance(ledger, u)
    decreases |ledger'|
  {
    if |ledger| < |ledger'| {
      LedgerStable(ledger, ledger'[..|ledger'| - 1], u);
    } else {
      assert ledger == ledger';
    }
  }

  lemma FinSubStable(db: Db, db': Db, p: Proc)
    requires InFin(p) && FinSubOk(db, p) && SubsOk(db.subs) && SubsOk(db'.subs) && SubsLater(db.subs, db'.subs)
    requires FinHasSub(p) ==> SubKeeps(db, db', p.order.user)
    ensures FinSubOk(db', p)
  {
    if FinHasSub(p) {
      FoundStable(db, db', p.order.user);
      if p.sub.Some? {
        MaxSeqNoStable(db.cycles, db'.cycles, p.sub.value);
      }
    }
    hide FindNonterminal, MaxSeqNo, SubsOk;
  }

  /** The thread is past the read of its order, which belongs to the user whose locks it holds. */
  lemma FinHolds(db: Db, p: Proc)
    requires InFin(p) && Known(db, p) && FinRowsOk(db, p) && TxOk(db, p.tx)
    ensures PayLock(OrderOf(db, p.tx.attempt)) in Held(db, p)
    ensures FinHasOrder(p) ==> SubLock(p.order.user) in Held(db, p)
    ensures FinHasOrder(p) && p.order.redemption.Some? ==> IzlLock(p.order.user) in Held(db, p)
  {
    hide FindCycle;
    var locks := Held(db, p);
    assert locks[0] == SubLock(UserOf(db, p.tx.attempt)) && locks[1] == PayLock(OrderOf(db, p.tx.attempt));
    if p.tx.discounted {
      assert locks[2] == IzlLock(UserOf(db, p.tx.attempt));
    }
  }

  lemma FinStable(db: Db, db': Db, p: Proc)
    requires InFin(p) && Known(db, p) && TxOk(db, p.tx) && Rely(db, db') && Known(db', p)
    requires FinRowsOk(db, p) && FinDiscountOk(db, p) && FinSubOk(db, p) && FinLedgerOk(db, p)
    requires SubsOk(db.subs) && SubsOk(db'.subs) && SubsLater(db.subs, db'.subs)
    requires forall l :: l in Held(db, p) ==> Keeps(db, db', l)
    ensures FinRowsOk(db', p) && FinDiscountOk(db', p) && FinSubOk(db', p) && FinLedgerOk(db', p)
  {
    FinHolds(db, p);
    assert Keeps(db, db', PayLock(OrderOf(db, p.tx.attempt)));
    FinRowsStable(db, db', p);
    FinDiscountStable(db, db', p);
    hide FinRowsOk, FinDiscountOk, Held, PayKeeps, Rely, Known;
    if FinHasOrder(p) {
      assert Keeps(db, db', SubLock(p.order.user));
      if p.order.redemption.Some? {
        assert Keeps(db, db', IzlLock(p.order.user));
        LedgerStable(db.ledger, db'.ledger, p.order.user);
      }
    }
    FinSubStable(db, db', p);
  }

  /** What a thread has read stays true when others commit without holding its locks. */
  lemma ProcStable(db: Db, db': Db, p: Proc)
    requires Inv(db) && Inv(db') && Later(db, db') && PricesSettled(db, db') && ProcOk(db, p)
    requires forall l :: l in Held(db, p) ==> Keeps(db, db', l)
    ensures ProcOk(db', p) && Held(db', p) == Held(db, p)
  {
    assert Rely(db, db') && AttemptsOk(db.orders, db.attempts) && SubsOk(db.subs) && SubsOk(db'.subs);
    assert SubsLater(db.subs, db'.subs);
    hide Inv, Rely, Later, PricesSettled, AttemptsOk, SubsOk, SubsLater;
    KnownStable(db, db', p);
    if !p.Idle? {
      TxStable(db, db', p.tx);
      OwnLock(db, p);
      hide TxOk, Held, Known, TxKnown, LocksOf, InitOk, PriceOk, CallOk, BindOk, ReopenOk, FinRowsOk, FinDiscountOk, FinSubOk, FinLedgerOk;
      if InInit(p) {
        assert Keeps(db, db', IzlLock(p.tx.user));
        InitStable(db, db', p);
      } else if InPrice(p) {
        assert Keeps(db, db', IzlLock(p.tx.step.user));
        PriceStable(db, db', p);
      } else if InCall(p) {
        assert Keeps(db, db', PayLock(OrderOf(db, p.tx.event.attempt)));
        CallStable(db, db', p);
      } else if p.BindRead? {
        assert Keeps(db, db', PayLock(OrderOf(db, p.tx.attempt)));
        BindStable(db, db', p);
      } else if InReopen(p) {
        assert Keeps(db, db', PayLock(OrderOf(db, p.tx.attempt)));
        ReopenStable(db, db', p);
      } else if InFin(p) {
        FinStable(db, db', p);
      }
    }
  }

  lemma OwnLock(db: Db, p: Proc)
    requires Known(db, p)
    ensures InInit(p) ==> IzlLock(p.tx.user) in Held(db, p)
    ensures InPrice(p) ==> IzlLock(p.tx.step.user) in Held(db, p)
    ensures InCall(p) ==> PayLock(OrderOf(db, p.tx.event.attempt)) in Held(db, p)
    ensures p.BindRead? || InReopen(p) ==> PayLock(OrderOf(db, p.tx.attempt)) in Held(db, p)
  {
    if InInit(p) || InPrice(p) || InCall(p) || p.BindRead? || InReopen(p) {
      assert Held(db, p) == [Held(db, p)[0]];
    }
  }
}
