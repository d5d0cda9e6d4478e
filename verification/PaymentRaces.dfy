/** What the locks do not prevent: two schedules, each from tables that a run leads to, of which nothing bad comes. */
module PaymentRaces {
  import opened Basics
  import opened PaymentModel
  import opened PaymentSteps
  import opened PaymentRuns
  import opened PaymentTheorems
  import opened PaymentLocks
  import opened PaymentCommits
  import opened PaymentInterleavings

  lemma PlayOneMore(s: Sys, schedule: seq<Choice>, c: Choice)
    ensures Play(s, schedule + [c]) == Perform(Play(s, schedule), c)
  {
    assert (schedule + [c])[..|schedule|] == schedule;
  }

  const REOPEN: Tx := TxReopen(0)
  const RETRY: Tx := TxInitiate(0, 0, CLICK, "s", 0)
  const PRICE: Tx := TxWhole(DoCommitDiscount(0, 0, 0))

  /** Four steps of thread `i` of two, the other standing at `q`. */
  ghost function Four(s: Sys, i: nat, tx: Tx): Sys {
    Perform(Perform(Perform(Perform(s, Runs(i, tx)), Runs(i, tx)), Runs(i, tx)), Runs(i, tx))
  }

  lemma PlayFour(s: Sys, schedule: seq<Choice>, i: nat, tx: Tx)
    ensures Play(s, schedule + [Runs(i, tx), Runs(i, tx), Runs(i, tx), Runs(i, tx)]) == Four(Play(s, schedule), i, tx)
  {
    var c := Runs(i, tx);
    hide Perform;
    PlayOneMore(s, schedule, c);
    PlayOneMore(s, schedule + [c], c);
    PlayOneMore(s, schedule + [c] + [c], c);
    PlayOneMore(s, schedule + [c] + [c] + [c], c);
    assert schedule + [c, c, c, c] == schedule + [c] + [c] + [c] + [c];
  }

  /** The tables both races start from: a CREATED order whose only attempt FAILED. */
  ghost predicate FailedOnce(db: Db) {
    ForeignKeys(db) && db.orders == [PlainOrder(OrderCreated)] && db.attempts == [FirstAttempt(Failed)]
  }

  lemma FailedHasKeys(db: Db)
    requires Reachable(db) && db.orders == [PlainOrder(OrderCreated)] && db.attempts == [FirstAttempt(Failed)]
    ensures FailedOnce(db)
  {
    ReachableInv(db);
    hide Reachable;
  }

  // ---- a reopening that reads its order before, and its PENDING attempts after, an initiation commits ----

  lemma ReopenStarts(db: Db)
    requires FailedOnce(db)
    ensures Four(Sys(db, [Idle, Idle], map[]), 0, REOPEN) == Sys(db, [ReopenTerminal(REOPEN), Idle], map[PayLock(0) := 0])
  {
    var s0 := Sys(db, [Idle, Idle], map[]);
    hide ForeignKeys;
    var s1 := Perform(s0, Runs(0, REOPEN));
    assert s1 == Sys(db, [Taking(REOPEN, 0), Idle], map[]);
    var s2 := Perform(s1, Runs(0, REOPEN));
    assert s2 == Sys(db, [Taking(REOPEN, 1), Idle], map[PayLock(0) := 0]);
    var s3 := Perform(s2, Runs(0, REOPEN));
    assert s3 == Sys(db, [Ready(REOPEN), Idle], map[PayLock(0) := 0]);
  }

  lemma ReopenReadsOrder(db: Db)
    requires FailedOnce(db)
    ensures Perform(Sys(db, [ReopenTerminal(REOPEN), Idle], map[PayLock(0) := 0]), Runs(0, REOPEN))
            == Sys(db, [ReopenOrderRead(REOPEN, OrderCreated), Idle], map[PayLock(0) := 0])
  {
    hide ForeignKeys;
  }

  lemma RetryStarts(db: Db)
    requires FailedOnce(db)
    ensures Four(Sys(db, [ReopenOrderRead(REOPEN, OrderCreated), Idle], map[PayLock(0) := 0]), 1, RETRY)
            == Sys(db, [ReopenOrderRead(REOPEN, OrderCreated), InitOrderRead(RETRY, PlainOrder(OrderCreated))],
                   map[PayLock(0) := 0, IzlLock(0) := 1])
  {
    var p := ReopenOrderRead(REOPEN, OrderCreated);
    var s0 := Sys(db, [p, Idle], map[PayLock(0) := 0]);
    hide ForeignKeys;
    var s1 := Perform(s0, Runs(1, RETRY));
    assert s1 == Sys(db, [p, Taking(RETRY, 0)], map[PayLock(0) := 0]);
    var s2 := Perform(s1, Runs(1, RETRY));
    assert s2 == Sys(db, [p, Taking(RETRY, 1)], map[PayLock(0) := 0, IzlLock(0) := 1]);
    var s3 := Perform(s2, Runs(1, RETRY));
    assert s3 == Sys(db, [p, Ready(RETRY)], map[PayLock(0) := 0, IzlLock(0) := 1]);
  }

  lemma RetryPasses(db: Db)
    requires FailedOnce(db)
    ensures var p := ReopenOrderRead(REOPEN, OrderCreated); var locks := map[PayLock(0) := 0, IzlLock(0) := 1];
            var order := PlainOrder(OrderCreated); var c := Runs(1, RETRY);
            Perform(Perform(Sys(db, [p, InitOrderRead(RETRY, order)], locks), c), c) == Sys(db, [p, InitBacked(RETRY, order)], locks)
  {
    var p, order, locks := ReopenOrderRead(REOPEN, OrderCreated), PlainOrder(OrderCreated), map[PayLock(0) := 0, IzlLock(0) := 1];
    assert FindRequest(db.attempts, 0, "s").None?;
    assert CommittedDiscountOk(db, 0);
    hide ForeignKeys, FindRequest, CommittedDiscountOk;
    assert Eligible(order, 0);
    var s1 := Perform(Sys(db, [p, InitOrderRead(RETRY, order)], locks), Runs(1, RETRY));
    assert s1 == Sys(db, [p, InitEligible(RETRY, order)], locks);
  }

  /** The tables after the retry. */
  function Retried(db: Db): Db
    requires |db.orders| == 1
  {
    db.(attempts := db.attempts + [Attempt(0, CLICK, None, 1000, AttemptPending, "s", None)],
        orders := [PlainOrder(OrderPending)])
  }

  lemma RetryCommits(db: Db)
    requires FailedOnce(db)
    ensures ForeignKeys(Retried(db))
    ensures var p := ReopenOrderRead(REOPEN, OrderCreated);
            Perform(Sys(db, [p, InitBacked(RETRY, PlainOrder(OrderCreated))], map[PayLock(0) := 0, IzlLock(0) := 1]), Runs(1, RETRY))
            == Sys(Retried(db), [p, Idle], map[PayLock(0) := 0])
  {
    assert FindRequest(db.attempts, 0, "s").None? && !HasStatus(db.attempts, 0, AttemptPending);
    hide FindRequest, HasStatus;
    assert InitWrite(db, RETRY, PlainOrder(OrderCreated)) == Retried(db);
  }

  lemma ReopenCounts(db: Db)
    requires FailedOnce(db) && ForeignKeys(Retried(db))
    ensures Perform(Sys(Retried(db), [ReopenOrderRead(REOPEN, OrderCreated), Idle], map[PayLock(0) := 0]), Runs(0, REOPEN))
            == Sys(Retried(db), [ReopenPendingRead(REOPEN, OrderCreated, true), Idle], map[PayLock(0) := 0])
  {
    assert Retried(db).attempts[1].status.AttemptPending? && Retried(db).attempts[1].order == 0;
    assert HasStatus(Retried(db).attempts, 0, AttemptPending);
    hide ForeignKeys, HasStatus;
  }

  lemma RaceOpens(db: Db) returns (schedule: seq<Choice>)
    requires FailedOnce(db)
    ensures Play(Sys(db, [Idle, Idle], map[]), schedule)
            == Sys(db, [ReopenOrderRead(REOPEN, OrderCreated), InitOrderRead(RETRY, PlainOrder(OrderCreated))],
                   map[PayLock(0) := 0, IzlLock(0) := 1])
  {
    var s, c, d := Sys(db, [Idle, Idle], map[]), Runs(0, REOPEN), Runs(1, RETRY);
    assert Play(s, []) == s;
    ReopenStarts(db);
    ReopenReadsOrder(db);
    RetryStarts(db);
    hide *;
    var one := [c, c, c, c];
    PlayFour(s, [], 0, REOPEN);
    assert [] + one == one;
    PlayOneMore(s, one, c);
    PlayFour(s, one + [c], 1, RETRY);
    schedule := one + [c] + [d, d, d, d];
  }

  lemma RaceCloses(db: Db, opening: seq<Choice>) returns (schedule: seq<Choice>)
    requires FailedOnce(db)
    requires Play(Sys(db, [Idle, Idle], map[]), opening)
             == Sys(db, [ReopenOrderRead(REOPEN, OrderCreated), InitOrderRead(RETRY, PlainOrder(OrderCreated))],
                    map[PayLock(0) := 0, IzlLock(0) := 1])
    ensures Play(Sys(db, [Idle, Idle], map[]), schedule).procs == [ReopenPendingRead(REOPEN, OrderCreated, true), Idle]
  {
    var s, c, d := Sys(db, [Idle, Idle], map[]), Runs(0, REOPEN), Runs(1, RETRY);
    assert |db.orders| == 1;
    RetryPasses(db);
    RetryCommits(db);
    ReopenCounts(db);
    hide *;
    PlayOneMore(s, opening, d);
    PlayOneMore(s, opening + [d], d);
    PlayOneMore(s, opening + [d] + [d], d);
    PlayOneMore(s, opening + [d] + [d] + [d], c);
    schedule := opening + [d] + [d] + [d] + [c];
  }

  /** A reopening may read an order CREATED and then count a PENDING attempt of it. */
  lemma CreatedWithPendingIsSeen() returns (s: Sys, schedule: seq<Choice>)
    ensures Boots(s) && Play(s, schedule).procs == [ReopenPendingRead(REOPEN, OrderCreated, true), Idle]
  {
    var db, _ := FailedIsReached();
    hide Reachable, ForeignKeys, Play;
    FailedHasKeys(db);
    s := Sys(db, [Idle, Idle], map[]);
    schedule := RaceOpens(db);
    schedule := RaceCloses(db, schedule);
  }

  // ---- a late success that reads its order before, and decides after, a discount is committed ----

  lemma LateStarts(db: Db, v: VerifiedEvent)
    requires FailedOnce(db) && v.attempt == 0 && KeyOf(v) !in db.events
    ensures Four(Sys(db, [Idle, Idle], map[]), 0, TxCall(v, None)) == Sys(db, [CallFresh(TxCall(v, None)), Idle], map[PayLock(0) := 0])
  {
    var tx, s0 := TxCall(v, None), Sys(db, [Idle, Idle], map[]);
    hide ForeignKeys;
    var s1 := Perform(s0, Runs(0, tx));
    assert s1 == Sys(db, [Taking(tx, 0), Idle], map[]);
    var s2 := Perform(s1, Runs(0, tx));
    assert s2 == Sys(db, [Taking(tx, 1), Idle], map[PayLock(0) := 0]);
    var s3 := Perform(s2, Runs(0, tx));
    assert s3 == Sys(db, [Ready(tx), Idle], map[PayLock(0) := 0]);
  }

  lemma LateReads(db: Db, v: VerifiedEvent)
    requires FailedOnce(db) && v.attempt == 0
    ensures var tx := TxCall(v, None); var c := Runs(0, tx);
            Perform(Perform(Sys(db, [CallFresh(tx), Idle], map[PayLock(0) := 0]), c), c)
            == Sys(db, [CallOrderRead(tx, FirstAttempt(Failed), PlainOrder(OrderCreated)), Idle], map[PayLock(0) := 0])
  {
    hide ForeignKeys;
    var tx := TxCall(v, None);
    var s1 := Perform(Sys(db, [CallFresh(tx), Idle], map[PayLock(0) := 0]), Runs(0, tx));
    assert s1 == Sys(db, [CallAttemptRead(tx, FirstAttempt(Failed)), Idle], map[PayLock(0) := 0]);
  }

  function PricedOrder(): Order { Order(0, SubscriptionPurchase, OrderCreated, 1000, 100, 900, "UZS", 0, 0, Some(0), None) }

  lemma PriceIsCommitted(db: Db)
    requires FailedOnce(db) && db.redemptions == [ReservedRedemption()]
    ensures Committable(ReservedRedemption(), PlainOrder(OrderCreated), 0, 0)
    ensures Apply(db, DoCommitDiscount(0, 0, 0)) == db.(orders := [PricedOrder()])
    ensures PriceWrite(db, PRICE, ReservedRedemption(), PlainOrder(OrderCreated)) == db.(orders := [PricedOrder()])
  {
    hide ForeignKeys;
  }

  lemma PriceStarts(db: Db, p: Proc)
    requires FailedOnce(db) && db.redemptions == [ReservedRedemption()] && Known(db, p)
    ensures Four(Sys(db, [p, Idle], map[PayLock(0) := 0]), 1, PRICE)
            == Sys(db, [p, PriceRead(PRICE, ReservedRedemption())], map[PayLock(0) := 0, IzlLock(0) := 1])
  {
    var s0 := Sys(db, [p, Idle], map[PayLock(0) := 0]);
    KnownPrice(db);
    hide ForeignKeys, Known, Apply, FinReadsFit;
    var s1 := Perform(s0, Runs(1, PRICE));
    assert s1 == Sys(db, [p, Taking(PRICE, 0)], map[PayLock(0) := 0]);
    var s2 := Perform(s1, Runs(1, PRICE));
    assert s2 == Sys(db, [p, Taking(PRICE, 1)], map[PayLock(0) := 0, IzlLock(0) := 1]);
    var s3 := Perform(s2, Runs(1, PRICE));
    assert s3 == Sys(db, [p, Ready(PRICE)], map[PayLock(0) := 0, IzlLock(0) := 1]);
  }

  lemma PriceEnds(db: Db, p: Proc)
    requires FailedOnce(db) && db.redemptions == [ReservedRedemption()] && Known(db, p)
    ensures var d := Runs(1, PRICE);
            Perform(Perform(Sys(db, [p, PriceRead(PRICE, ReservedRedemption())], map[PayLock(0) := 0, IzlLock(0) := 1]), d), d)
            == Sys(db.(orders := [PricedOrder()]), [p, Idle], map[PayLock(0) := 0])
  {
    PriceIsCommitted(db);
    KnownPrice(db);
    hide ForeignKeys, Known, Apply, FinReadsFit, Committable, PriceWrite;
    var locks := map[PayLock(0) := 0, IzlLock(0) := 1];
    var s1 := Perform(Sys(db, [p, PriceRead(PRICE, ReservedRedemption())], locks), Runs(1, PRICE));
    assert s1 == Sys(db, [p, PriceChecked(PRICE, ReservedRedemption(), PlainOrder(OrderCreated))], locks);
  }

  lemma KnownPrice(db: Db)
    requires |db.redemptions| == 1 && |db.orders| == 1
    ensures Known(db, Idle) && Known(db, Taking(PRICE, 0)) && Known(db, Taking(PRICE, 1)) && Known(db, Ready(PRICE))
    ensures Known(db, PriceRead(PRICE, ReservedRedemption()))
    ensures Known(db, PriceChecked(PRICE, ReservedRedemption(), PlainOrder(OrderCreated)))
    ensures forall p: Proc :: !p.FinPosted? ==> FinReadsFit(db, p)
  {
  }

  lemma LateDecides(db: Db, v: VerifiedEvent)
    requires ForeignKeys(db) && |db.orders| == 1 && db.attempts == [FirstAttempt(Failed)] && v.attempt == 0
    ensures var tx := TxCall(v, None); var c := Runs(0, tx); var pt := FirstAttempt(Failed); var order := PlainOrder(OrderCreated);
            exists other, taken ::
              Perform(Perform(Sys(db, [CallOrderRead(tx, pt, order), Idle], map[PayLock(0) := 0]), c), c)
              == Sys(db, [CallDecided(tx, pt, order, other, taken), Idle], map[PayLock(0) := 0])
  {
    var tx, pt, order := TxCall(v, None), FirstAttempt(Failed), PlainOrder(OrderCreated);
    hide ForeignKeys, OtherSucceeded, BroughtIsTaken;
    var other := OtherSucceeded(db.attempts, 0, 0);
    var s1 := Perform(Sys(db, [CallOrderRead(tx, pt, order), Idle], map[PayLock(0) := 0]), Runs(0, tx));
    assert s1 == Sys(db, [CallOthersRead(tx, pt, order, other), Idle], map[PayLock(0) := 0]);
    assert Perform(s1, Runs(0, tx))
           == Sys(db, [CallDecided(tx, pt, order, other, BroughtIsTaken(db.attempts, v)), Idle], map[PayLock(0) := 0]);
  }

  /** The decision on the rows read, and that on the rows as they are by then. */
  lemma LateDisagrees(db: Db, other: bool, taken: bool)
    requires db.orders == [PricedOrder()] && db.attempts == [FirstAttempt(Failed)]
    ensures var tx := TxCall(LateEvent(), None);
            && Decision(tx, FirstAttempt(Failed), PlainOrder(OrderCreated), other, taken) == Reject(Some(0), TerminalStatusConflict)
            && DecisionNow(db, tx) == Reject(Some(0), OrderAmountMismatch)
  {
    hide OtherSucceeded, BroughtIsTaken;
  }

  lemma LateOpens(db: Db, v: VerifiedEvent) returns (schedule: seq<Choice>)
    requires FailedOnce(db) && v.attempt == 0 && KeyOf(v) !in db.events
    ensures Play(Sys(db, [Idle, Idle], map[]), schedule)
            == Sys(db, [CallOrderRead(TxCall(v, None), FirstAttempt(Failed), PlainOrder(OrderCreated)), Idle], map[PayLock(0) := 0])
  {
    var s, tx, c := Sys(db, [Idle, Idle], map[]), TxCall(v, None), Runs(0, TxCall(v, None));
    assert Play(s, []) == s;
    LateStarts(db, v);
    LateReads(db, v);
    hide *;
    var one := [c, c, c, c];
    PlayFour(s, [], 0, tx);
    assert [] + one == one;
    PlayOneMore(s, one, c);
    PlayOneMore(s, one + [c], c);
    schedule := one + [c] + [c];
  }

  lemma PriceBetween(db: Db, s: Sys, p: Proc, opening: seq<Choice>) returns (schedule: seq<Choice>)
    requires FailedOnce(db) && db.redemptions == [ReservedRedemption()] && Known(db, p)
    requires Play(s, opening) == Sys(db, [p, Idle], map[PayLock(0) := 0])
    ensures Play(s, schedule) == Sys(db.(orders := [PricedOrder()]), [p, Idle], map[PayLock(0) := 0])
  {
    var d := Runs(1, PRICE);
    PriceStarts(db, p);
    PriceEnds(db, p);
    hide *;
    var mid := opening + [d, d, d, d];
    PlayFour(s, opening, 1, PRICE);
    PlayOneMore(s, mid, d);
    PlayOneMore(s, mid + [d], d);
    schedule := mid + [d] + [d];
  }

  lemma LateRuns(db: Db, v: VerifiedEvent) returns (schedule: seq<Choice>, other: bool, taken: bool)
    requires FailedOnce(db) && db.redemptions == [ReservedRedemption()] && v.attempt == 0 && KeyOf(v) !in db.events
    requires ForeignKeys(db.(orders := [PricedOrder()]))
    ensures Play(Sys(db, [Idle, Idle], map[]), schedule)
            == Sys(db.(orders := [PricedOrder()]),
                   [CallDecided(TxCall(v, None), FirstAttempt(Failed), PlainOrder(OrderCreated), other, taken), Idle], map[PayLock(0) := 0])
  {
    var s, tx, later := Sys(db, [Idle, Idle], map[]), TxCall(v, None), db.(orders := [PricedOrder()]);
    var c, p := Runs(0, tx), CallOrderRead(tx, FirstAttempt(Failed), PlainOrder(OrderCreated));
    assert Known(db, p);
    LateDecides(later, v);
    hide *;
    schedule := LateOpens(db, v);
    schedule := PriceBetween(db, s, p, schedule);
    other, taken :| Perform(Perform(Sys(later, [p, Idle], map[PayLock(0) := 0]), c), c)
                    == Sys(later, [CallDecided(tx, FirstAttempt(Failed), PlainOrder(OrderCreated), other, taken), Idle], map[PayLock(0) := 0]);
    PlayOneMore(s, schedule, c);
    PlayOneMore(s, schedule + [c], c);
    schedule := schedule + [c] + [c];
  }

  /** A late success of a FAILED attempt may be refused for a reason that a discount committed since has overtaken. */
  lemma RefusalIsOvertaken() returns (s: Sys, schedule: seq<Choice>)
    ensures Boots(s)
    ensures var now := Play(s, schedule);
            && |now.procs| == 2 && now.procs[0].CallDecided? && Known(now.db, now.procs[0])
            && var p := now.procs[0];
            && Decision(p.tx, p.pt, p.order, p.other, p.taken) == Reject(Some(0), TerminalStatusConflict)
            && DecisionNow(now.db, p.tx) == Reject(Some(0), OrderAmountMismatch)
  {
    var failed, db := FailedIsReached();
    FailedHasKeys(db);
    var later := db.(orders := [PricedOrder()]);
    PricedHasKeys(db);
    assert LateEvent().attempt == 0;
    hide Reachable, ForeignKeys, Play, Decision, DecisionNow, LateEvent, KeyOf;
    s := Sys(db, [Idle, Idle], map[]);
    var other, taken;
    schedule, other, taken := LateRuns(db, LateEvent());
    LateDisagrees(later, other, taken);
  }

  lemma PricedHasKeys(db: Db)
    requires FailedOnce(db) && Reachable(db) && db.redemptions == [ReservedRedemption()]
    ensures ForeignKeys(db.(orders := [PricedOrder()]))
  {
    ReachableInv(db);
    hide Reachable, Apply;
    KeepStep(db, DoCommitDiscount(0, 0, 0));
    PriceIsCommitted(db);
  }
}
