/**
 The two recovery loops: reopening orders stuck after a terminal callback, and finalizing trusted payments whose
 bridge was lost. Each pass reads its backlog page once and then works through it one transaction at a time.
 */
module PaymentRecovery {
  import opened Basics
  import opened PaymentModel
  import opened PaymentSteps
  import opened PaymentInvariants
  import opened PaymentRuns
  import opened PaymentRepositories
  import opened PaymentTheorems
  import opened PaymentEffects
  import opened PaymentPurchase

  const RECONCILE_DEFAULT_LIMIT: nat := 50
  const RECONCILE_MAX_LIMIT: nat := 200

  /** A missing, zero or negative limit means the default page; no page exceeds the maximum. */
  function ClampLimit(limit: Option<int>): (r: nat)
    ensures 1 <= r <= 200
    ensures limit.Some? && 1 <= limit.value <= 200 ==> r == limit.value
    ensures limit.None? || limit.value <= 0 ==> r == 50
  {
    if limit.None? || limit.value <= 0 then RECONCILE_DEFAULT_LIMIT
    else if limit.value < RECONCILE_MAX_LIMIT then limit.value else RECONCILE_MAX_LIMIT
  }

  function Min(a: nat, b: nat): nat { if a < b then a else b }

  // ---- backlogs ----

  /** BACKLOG_WHERE of src/payments/payment-reopen-recovery.repository.ts:11-17. */
  predicate StuckOrder(db: Db, o: Id) {
    && o < |db.orders| && db.orders[o].status.OrderPending?
    && (HasStatus(db.attempts, o, Failed) || HasStatus(db.attempts, o, Cancelled))
    && !HasStatus(db.attempts, o, AttemptPending) && !HasStatus(db.attempts, o, Succeeded)
  }

  /** BACKLOG_WHERE of src/payments/payment-finalization-recovery.repository.ts:6. */
  predicate Unfinalized(db: Db, a: Id) {
    && a < |db.attempts| && db.attempts[a].status.Succeeded?
    && db.attempts[a].order < |db.orders| && db.orders[db.attempts[a].order].status.OrderPending?
  }

  function StuckOrders(db: Db): set<Id> { set o: Id | 0 <= o < |db.orders| && StuckOrder(db, o) }

  function UnfinalizedAttempts(db: Db): set<Id> { set a: Id | 0 <= a < |db.attempts| && Unfinalized(db, a) }

  /** In every state a run leads to: an order is stuck exactly when it is PENDING without a live attempt. */
  lemma StuckExactly(db: Db, o: Id)
    requires Reachable(db)
    ensures o in StuckOrders(db) <==>
              && o < |db.orders| && db.orders[o].status.OrderPending?
              && forall b :: 0 <= b < |db.attempts| && db.attempts[b].order == o
                             ==> !db.attempts[b].status.AttemptPending? && !db.attempts[b].status.Succeeded?
  {
    if o < |db.orders| && db.orders[o].status.OrderPending? {
      ThreeClasses(db, o);
      hide Reachable;
    }
  }

  /** In every state a run leads to: a payment waits for finalization exactly when it SUCCEEDED and its order is not PAID. */
  lemma UnfinalizedExactly(db: Db, a: Id)
    requires Reachable(db)
    ensures a in UnfinalizedAttempts(db) <==>
              && a < |db.attempts| && db.attempts[a].status.Succeeded? && db.attempts[a].order < |db.orders|
              && !db.orders[db.attempts[a].order].status.OrderPaid?
  {
    ReachableInv(db);
    hide PricesOk, ForeignKeys, ExternalIdsOk, LogOk, DiscountsOk, RedeemsOk, LedgerOk, SubsOk, CyclesOk, Reachable;
    if a < |db.attempts| {
      assert AttemptOk(db.orders, db.attempts[a]);
      assert OrderOk(db.prices, db.orders[db.attempts[a].order]);
    }
  }

  /** The stuck orders that are older. */
  function StuckBefore(db: Db, o: Id): set<Id> { set p | p in StuckOrders(db) && p < o }

  /** The payments waiting that were confirmed earlier, or at the same time by an older attempt. */
  function WaitingBefore(db: Db, a: Id): set<Id>
    requires a < |db.attempts| && db.attempts[a].confirmedAt.Some?
  {
    set b | b in UnfinalizedAttempts(db) && db.attempts[b].confirmedAt.Some?
            && (db.attempts[b].confirmedAt.value < db.attempts[a].confirmedAt.value
                || (db.attempts[b].confirmedAt == db.attempts[a].confirmedAt && b < a))
  }

  lemma RankInList(s: seq<Id>, k: nat, before: set<Id>)
    requires Distinct(s) && k < |s| && forall x :: x in before <==> x in s[..k]
    ensures |before| == k
  {
    assert before == Elements(s[..k]);
    assert Distinct(s[..k]);
    DistinctSize(s[..k]);
  }

  // ---- pages: the rows of a backlog in reading order ----

  /** Stuck orders oldest first (rows are in creation order), from row `o`. */
  function StuckFrom(db: Db, o: nat): (s: seq<Id>)
    requires o <= |db.orders|
    ensures forall x: Id :: x in s <==> o <= x < |db.orders| && StuckOrder(db, x)
    ensures forall i, j :: 0 <= i < j < |s| ==> s[i] < s[j]
    decreases |db.orders| - o
  {
    if o == |db.orders| then []
    else
      var rest := StuckFrom(db, o + 1);
      assert forall i :: 0 <= i < |rest| ==> rest[i] in rest;
      if StuckOrder(db, o) then [o] + rest else rest
  }

  /** The order in which the finalization backlog is read: confirmedAt, then id. */
  predicate ConfirmedBefore(db: Db, a: Id, b: Id) {
    if a < |db.attempts| && b < |db.attempts| && db.attempts[a].confirmedAt.Some? && db.attempts[b].confirmedAt.Some?
       && db.attempts[a].confirmedAt.value != db.attempts[b].confirmedAt.value
    then db.attempts[a].confirmedAt.value < db.attempts[b].confirmedAt.value
    else a < b
  }

  predicate Confirmed(db: Db, s: seq<Id>) {
    forall i :: 0 <= i < |s| ==> s[i] < |db.attempts| && db.attempts[s[i]].confirmedAt.Some?
  }

  predicate InReadingOrder(db: Db, s: seq<Id>) {
    forall i, j :: 0 <= i < j < |s| ==> ConfirmedBefore(db, s[i], s[j])
  }

  function InsertInOrder(db: Db, a: Id, s: seq<Id>): (r: seq<Id>)
    requires InReadingOrder(db, s) && Confirmed(db, [a]) && Confirmed(db, s) && a !in s
    ensures InReadingOrder(db, r) && Confirmed(db, r)
    ensures forall x :: x in r <==> x == a || x in s
  {
    if s == [] || ConfirmedBefore(db, a, s[0]) then [a] + s
    else
      var rest := InsertInOrder(db, a, s[1..]);
      assert forall i :: 0 <= i < |rest| ==> rest[i] in rest;
      [s[0]] + rest
  }

  /** The finalization backlog, oldest confirmation first, over the rows before `n`. */
  function UnfinalizedUpTo(db: Db, n: nat): (s: seq<Id>)
    requires n <= |db.attempts|
    requires forall a :: 0 <= a < |db.attempts| && db.attempts[a].status.Succeeded? ==> db.attempts[a].confirmedAt.Some?
    ensures InReadingOrder(db, s) && Confirmed(db, s)
    ensures forall x: Id :: x in s <==> x < n && Unfinalized(db, x)
  {
    if n == 0 then []
    else if Unfinalized(db, n - 1) then InsertInOrder(db, n - 1, UnfinalizedUpTo(db, n - 1))
    else UnfinalizedUpTo(db, n - 1)
  }

  /** The order's most recent FAILED or CANCELLED attempt, searched below row `n`. */
  function LastTerminal(attempts: seq<Attempt>, o: Id, n: nat): (r: Option<Id>)
    requires n <= |attempts|
    ensures r.Some? ==> r.value < n && attempts[r.value].order == o && Terminal(attempts[r.value].status)
    ensures r.Some? ==> forall a :: r.value < a < n && attempts[a].order == o ==> !Terminal(attempts[a].status)
    ensures r.None? ==> forall a :: 0 <= a < n && attempts[a].order == o ==> !Terminal(attempts[a].status)
  {
    if n == 0 then None
    else if attempts[n - 1].order == o && Terminal(attempts[n - 1].status) then Some(n - 1)
    else LastTerminal(attempts, o, n - 1)
  }

  datatype BacklogItem = BacklogItem(attempt: Id, order: Id)

  // ---- reopening ----

  /** One stuck order is reopened: it leaves the backlog, nothing else enters or leaves it. */
  lemma ReopenShrinks(db: Db, a: Id)
    requires Inv(db) && a < |db.attempts| && Terminal(db.attempts[a].status) && StuckOrder(db, db.attempts[a].order)
    ensures Reopen(db, a).1 == Reopened
    ensures Inv(Reopen(db, a).0)
    ensures Reopen(db, a).0.attempts == db.attempts
    ensures StuckOrders(Reopen(db, a).0) == StuckOrders(db) - {db.attempts[a].order}
    ensures Reopen(db, a).0 == db.(orders := Reopen(db, a).0.orders)
    ensures RowBecomes(db.orders, Reopen(db, a).0.orders, db.attempts[a].order,
                       db.orders[db.attempts[a].order].(status := OrderCreated))
  {
    InvKeys(db);
    KeepReopen(db, a);
    hide Inv;
    StuckReopens(db, a);
    hide Reopen, RowBecomes;
    OneLessStuck(db, Reopen(db, a).0, db.attempts[a].order);
  }

  lemma StuckReopens(db: Db, a: Id)
    requires ForeignKeys(db) && a < |db.attempts| && Terminal(db.attempts[a].status) && StuckOrder(db, db.attempts[a].order)
    ensures Reopen(db, a).1 == Reopened
    ensures Reopen(db, a).0 == db.(orders := Reopen(db, a).0.orders)
    ensures var o := db.attempts[a].order;
            && Reopen(db, a).0.orders == db.orders[o := db.orders[o].(status := OrderCreated)]
            && RowBecomes(db.orders, Reopen(db, a).0.orders, o, db.orders[o].(status := OrderCreated))
  {
    hide HasStatus;
  }

  lemma OneLessStuck(db: Db, db': Db, o: Id)
    requires o < |db.orders| && db'.attempts == db.attempts
    requires db'.orders == db.orders[o := db.orders[o].(status := OrderCreated)]
    ensures StuckOrders(db') == StuckOrders(db) - {o}
  {
    hide HasStatus;
    forall x ensures StuckOrder(db', x) <==> StuckOrder(db, x) && x != o {}
  }

  /** The item names the latest FAILED or CANCELLED attempt of its order. */
  predicate NamesLatest(attempts: seq<Attempt>, item: BacklogItem) {
    && item.attempt < |attempts| && attempts[item.attempt].order == item.order && Terminal(attempts[item.attempt].status)
    && forall a :: item.attempt < a < |attempts| && attempts[a].order == item.order ==> !Terminal(attempts[a].status)
  }

  predicate ReopenPage(db: Db, items: seq<BacklogItem>) {
    && (forall i :: 0 <= i < |items| ==> NamesLatest(db.attempts, items[i]) && StuckOrder(db, items[i].order))
    && (forall i, j :: 0 <= i < j < |items| ==> items[i].order < items[j].order)
  }

  /** src/payments/payment-reopen-recovery.repository.ts:42-72: the oldest stuck orders, each with its latest terminal attempt. */
  method ReopenBacklogItems(tx: PaymentTables, limit: nat) returns (items: seq<BacklogItem>)
    ensures ReopenPage(tx.State(), items)
    ensures |items| == Min(|StuckOrders(tx.State())|, limit)
    ensures forall i :: 0 <= i < |items| ==> i < |StuckFrom(tx.State(), 0)| && items[i].order == StuckFrom(tx.State(), 0)[i]
  {
    hide HasStatus, StuckOrder, StuckFrom, LastTerminal;
    ghost var db := tx.State();
    var orders := StuckFrom(tx.State(), 0);
    StuckPage(db);
    DistinctSize(orders);
    var n := Min(|orders|, limit);
    items := [];
    for i := 0 to n
      invariant |items| == i
      invariant forall j :: 0 <= j < i ==>
                  items[j].order == orders[j] && NamesLatest(db.attempts, items[j])
    {
      assert orders[i] in orders;
      TerminalExists(db, orders[i]);
      var last := LastTerminal(tx.attempts, orders[i], |tx.attempts|);
      items := items + [BacklogItem(last.value, orders[i])];
    }
    assert forall j :: 0 <= j < n ==> orders[j] in orders;
  }

  lemma StuckPage(db: Db)
    ensures Elements(StuckFrom(db, 0)) == StuckOrders(db)
  {
    hide StuckOrder;
    var orders := StuckFrom(db, 0);
    forall x | x in Elements(orders) ensures x in StuckOrders(db) {
      assert x in orders;
    }
    forall x | x in StuckOrders(db) ensures x in Elements(orders) {
      assert x in orders;
    }
  }

  lemma TerminalExists(db: Db, o: Id)
    requires StuckOrder(db, o)
    ensures LastTerminal(db.attempts, o, |db.attempts|).Some?
  {
  }

  datatype ReopenSummary = ReopenSummary(scanned: nat, reopened: nat, other: nat)

  /** src/payments/payment-reopen-recovery.service.ts:67-73, the pass undisturbed by other transactions. */
  method ReconcileReopen(tx: PaymentTables, limit: Option<int>) returns (summary: ReopenSummary)
    requires Inv(tx.State())
    modifies tx
    ensures Inv(tx.State())
    ensures summary == ReopenSummary(summary.scanned, summary.scanned, 0)
    ensures summary.scanned == Min(|StuckOrders(old(tx.State()))|, ClampLimit(limit))
    ensures |StuckOrders(tx.State())| == |StuckOrders(old(tx.State()))| - summary.reopened
    ensures forall o :: o in StuckOrders(tx.State()) <==>
              o in StuckOrders(old(tx.State())) && |StuckBefore(old(tx.State()), o)| >= ClampLimit(limit)
    ensures tx.State() == old(tx.State()).(orders := tx.orders) && |tx.orders| == |old(tx.orders)|
    ensures forall o :: 0 <= o < |tx.orders| ==>
              tx.orders[o] == if o in StuckOrders(old(tx.State())) && |StuckBefore(old(tx.State()), o)| < ClampLimit(limit)
                              then old(tx.orders)[o].(status := OrderCreated) else old(tx.orders)[o]
  {
    hide Inv, StuckOrder, ReopenedFirst, StuckOrders, StuckBefore, Reopen, ReopenPage, RowBecomes;
    ghost var was := tx.State();
    ghost var all := StuckFrom(was, 0);
    var items := ReopenBacklogItems(tx, ClampLimit(limit));
    StuckPage(was);
    DistinctSize(all);
    hide StuckFrom;
    NoneReopened(was, all);
    var reopened, other := 0, 0;
    for i := 0 to |items|
      invariant Inv(tx.State())
      invariant reopened == i && other == 0
      invariant ReopenPage(tx.State(), items[i..])
      invariant |StuckOrders(tx.State())| == |StuckOrders(was)| - i
      invariant ReopenedFirst(was, tx.State(), all, i)
    {
      PageStep(tx.State(), items[i..]);
      ghost var before := tx.State();
      var a := items[i].attempt;
      assert items[i..][0] == items[i] && items[i..][1..] == items[i + 1..];
      var r := ReopenOrder(tx, a);
      StuckMember(before, items[i].order);
      ReopenedNext(was, before, tx.State(), all, i);
      if r == Reopened { reopened := reopened + 1; } else { other := other + 1; }
    }
    summary := ReopenSummary(|items|, reopened, other);
    OldestReopened(was, tx.State(), all, |items|, ClampLimit(limit));
  }

  /** The first `i` orders of the backlog `all` are reopened; nothing else changed. */
  ghost predicate ReopenedFirst(was: Db, now: Db, all: seq<Id>, i: nat)
    requires i <= |all|
  {
    && (forall o :: o in StuckOrders(now) <==> o in all[i..])
    && now == was.(orders := now.orders) && |now.orders| == |was.orders|
    && forall o :: 0 <= o < |now.orders| ==>
         now.orders[o] == if o in all[..i] then was.orders[o].(status := OrderCreated) else was.orders[o]
  }

  lemma NoneReopened(was: Db, all: seq<Id>)
    requires Elements(all) == StuckOrders(was)
    ensures ReopenedFirst(was, was, all, 0)
  {
    hide StuckOrder;
    assert all[0..] == all;
    forall o ensures o in StuckOrders(was) <==> o in all {
      assert o in Elements(all) <==> o in all;
    }
  }

  lemma ReopenedNext(was: Db, now: Db, now': Db, all: seq<Id>, i: nat)
    requires i < |all| && Distinct(all) && ReopenedFirst(was, now, all, i)
    requires StuckOrders(now') == StuckOrders(now) - {all[i]} && now' == now.(orders := now'.orders)
    requires all[i] < |now.orders|
             && RowBecomes(now.orders, now'.orders, all[i], now.orders[all[i]].(status := OrderCreated))
    ensures ReopenedFirst(was, now', all, i + 1)
  {
    hide StuckOrders;
    assert all[i..] == [all[i]] + all[i + 1..] && all[..i + 1] == all[..i] + [all[i]];
    assert all[i] !in all[i + 1..] && all[i] !in all[..i];
  }

  /** The first orders of the backlog are those with fewer older ones than the page has places. */
  lemma OldestReopened(db: Db, now: Db, all: seq<Id>, n: nat, limit: nat)
    requires n <= |all| && n == Min(|all|, limit) && Elements(all) == StuckOrders(db) && ReopenedFirst(db, now, all, n)
    requires forall i, j :: 0 <= i < j < |all| ==> all[i] < all[j]
    ensures forall o :: o in StuckOrders(now) <==> o in StuckOrders(db) && |StuckBefore(db, o)| >= limit
    ensures now == db.(orders := now.orders) && |now.orders| == |db.orders|
    ensures forall o :: 0 <= o < |now.orders| ==>
              now.orders[o] == if o in StuckOrders(db) && |StuckBefore(db, o)| < limit
                               then db.orders[o].(status := OrderCreated) else db.orders[o]
  {
    hide StuckOrders;
    forall o ensures o in StuckOrders(db) <==> o in all {
      assert o in Elements(all) <==> o in all;
    }
    forall k | 0 <= k < |all| ensures |StuckBefore(db, all[k])| == k {
      forall x ensures x in StuckBefore(db, all[k]) <==> x in all[..k] {
        if x in StuckBefore(db, all[k]) {
          assert x in all;
        }
      }
      RankInList(all, k, StuckBefore(db, all[k]));
    }
    hide StuckBefore;
  }

  lemma StuckMember(db: Db, o: Id)
    requires StuckOrder(db, o)
    ensures o in StuckOrders(db)
    ensures |StuckOrders(db) - {o}| == |StuckOrders(db)| - 1
  {
  }

  /** Reopening the first order of a page leaves the rest a page. */
  lemma PageStep(db: Db, items: seq<BacklogItem>)
    requires Inv(db) && |items| > 0 && ReopenPage(db, items)
    ensures ForeignKeys(db) && StuckOrder(db, items[0].order) && items[0].order < |db.orders|
    ensures var (db', r) := Reopen(db, items[0].attempt);
            && r == Reopened && Inv(db') && ReopenPage(db', items[1..])
            && StuckOrders(db') == StuckOrders(db) - {items[0].order}
            && db' == db.(orders := db'.orders)
            && RowBecomes(db.orders, db'.orders, items[0].order, db.orders[items[0].order].(status := OrderCreated))
  {
    InvKeys(db);
    assert NamesLatest(db.attempts, items[0]) && StuckOrder(db, items[0].order);
    hide Inv, Reopen, StuckOrder, StuckOrders, RowBecomes, ReopenPage;
    ReopenShrinks(db, items[0].attempt);
    RestIsPage(db, Reopen(db, items[0].attempt).0, items);
  }

  lemma RestIsPage(db: Db, db': Db, items: seq<BacklogItem>)
    requires |items| > 0 && ReopenPage(db, items) && db'.attempts == db.attempts
    requires StuckOrders(db') == StuckOrders(db) - {items[0].order}
    ensures ReopenPage(db', items[1..])
  {
    hide StuckOrder, StuckOrders, NamesLatest;
    forall i | 1 <= i < |items| ensures StuckOrder(db', items[i].order) {
      StuckMember(db, items[i].order);
      MemberIsStuck(db', items[i].order);
    }
  }

  lemma MemberIsStuck(db: Db, o: Id)
    requires o in StuckOrders(db)
    ensures StuckOrder(db, o)
  {
  }

  // ---- finalizing ----

  lemma PaidLeaves(db: Db, db': Db, a: Id)
    requires Inv(db) && Unfinalized(db, a) && db'.attempts == db.attempts
    requires var o := db.attempts[a].order; db'.orders == db.orders[o := db.orders[o].(status := OrderPaid)]
    ensures UnfinalizedAttempts(db') == UnfinalizedAttempts(db) - {a}
  {
    hide Inv;
    forall b: Id ensures Unfinalized(db', b) <==> Unfinalized(db, b) && b != a {
      if Unfinalized(db, b) && db.attempts[b].order == db.attempts[a].order {
        SameOrderSameAttempt(db, a, b);
      }
    }
  }

  /** What finalizing one backlog item does: it leaves the backlog, or the whole state stays as it was. */
  lemma FinalizeShrinks(db: Db, a: Id)
    requires Inv(db) && Unfinalized(db, a)
    ensures ForeignKeys(db) && Inv(Finalize(db, a).0)
    ensures var (db', r) := Finalize(db, a);
            || (r.Finalized? && !r.replay && UnfinalizedAttempts(db') == UnfinalizedAttempts(db) - {a})
            || (r == FinalizeFailed(PurchaseActiveConflict) && db' == db)
  {
    hide PricesOk, OrdersOk, AttemptsOk, ExternalIdsOk, LogOk, DiscountsOk, RedeemsOk, LedgerOk, SubsOk, CyclesOk;
    hide CommitFinalization, DiscountProvenance, PriceConsistent, UnfinalizedAttempts;
    KeepFinalize(db, a);
    PendingPasses(db, a);
    CommittedRows(db, a);
    PaidLeaves(db, CommitFinalization(db, a), a);
  }

  lemma SameOrderSameAttempt(db: Db, a: Id, b: Id)
    requires Inv(db) && Unfinalized(db, a) && Unfinalized(db, b) && db.attempts[a].order == db.attempts[b].order
    ensures a == b
  {
    hide PricesOk, OrdersOk, ExternalIdsOk, LogOk, DiscountsOk, RedeemsOk, LedgerOk, SubsOk, CyclesOk;
  }

  predicate FinalizePage(db: Db, items: seq<Id>) {
    && (forall i :: 0 <= i < |items| ==> Unfinalized(db, items[i]))
    && Distinct(items)
  }

  lemma UnfinalizedPage(db: Db)
    requires Inv(db)
    ensures forall a :: 0 <= a < |db.attempts| && db.attempts[a].status.Succeeded? ==> db.attempts[a].confirmedAt.Some?
    ensures Elements(UnfinalizedUpTo(db, |db.attempts|)) == UnfinalizedAttempts(db)
    ensures FinalizePage(db, UnfinalizedUpTo(db, |db.attempts|))
  {
    hide PricesOk, OrdersOk, ExternalIdsOk, LogOk, DiscountsOk, RedeemsOk, LedgerOk, SubsOk, CyclesOk;
    assert forall a :: 0 <= a < |db.attempts| ==> AttemptOk(db.orders, db.attempts[a]);
    hide Unfinalized, AttemptsOk;
    var items := UnfinalizedUpTo(db, |db.attempts|);
    forall x | x in Elements(items) ensures x in UnfinalizedAttempts(db) {
      assert x in items;
    }
    forall x | x in UnfinalizedAttempts(db) ensures x in Elements(items) {
      assert x in items;
    }
    assert forall i :: 0 <= i < |items| ==> items[i] in items;
  }

  datatype FinalizeSummary = FinalizeSummary(scanned: nat, finalized: nat, alreadyFinalized: nat, blocked: nat, failed: nat)

  /** Working off the first item of a page leaves the rest a page, and the backlog one smaller exactly when it finalized. */
  lemma InBacklog(db: Db, a: Id)
    requires Unfinalized(db, a)
    ensures a in UnfinalizedAttempts(db)
  {
  }

  lemma RestOfPage(db: Db, db': Db, items: seq<Id>)
    requires |items| > 0 && FinalizePage(db, items)
    requires db' == db || UnfinalizedAttempts(db') == UnfinalizedAttempts(db) - {items[0]}
    ensures FinalizePage(db', items[1..])
  {
    hide Unfinalized;
    forall i | 1 <= i < |items| ensures Unfinalized(db', items[i]) {
      InBacklog(db, items[i]);
      assert items[i] in UnfinalizedAttempts(db');
    }
  }

  lemma FinalizePageStep(db: Db, items: seq<Id>)
    requires Inv(db) && |items| > 0 && FinalizePage(db, items)
    ensures ForeignKeys(db)
    ensures var (db', r) := Finalize(db, items[0]);
            && Inv(db') && FinalizePage(db', items[1..])
            && (r.Finalized? || r == FinalizeFailed(PurchaseActiveConflict))
            && (r.Finalized? ==> !r.replay)
            && |UnfinalizedAttempts(db')| == |UnfinalizedAttempts(db)| - (if r.Finalized? then 1 else 0)
            && UnfinalizedAttempts(db') == UnfinalizedAttempts(db) - (if r.Finalized? then {items[0]} else {})
            && SameBuyers(db, db') && (!r.Finalized? ==> HasActiveSub(db.subs, BuyerOf(db, items[0])))
  {
    InvKeys(db);
    assert Unfinalized(db, items[0]);
    BuyersStay(db, items[0]);
    hide Inv, Finalize, FinalizePage, Unfinalized;
    FinalizeShrinks(db, items[0]);
    assert items[0] in UnfinalizedAttempts(db) by {
      InBacklog(db, items[0]);
    }
    hide UnfinalizedAttempts, SameBuyers, BuyerOf, HasActiveSub;
    RestOfPage(db, Finalize(db, items[0]).0, items);
  }

  function BuyerOf(db: Db, a: Id): Id {
    if a < |db.attempts| && db.attempts[a].order < |db.orders| then db.orders[db.attempts[a].order].user else 0
  }

  /** The attempts and the buyers stay, and nobody loses an ACTIVE subscription. */
  ghost predicate SameBuyers(db: Db, db': Db) {
    && db'.attempts == db.attempts && (forall a: Id :: BuyerOf(db', a) == BuyerOf(db, a))
    && forall u: Id :: HasActiveSub(db.subs, u) ==> HasActiveSub(db'.subs, u)
  }

  lemma BuyersStay(db: Db, a: Id)
    requires Inv(db)
    ensures ForeignKeys(db)
    ensures SameBuyers(db, Finalize(db, a).0)
    ensures Finalize(db, a).1 == FinalizeFailed(PurchaseActiveConflict) ==> HasActiveSub(db.subs, BuyerOf(db, a))
  {
    InvKeys(db);
    assert SubsOk(db.subs);
    hide Inv, Finalize, SubsOk, HasActiveSub, ForeignKeys, SameBuyers;
    if Commits(db, a) {
      CommitRows(db, a);
      BuyersAfterCommit(db, a);
    } else {
      FinalizeAnswers(db, a);
      SameBuyersHere(db);
    }
  }

  lemma SameBuyersHere(db: Db)
    ensures SameBuyers(db, db)
  {
  }

  lemma BuyersAfterCommit(db: Db, a: Id)
    requires ForeignKeys(db) && a < |db.attempts| && db.attempts[a].confirmedAt.Some?
    requires PriceConsistent(db, db.orders[db.attempts[a].order])
    requires var found := FindNonterminal(db.subs, db.orders[db.attempts[a].order].user);
             found.Some? ==> !db.subs[found.value].status.SubActive?
    ensures SameBuyers(db, CommitFinalization(db, a))
  {
    CommittedRows(db, a);
    var order := db.orders[db.attempts[a].order];
    Activated(db, order.user, order.plan, db.attempts[a].confirmedAt.value);
    hide CommitFinalization, ActivateSub, TargetSub, NewCycle, PriceConsistent, IsOpen, FindNonterminal, ConsumeDiscount, HasActiveSub;
    forall u: Id | HasActiveSub(db.subs, u) ensures HasActiveSub(CommitFinalization(db, a).subs, u) {
      ActiveStays(db.subs, CommitFinalization(db, a).subs, TargetSub(db, order.user), u);
    }
  }

  lemma ActiveStays(subs: seq<Sub>, subs': seq<Sub>, s: Id, u: Id)
    requires HasActiveSub(subs, u) && |subs| <= |subs'| && s < |subs'| && (s < |subs| ==> !subs[s].status.SubActive?)
    requires forall t :: 0 <= t < |subs| && t != s ==> subs'[t] == subs[t]
    ensures HasActiveSub(subs', u)
  {
    var t :| 0 <= t < |subs| && subs[t].user == u && subs[t].status.SubActive?;
    assert subs'[t].user == u;
  }

  /** After `i` items of the page: only these left the backlog, and one still there is blocked by an ACTIVE subscription. */
  ghost predicate WorkedFirst(was: Db, now: Db, page: seq<Id>, i: nat)
    requires i <= |page|
  {
    && SameBuyers(was, now) && UnfinalizedAttempts(now) <= UnfinalizedAttempts(was)
    && (forall a :: a in UnfinalizedAttempts(was) && a !in UnfinalizedAttempts(now) ==> a in page[..i])
    && (forall a :: a in page[..i] && a in UnfinalizedAttempts(now) ==> HasActiveSub(now.subs, BuyerOf(was, a)))
  }

  lemma NoneWorked(was: Db, page: seq<Id>)
    ensures WorkedFirst(was, was, page, 0)
  {
  }

  lemma WorkedNext(was: Db, now: Db, now': Db, page: seq<Id>, i: nat, done: bool)
    requires i < |page| && WorkedFirst(was, now, page, i) && SameBuyers(now, now')
    requires UnfinalizedAttempts(now') == UnfinalizedAttempts(now) - (if done then {page[i]} else {})
    requires !done ==> HasActiveSub(now.subs, BuyerOf(now, page[i]))
    ensures WorkedFirst(was, now', page, i + 1)
  {
    hide UnfinalizedAttempts, HasActiveSub, BuyerOf;
    assert page[..i + 1] == page[..i] + [page[i]];
  }

  /** The first items of the page are those with fewer waiting before them than the page has places. */
  lemma OldestWorked(was: Db, now: Db, page: seq<Id>, n: nat, limit: nat)
    requires Confirmed(was, page) && InReadingOrder(was, page) && Distinct(page) && Elements(page) == UnfinalizedAttempts(was)
    requires n == Min(|page|, limit) && WorkedFirst(was, now, page, n)
    ensures forall a :: a in UnfinalizedAttempts(was) ==>
              && a < |was.attempts| && was.attempts[a].confirmedAt.Some? && was.attempts[a].order < |was.orders|
              && (a !in UnfinalizedAttempts(now) ==> |WaitingBefore(was, a)| < limit)
              && (|WaitingBefore(was, a)| < limit && a in UnfinalizedAttempts(now)
                  ==> HasActiveSub(now.subs, was.orders[was.attempts[a].order].user))
  {
    hide HasActiveSub, SameBuyers;
    forall a | a in UnfinalizedAttempts(was)
      ensures && a < |was.attempts| && was.attempts[a].confirmedAt.Some? && was.attempts[a].order < |was.orders|
              && (a !in UnfinalizedAttempts(now) ==> |WaitingBefore(was, a)| < limit)
              && (|WaitingBefore(was, a)| < limit && a in UnfinalizedAttempts(now)
                  ==> HasActiveSub(now.subs, was.orders[was.attempts[a].order].user))
    {
      assert a in Elements(page);
      var k :| 0 <= k < |page| && page[k] == a;
      WaitingRank(was, page, k);
    }
  }

  lemma WaitingRank(db: Db, page: seq<Id>, k: nat)
    requires Confirmed(db, page) && InReadingOrder(db, page) && Distinct(page) && Elements(page) == UnfinalizedAttempts(db)
    requires k < |page|
    ensures |WaitingBefore(db, page[k])| == k
  {
    hide UnfinalizedAttempts;
    forall x ensures x in WaitingBefore(db, page[k]) <==> x in page[..k] {
      if x in WaitingBefore(db, page[k]) {
        assert x in Elements(page);
        var j :| 0 <= j < |page| && page[j] == x;
        assert j < k;
      }
      if x in page[..k] {
        var j :| 0 <= j < k && page[j] == x;
        assert x in Elements(page);
        assert ConfirmedBefore(db, page[j], page[k]);
      }
    }
    RankInList(page, k, WaitingBefore(db, page[k]));
  }

  /** src/payments/payment-finalization-recovery.service.ts:64-99, the pass undisturbed by other transactions. */
  method ReconcileFinalization(tx: PaymentTables, limit: Option<int>) returns (summary: FinalizeSummary)
    requires Inv(tx.State())
    modifies tx
    ensures Inv(tx.State())
    ensures summary.scanned == Min(|UnfinalizedAttempts(old(tx.State()))|, ClampLimit(limit))
    ensures summary.scanned == summary.finalized + summary.blocked
    ensures summary.alreadyFinalized == 0 && summary.failed == 0
    ensures |UnfinalizedAttempts(tx.State())| == |UnfinalizedAttempts(old(tx.State()))| - summary.finalized
    ensures UnfinalizedAttempts(tx.State()) <= UnfinalizedAttempts(old(tx.State()))
    ensures forall a :: a in UnfinalizedAttempts(old(tx.State())) ==>
              && a < |old(tx.attempts)| && old(tx.attempts)[a].confirmedAt.Some? && old(tx.attempts)[a].order < |old(tx.orders)|
              && (a !in UnfinalizedAttempts(tx.State()) ==> |WaitingBefore(old(tx.State()), a)| < ClampLimit(limit))
              && (|WaitingBefore(old(tx.State()), a)| < ClampLimit(limit) && a in UnfinalizedAttempts(tx.State())
                  ==> HasActiveSub(tx.subs, old(tx.orders)[old(tx.attempts)[a].order].user))
  {
    hide Inv, Unfinalized, Finalize, WorkedFirst, SameBuyers, UnfinalizedAttempts, WaitingBefore, HasActiveSub;
    ghost var was := tx.State();
    UnfinalizedPage(tx.State());
    var page := UnfinalizedUpTo(tx.State(), |tx.attempts|);
    DistinctSize(page);
    var items := page[..Min(|page|, ClampLimit(limit))];
    NoneWorked(was, page);
    assert items[0..] == items && FinalizePage(was, items);
    hide FinalizePage;
    var finalized, alreadyFinalized, blocked, failed := 0, 0, 0, 0;
    for i := 0 to |items|
      invariant Inv(tx.State())
      invariant i == finalized + blocked && alreadyFinalized == 0 && failed == 0
      invariant FinalizePage(tx.State(), items[i..])
      invariant |UnfinalizedAttempts(tx.State())| == |UnfinalizedAttempts(was)| - finalized
      invariant WorkedFirst(was, tx.State(), page, i)
    {
      ghost var before := tx.State();
      FinalizePageStep(before, items[i..]);
      assert items[i..][0] == items[i] && items[i..][1..] == items[i + 1..];
      var r := FinalizePayment(tx, items[i]);
      WorkedNext(was, before, tx.State(), page, i, r.Finalized?);
      match r
      case Finalized(_, _, _, _, _, _, replay) =>
        if replay { alreadyFinalized := alreadyFinalized + 1; } else { finalized := finalized + 1; }
      case FinalizeFailed(error) =>
        if error == PurchaseActiveConflict { blocked := blocked + 1; } else { failed := failed + 1; }
    }
    summary := FinalizeSummary(|items|, finalized, alreadyFinalized, blocked, failed);
    OldestWorked(was, tx.State(), page, |items|, ClampLimit(limit));
    WorkedWithin(was, tx.State(), page, |items|);
  }

  lemma WorkedWithin(was: Db, now: Db, page: seq<Id>, i: nat)
    requires i <= |page| && WorkedFirst(was, now, page, i)
    ensures UnfinalizedAttempts(now) <= UnfinalizedAttempts(was)
  {
  }

  // ---- progress of a buyer's backlog ----

  /** With no ACTIVE subscription in the way, finalizing a backlog item always succeeds. */
  lemma BlockedOnlyByActive(db: Db, a: Id)
    requires Reachable(db) && Unfinalized(db, a)
    ensures ForeignKeys(db)
    ensures Finalize(db, a).1.Finalized? <==> !HasActiveSub(db.subs, db.orders[db.attempts[a].order].user)
  {
    hide Inv, Reachable, Finalize, HasActiveSub;
    FinalizeOutcome(db, a);
  }
}
