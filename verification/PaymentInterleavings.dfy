/**
 Every interleaving of the payment transactions: schedules of any length, over any number of threads, from any tables
 that a run of whole transactions leads to. Each of them is again a run of whole transactions, in the order of their
 commits, so that what is proved of runs holds of interleavings.
 */
module PaymentInterleavings {
  import opened Basics
  import opened PaymentModel
  import opened PaymentSteps
  import opened PaymentInvariants
  import opened PaymentRuns
  import opened PaymentHistory
  import opened PaymentTheorems
  import opened PaymentLocks
  import opened PaymentReads
  import opened PaymentCommits
  import opened PaymentSchedules

  /** One scheduler choice: a thread takes its next step, beginning `begin` when it is idle. */
  datatype Choice = Runs(thread: nat, begin: Tx)

  ghost predicate MayAdvance(s: Sys, i: nat) {
    i < |s.procs| && ForeignKeys(s.db) && Known(s.db, s.procs[i]) && FinReadsFit(s.db, s.procs[i])
  }

  ghost function Perform(s: Sys, c: Choice): Sys {
    if MayAdvance(s, c.thread) then Advance(s, c.thread, c.begin) else s
  }

  ghost function Play(s: Sys, schedule: seq<Choice>): Sys
    decreases |schedule|
  {
    if schedule == [] then s else Perform(Play(s, schedule[..|schedule| - 1]), schedule[|schedule| - 1])
  }

  ghost predicate Boots(s: Sys) {
    Reachable(s.db) && s.locks == map[] && forall i :: 0 <= i < |s.procs| ==> s.procs[i].Idle?
  }

  // ---- every schedule ----

  lemma BootsOk(s: Sys)
    requires Boots(s)
    ensures SysOk(s)
  {
    hide Inv, Reachable, Holds, ProcOk, Held;
    ReachableInv(s.db);
    IdleHoldsNothing(s.db);
    assert forall i :: 0 <= i < |s.procs| ==> s.procs[i] == Idle;
  }

  lemma IdleHoldsNothing(db: Db)
    ensures ProcOk(db, Idle) && forall l :: !Holds(db, Idle, l)
  {
  }

  lemma {:induction false} EverySchedule(s: Sys, schedule: seq<Choice>)
    requires Boots(s)
    ensures SysOk(Play(s, schedule)) && |Play(s, schedule).procs| == |s.procs|
    decreases |schedule|
  {
    if schedule == [] {
      BootsOk(s);
    } else {
      var before, c := Play(s, schedule[..|schedule| - 1]), schedule[|schedule| - 1];
      EverySchedule(s, schedule[..|schedule| - 1]);
      hide SysOk, Advance, Boots;
      if c.thread < |before.procs| {
        KeepAdvance(before, c.thread, c.begin);
      }
    }
  }

  // ---- serializability ----

  /** One step leaves the tables alone or takes them one whole transaction further. */
  lemma PerformIsAStep(s: Sys, c: Choice)
    requires SysOk(s)
    ensures Inv(s.db) && (Perform(s, c).db == s.db || exists step :: Perform(s, c).db == Apply(s.db, step))
  {
    assert Inv(s.db);
    if c.thread < |s.procs| {
      KeepAdvance(s, c.thread, c.begin);
      hide SysOk, Inv, Advance, Apply, MayAdvance;
    }
  }

  /** The transactions of a schedule, in the order of their commits, run one after the other lead to the same tables. */
  lemma {:induction false} EveryScheduleIsARun(s: Sys, schedule: seq<Choice>) returns (steps: seq<Step>)
    requires Boots(s)
    ensures Inv(s.db) && Run(s.db, steps) == Play(s, schedule).db
    decreases |schedule|
  {
    ReachableInv(s.db);
    hide Inv, Reachable, SysOk, Perform, Apply;
    if schedule == [] {
      steps := [];
    } else {
      var rest, c := schedule[..|schedule| - 1], schedule[|schedule| - 1];
      steps := EveryScheduleIsARun(s, rest);
      EverySchedule(s, rest);
      PerformIsAStep(Play(s, rest), c);
      if Play(s, schedule).db != Play(s, rest).db {
        var step :| Play(s, schedule).db == Apply(Play(s, rest).db, step);
        RunAppend(s.db, steps, step);
        steps := steps + [step];
      }
    }
  }

  /** So an interleaving reaches no tables that whole transactions do not reach. */
  lemma EveryScheduleIsReachable(s: Sys, schedule: seq<Choice>)
    requires Boots(s)
    ensures Reachable(Play(s, schedule).db)
  {
    hide Reachable, Play, Run;
    var steps := EveryScheduleIsARun(s, schedule);
    RunReachable(s.db, steps);
  }

  /** Which transaction a commit is: that of the thread, or the logging of a refusal of its callback. */
  lemma EveryCommitIsItsTransaction(s: Sys, schedule: seq<Choice>, n: nat)
    requires Boots(s) && n < |schedule| && schedule[n].thread < |s.procs|
    ensures var before, after := Play(s, schedule[..n]), Play(s, schedule[..n + 1]);
            && |before.procs| == |s.procs| && ForeignKeys(before.db)
            && Commits(before.db, after.db, before.procs[schedule[n].thread])
  {
    assert schedule[..n + 1][..n] == schedule[..n];
    EverySchedule(s, schedule[..n]);
    KeepAdvance(Play(s, schedule[..n]), schedule[n].thread, schedule[n].begin);
    hide SysOk, Advance, Commits, Boots;
  }

  /** What is proved of runs: external ids and decisions, the log, paid orders, cycles and the ledger are never rewritten. */
  lemma {:induction false} EveryScheduleIsLater(s: Sys, schedule: seq<Choice>, n: nat)
    requires Boots(s) && n <= |schedule|
    ensures Later(Play(s, schedule[..n]).db, Play(s, schedule).db)
    decreases |schedule| - n
  {
    if n < |schedule| {
      var now, next := Play(s, schedule[..n]), Play(s, schedule[..n + 1]);
      assert schedule[..n + 1][..n] == schedule[..n];
      EverySchedule(s, schedule[..n]);
      EveryScheduleIsLater(s, schedule, n + 1);
      hide SysOk, Inv, Perform, Later, Apply, Boots;
      assert next == Perform(now, schedule[n]);
      hide Play;
      PerformIsAStep(now, schedule[n]);
      LaterItself(now.db);
      if next.db != now.db {
        var step :| next.db == Apply(now.db, step);
        StepIsLater(now.db, step);
      }
      LaterTrans(now.db, next.db, Play(s, schedule).db);
    } else {
      assert schedule[..n] == schedule;
      LaterItself(Play(s, schedule).db);
    }
  }

  lemma LaterItself(db: Db)
    ensures Later(db, db)
  {
  }

  /** In every interleaving: attempts and orders. */
  lemma SafeInterleavings(s: Sys, schedule: seq<Choice>)
    requires Boots(s)
    ensures var db := Play(s, schedule).db;
            && (forall a, b :: 0 <= a < |db.attempts| && 0 <= b < |db.attempts| && Live(db.attempts[a].status)
                               && Live(db.attempts[b].status) && db.attempts[a].order == db.attempts[b].order
                               ==> a == b)
            && (forall a :: 0 <= a < |db.attempts| && Live(db.attempts[a].status) ==>
                  && db.attempts[a].order < |db.orders|
                  && !db.orders[db.attempts[a].order].status.OrderCreated?
                  && db.attempts[a].amount == db.orders[db.attempts[a].order].payable)
            && (forall o :: 0 <= o < |db.orders| && db.orders[o].status.OrderPaid? ==> HasStatus(db.attempts, o, Succeeded))
  {
    EveryScheduleIsReachable(s, schedule);
    hide Play, Reachable, HasStatus;
    AttemptSafety(Play(s, schedule).db);
  }

  /** In every interleaving: a PAID order has exactly one cycle, and a subscriber one open subscription with cycles 1..n. */
  lemma SafeSubscriptions(s: Sys, schedule: seq<Choice>, o: Id, sub: Id, other: Id)
    requires Boots(s)
    ensures var db := Play(s, schedule).db;
            && (o < |db.orders| ==>
                  (db.orders[o].status.OrderPaid? <==> exists c :: 0 <= c < |db.cycles| && db.cycles[c].order == o))
            && (forall c, d :: 0 <= c < |db.cycles| && 0 <= d < |db.cycles| && db.cycles[c].order == db.cycles[d].order ==> c == d)
            && (sub < |db.subs| && other < |db.subs| && db.subs[sub].user == db.subs[other].user
                && Nonterminal(db.subs[sub].status) && Nonterminal(db.subs[other].status)
                ==> sub == other)
            && (forall k :: 1 <= k <= CyclesOf(db.cycles, sub) ==> Used(SubsOf(db.cycles), SeqNosOf(db.cycles), sub, k))
            && (forall c, d :: 0 <= c < d < |db.cycles| && db.cycles[c].sub == sub && db.cycles[d].sub == sub ==>
                  db.cycles[c].seqNo < db.cycles[d].seqNo)
  {
    EveryScheduleIsReachable(s, schedule);
    var db := Play(s, schedule).db;
    ReachableInv(db);
    hide Play, Reachable, Inv, CyclesOf, Used, SubsOf, SeqNosOf;
    CycleNumbers(db, sub);
    if o < |db.orders| {
      PaidIffOneCycle(db, o);
    }
    forall c, d | 0 <= c < |db.cycles| && 0 <= d < |db.cycles| && db.cycles[c].order == db.cycles[d].order ensures c == d {
      OneCyclePerOrder(db, c, d);
    }
    if sub < |db.subs| && other < |db.subs| && db.subs[sub].user == db.subs[other].user
       && Nonterminal(db.subs[sub].status) && Nonterminal(db.subs[other].status) {
      OneOpenSubscription(db, sub, other);
    }
  }

  /** In every interleaving: each ledger is numbered 1..n with its prefix sums, and APPLIED redemptions are debited once. */
  lemma SafeMoney(s: Sys, schedule: seq<Choice>, user: Id, r: Id)
    requires Boots(s)
    ensures var db := Play(s, schedule).db;
            && (forall n :: 1 <= n <= EntriesOf(db.ledger, user) ==> Used(UsersOf(db.ledger), EntryNosOf(db.ledger), user, n))
            && (forall e :: 0 <= e < |db.ledger| && db.ledger[e].user == user ==>
                  && 1 <= db.ledger[e].entryNo <= EntriesOf(db.ledger, user)
                  && db.ledger[e].balanceAfter == Balance(db.ledger[..e + 1], user))
            && (forall e, f :: 0 <= e < f < |db.ledger| && db.ledger[e].user == user && db.ledger[f].user == user ==>
                  db.ledger[e].entryNo < db.ledger[f].entryNo)
            && (r < |db.redemptions| ==> (db.redemptions[r].status.Applied? <==> HasRedeem(db.ledger, r)))
  {
    EveryScheduleIsReachable(s, schedule);
    hide Play, Reachable, EntriesOf, Used, UsersOf, EntryNosOf, Balance, HasRedeem;
    LedgerNumbered(Play(s, schedule).db, user);
    if r < |Play(s, schedule).db.redemptions| {
      AppliedIffRedeemed(Play(s, schedule).db, r);
    }
  }

  // ---- what a thread has read, at every moment of every schedule ----

  /**
   A guard decided under the pay lock only still decides rightly although initiation runs under another lock: the
   amount guard never fires for a live attempt, the other two never for a PENDING one.
   */
  lemma CallbackGuardsNeverFire(s: Sys, schedule: seq<Choice>, i: nat)
    requires Boots(s) && i < |s.procs|
    ensures |Play(s, schedule).procs| == |s.procs|
    ensures var p := Play(s, schedule).procs[i];
            && ((p.CallOrderRead? || p.CallOthersRead? || p.CallDecided?) && Live(p.pt.status) ==> p.pt.amount == p.order.payable)
            && ((p.CallOrderRead? || p.CallOthersRead? || p.CallDecided?) && p.pt.status.AttemptPending?
                ==> p.order.status.OrderPending?)
            && ((p.CallOthersRead? || p.CallDecided?) && p.pt.status.AttemptPending? ==> !p.other)
  {
    EverySchedule(s, schedule);
    var now := Play(s, schedule);
    var p := now.procs[i];
    assert ProcOk(now.db, p) && AttemptsOk(now.db.orders, now.db.attempts) && OrdersOk(now.db.prices, now.db.orders);
    hide Play, LocksOk, Inv;
    if p.CallOrderRead? || p.CallOthersRead? || p.CallDecided? {
      LiveAttempt(now.db, p.tx.event.attempt);
    }
    hide AttemptsOk, OrdersOk, OtherSucceeded, BroughtIsTaken;
  }

  /**
   A callback that has decided commits what the whole transaction would commit now, exactly unless it refuses a success
   of a terminal attempt for an amount overtaken since, or is about to meet the unique index of external ids.
   */
  lemma DecisionIsCurrent(s: Sys, schedule: seq<Choice>, i: nat)
    requires Boots(s) && i < |s.procs|
    ensures |Play(s, schedule).procs| == |s.procs|
    ensures var now := Play(s, schedule); var p := now.procs[i];
            p.CallDecided? ==>
              && Known(now.db, p)
              && var verdict := Decision(p.tx, p.pt, p.order, p.other, p.taken);
              && (verdict == DecisionNow(now.db, p.tx)
                  <==> !Overtaken(now.db, p) && !(verdict.Accept? && AcceptConflicts(now.db, p.tx, p.pt)))
              && (Overtaken(now.db, p) ==> verdict.Reject? && DecisionNow(now.db, p.tx).Reject?)
  {
    EverySchedule(s, schedule);
    var now := Play(s, schedule);
    var p := now.procs[i];
    assert ProcOk(now.db, p) && Inv(now.db);
    hide Play, LocksOk, Inv, Decision, DecisionNow, AcceptConflicts, ReadsOk, TxOk, Overtaken;
    if p.CallDecided? {
      DecisionHolds(now.db, p);
    }
  }

  /** The insert of an initiation meets neither unique index, and its price is still the order's. */
  lemma InitiationNeverCollides(s: Sys, schedule: seq<Choice>, i: nat)
    requires Boots(s) && i < |s.procs|
    ensures |Play(s, schedule).procs| == |s.procs|
    ensures var now := Play(s, schedule); var p := now.procs[i];
            p.InitBacked? ==>
              && p.tx.TxInitiate? && p.tx.order < |now.db.orders| && now.db.orders[p.tx.order] == p.order
              && p.order.status.OrderCreated?
              && FindRequest(now.db.attempts, p.tx.order, p.tx.request).None?
              && !HasStatus(now.db.attempts, p.tx.order, AttemptPending)
  {
    EverySchedule(s, schedule);
    var now := Play(s, schedule);
    var p := now.procs[i];
    assert ProcOk(now.db, p) && Inv(now.db);
    hide Play, LocksOk, Inv, HasStatus, FindRequest, CommittedDiscountOk, Expired;
    if p.InitBacked? {
      InitCommit(now.db, p);
    }
  }

  /**
   Finalization chose its locks from a read made before it held any: while its attempt is live that read still tells
   whether the order is discounted. When it commits, every guard it passed would pass now, and what it writes is the
   whole transaction.
   */
  lemma FinalizationIsCurrent(s: Sys, schedule: seq<Choice>, i: nat)
    requires Boots(s) && i < |s.procs|
    ensures |Play(s, schedule).procs| == |s.procs|
    ensures var now := Play(s, schedule); var p := now.procs[i];
            && Known(now.db, p) && ForeignKeys(now.db)
            && (!p.Idle? && p.tx.TxFinalize? && Live(now.db.attempts[p.tx.attempt].status)
                ==> p.tx.discounted == now.db.orders[OrderOf(now.db, p.tx.attempt)].redemption.Some?)
            && (p.FinPosted? ==>
                  && Finalizable(now.db, p.tx.attempt) && FinReadsFit(now.db, p)
                  && FinWrite(now.db, p) == Finalize(now.db, p.tx.attempt).0)
  {
    EverySchedule(s, schedule);
    var now := Play(s, schedule);
    var p := now.procs[i];
    assert ProcOk(now.db, p) && Inv(now.db) && ForeignKeys(now.db);
    if p.FinPosted? {
      assert FinRowsOk(now.db, p) && FinDiscountOk(now.db, p) && FinSubOk(now.db, p) && FinLedgerOk(now.db, p);
      hide *;
      FinPasses(now.db, p);
      FinWritesAll(now.db, p);
    }
    hide Play, LocksOk, Inv, ReadsOk, ForeignKeys, Finalizable, FinReadsFit, FinWrite, Finalize;
  }

  /** A reopening that decided to reopen still finds no live attempt, whatever ran since its reads. */
  lemma ReopenIsSafe(s: Sys, schedule: seq<Choice>, i: nat)
    requires Boots(s) && i < |s.procs|
    ensures |Play(s, schedule).procs| == |s.procs|
    ensures var now := Play(s, schedule); var p := now.procs[i];
            p.ReopenDeciding? && ReopenDecision(p.status, p.pending, p.succeeded).Reopened? ==>
              && Known(now.db, p) && now.db.orders[OrderOf(now.db, p.tx.attempt)].status.OrderPending?
              && !HasStatus(now.db.attempts, OrderOf(now.db, p.tx.attempt), AttemptPending)
              && !HasStatus(now.db.attempts, OrderOf(now.db, p.tx.attempt), Succeeded)
  {
    EverySchedule(s, schedule);
    var now := Play(s, schedule);
    assert ProcOk(now.db, now.procs[i]);
    hide Play, LocksOk, Inv, HasStatus;
  }

  // ---- an order read CREATED by a reopening ----

  /**
   While a reopening that read its order CREATED goes on to count the PENDING attempts, there is one exactly when an
   initiation has moved the order to PENDING since; a SUCCEEDED attempt there is none.
   */
  lemma CreatedWithPendingExactly(s: Sys, schedule: seq<Choice>, i: nat)
    requires Boots(s) && i < |s.procs|
    ensures |Play(s, schedule).procs| == |s.procs|
    ensures var now := Play(s, schedule); var p := now.procs[i];
            (p.ReopenOrderRead? || p.ReopenPendingRead?) && p.status.OrderCreated? ==>
              && Known(now.db, p)
              && var o := OrderOf(now.db, p.tx.attempt);
              && (HasStatus(now.db.attempts, o, AttemptPending) <==> now.db.orders[o].status.OrderPending?)
              && !HasStatus(now.db.attempts, o, Succeeded)
  {
    EverySchedule(s, schedule);
    var now := Play(s, schedule);
    var p := now.procs[i];
    assert ProcOk(now.db, p) && AttemptsOk(now.db.orders, now.db.attempts);
    hide Play, LocksOk, Inv, HasStatus, AttemptsOk;
    if (p.ReopenOrderRead? || p.ReopenPendingRead?) && p.status.OrderCreated? {
      RetriedHasNoSuccess(now.db, OrderOf(now.db, p.tx.attempt));
    }
  }

  /** What it then answers depends on that count alone: the order is already reopened, or the two reads disagree. */
  lemma AnswerAfterCreated(s: Sys, schedule: seq<Choice>, i: nat)
    requires Boots(s) && i < |s.procs|
    ensures |Play(s, schedule).procs| == |s.procs|
    ensures var p := Play(s, schedule).procs[i];
            p.ReopenDeciding? && p.status.OrderCreated?
            ==> ReopenDecision(p.status, p.pending, p.succeeded)
                == if p.pending then NotReopenable("INTEGRITY_CREATED_WITH_PENDING") else AlreadyReopened
  {
    EverySchedule(s, schedule);
    var now := Play(s, schedule);
    assert ProcOk(now.db, now.procs[i]);
    hide Play, LocksOk, Inv, HasStatus;
  }

  /** From the moment a reopening has read its order CREATED until it ends, none of its steps changes a row. */
  lemma CreatedReopensNothing(s: Sys, schedule: seq<Choice>, i: nat, begin: Tx)
    requires Boots(s) && i < |s.procs|
    ensures |Play(s, schedule).procs| == |s.procs|
    ensures var now := Play(s, schedule); var p := now.procs[i];
            (p.ReopenOrderRead? || p.ReopenPendingRead? || p.ReopenDeciding?) && p.status.OrderCreated? ==>
              var next := Perform(now, Runs(i, begin));
              && next.db == now.db && |next.procs| == |now.procs|
              && var q := next.procs[i];
                 q.Idle? || ((q.ReopenPendingRead? || q.ReopenDeciding?) && q.status.OrderCreated?)
  {
    EverySchedule(s, schedule);
    var now := Play(s, schedule);
    CanAdvance(now, i);
    AnswerAfterCreated(s, schedule, i);
    var p := now.procs[i];
    hide Play, SysOk, HasStatus, ForeignKeys, Boots, Perform, ReopenDecision, FinReadsFit, Known;
    if (p.ReopenOrderRead? || p.ReopenPendingRead? || p.ReopenDeciding?) && p.status.OrderCreated? {
      CreatedOnlyReads(now, i, begin);
    }
  }

  lemma CreatedOnlyReads(s: Sys, i: nat, begin: Tx)
    requires MayAdvance(s, i) && (s.procs[i].ReopenOrderRead? || s.procs[i].ReopenPendingRead? || s.procs[i].ReopenDeciding?)
    requires s.procs[i].status.OrderCreated?
    requires s.procs[i].ReopenDeciding?
             ==> !ReopenDecision(s.procs[i].status, s.procs[i].pending, s.procs[i].succeeded).Reopened?
    ensures var next := Perform(s, Runs(i, begin));
            && next.db == s.db && |next.procs| == |s.procs|
            && var q := next.procs[i];
               q.Idle? || ((q.ReopenPendingRead? || q.ReopenDeciding?) && q.status.OrderCreated?)
  {
    assert Perform(s, Runs(i, begin)) == ReopenNext(s, i);
    hide Perform, ForeignKeys, FinReadsFit, HasStatus, ReopenDecision;
  }

  // ---- no deadlock ----

  /** The lock a waiting thread needs. */
  function Wanted(db: Db, p: Proc): Option<Lock>
    requires Known(db, p)
  {
    if p.Taking? && p.n < |LocksOf(db, p.tx)| then Some(LocksOf(db, p.tx)[p.n]) else None
  }

  ghost predicate Blocked(s: Sys, i: nat)
    requires MayAdvance(s, i)
  {
    var l := Wanted(s.db, s.procs[i]);
    l.Some? && l.value in s.locks
  }

  function Rank(l: Lock): nat {
    match l
    case SubLock(_) => 0
    case PayLock(_) => 1
    case IzlLock(_) => 2
  }

  /** Locks are taken in the order sub, pay, izl. */
  lemma TakenInOrder(db: Db, p: Proc, l: Lock)
    requires Known(db, p) && Holds(db, p, l) && Wanted(db, p).Some?
    ensures Rank(Wanted(db, p).value) > Rank(l)
  {
    var all := LocksOf(db, p.tx);
    var k :| 0 <= k < p.n && all[..p.n][k] == l;
    assert all[k] == l;
  }

  lemma UnblockedMoves(s: Sys, i: nat, begin: Tx)
    requires MayAdvance(s, i) && !s.procs[i].Idle? && !Blocked(s, i)
    ensures Perform(s, Runs(i, begin)) != s
  {
    hide ForeignKeys, LocksOf, FinReadsFit, Apply, HasStatus, FindRequest, CommittedDiscountOk, Eligible, OtherSucceeded, BroughtIsTaken,
      Decision, CallWrite, InitWrite, PriceWrite, Committable, FinWrite, BindWrite, ReopenWrite, DiscountProvenance, PriceConsistent, FindCycle, MaxSeqNo,
      FindNonterminal, MaxEntryNo, Balance, NonBlank, Payable;
    assert Advance(s, i, begin).procs[i] != s.procs[i];
  }

  /** The owner of the lock a blocked thread wants is under way, and wants none or one that is taken later. */
  lemma OwnerIsAhead(s: Sys, i: nat) returns (k: nat)
    requires SysOk(s) && MayAdvance(s, i) && Blocked(s, i)
    ensures k < |s.procs| && !s.procs[k].Idle? && Known(s.db, s.procs[k])
    ensures Wanted(s.db, s.procs[k]).Some? ==> Rank(Wanted(s.db, s.procs[k]).value) > Rank(Wanted(s.db, s.procs[i]).value)
  {
    hide Inv, ProcsOk, ForeignKeys, FinReadsFit, Held, Known, Wanted;
    var l := Wanted(s.db, s.procs[i]).value;
    k := s.locks[l];
    assert Holds(s.db, s.procs[k], l);
    IdleHoldsNothing(s.db);
    if Wanted(s.db, s.procs[k]).Some? {
      TakenInOrder(s.db, s.procs[k], l);
    }
  }

  /** Following the owners of the wanted locks upwards ends at a thread that can move. */
  lemma {:induction false} SomeoneMoves(s: Sys, i: nat) returns (j: nat)
    requires SysOk(s) && i < |s.procs| && !s.procs[i].Idle?
    ensures MayAdvance(s, j) && !s.procs[j].Idle? && !Blocked(s, j)
    decreases if Known(s.db, s.procs[i]) && Wanted(s.db, s.procs[i]).Some? then 3 - Rank(Wanted(s.db, s.procs[i]).value) else 0
  {
    CanAdvance(s, i);
    hide SysOk, ForeignKeys, FinReadsFit, Known;
    j := i;
    if Blocked(s, i) {
      var k := OwnerIsAhead(s, i);
      hide Wanted;
      j := SomeoneMoves(s, k);
    }
  }

  /** At every moment of every schedule, while any transaction is under way one of them can take its next step. */
  lemma NoDeadlock(s: Sys, schedule: seq<Choice>, i: nat)
    requires Boots(s) && i < |s.procs|
    ensures |Play(s, schedule).procs| == |s.procs|
    ensures var now := Play(s, schedule);
            !now.procs[i].Idle?
            ==> exists j :: 0 <= j < |now.procs| && !now.procs[j].Idle? && forall begin :: Perform(now, Runs(j, begin)) != now
  {
    EverySchedule(s, schedule);
    var now := Play(s, schedule);
    if !now.procs[i].Idle? {
      var j := SomeoneMoves(now, i);
      hide SysOk, Play, Perform, Blocked;
      forall begin ensures Perform(now, Runs(j, begin)) != now {
        UnblockedMoves(now, j, begin);
      }
    }
  }
}
