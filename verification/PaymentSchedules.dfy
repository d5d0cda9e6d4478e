/** One statement of any transaction, while others stand anywhere in theirs, keeps tables, readings and locks consistent. */
module PaymentSchedules {
  import opened Basics
  import opened PaymentModel
  import opened PaymentSteps
  import opened PaymentInvariants
  import opened PaymentRuns
  import opened PaymentHistory
  import opened PaymentLocks
  import opened PaymentRely
  import opened PaymentReads
  import opened PaymentCommits

  ghost predicate LocksOk(s: Sys) {
    && (forall i, l :: 0 <= i < |s.procs| && Holds(s.db, s.procs[i], l) ==> l in s.locks && s.locks[l] == i)
    && (forall l :: l in s.locks ==> s.locks[l] < |s.procs| && Holds(s.db, s.procs[s.locks[l]], l))
  }

  ghost predicate ProcsOk(db: Db, procs: seq<Proc>) {
    forall i :: 0 <= i < |procs| ==> ProcOk(db, procs[i])
  }

  ghost predicate SysOk(s: Sys) {
    Inv(s.db) && ProcsOk(s.db, s.procs) && LocksOk(s)
  }

  // ---- locks ----

  lemma Exclusive(s: Sys, i: nat, j: nat, l: Lock)
    requires LocksOk(s) && i < |s.procs| && j < |s.procs| && i != j && Holds(s.db, s.procs[i], l)
    ensures !Holds(s.db, s.procs[j], l)
  {
    hide Holds;
    assert s.locks[l] == i;
  }

  lemma GotoKeeps(s: Sys, i: nat, p: Proc)
    requires SysOk(s) && i < |s.procs| && ProcOk(s.db, p) && Known(s.db, s.procs[i])
    requires Held(s.db, p) == Held(s.db, s.procs[i])
    ensures SysOk(Goto(s, i, p))
  {
    ProcIsKnown(s.db, p);
    hide Inv, ProcOk, Held, Known, LocksOk;
    assert forall l :: Holds(s.db, p, l) <==> Holds(s.db, s.procs[i], l);
    hide Holds;
    GotoKeepsLocks(s, i, p);
  }

  lemma GotoKeepsLocks(s: Sys, i: nat, p: Proc)
    requires LocksOk(s) && i < |s.procs| && forall l :: Holds(s.db, p, l) <==> Holds(s.db, s.procs[i], l)
    ensures LocksOk(Goto(s, i, p))
  {
    hide Holds;
  }

  lemma TakenLock(s: Sys, i: nat, l: Lock, p: Proc)
    requires SysOk(s) && i < |s.procs| && ProcOk(s.db, p) && l !in s.locks
    requires forall m :: Holds(s.db, p, m) <==> m == l || Holds(s.db, s.procs[i], m)
    ensures SysOk(Goto(s, i, p).(locks := s.locks[l := i]))
  {
    hide Inv, ProcOk, Holds;
  }

  lemma FinishKeepsLocks(s: Sys, i: nat, db': Db, p: Proc)
    requires LocksOk(s) && i < |s.procs|
    requires forall j, l :: 0 <= j < |s.procs| && j != i ==> (Holds(db', s.procs[j], l) <==> Holds(s.db, s.procs[j], l))
    requires forall l :: !Holds(db', p, l)
    ensures LocksOk(Finish(s, i, db', p))
  {
    hide Holds;
  }

  lemma FinishKeeps(s: Sys, i: nat, db': Db, p: Proc)
    requires SysOk(s) && i < |s.procs| && Inv(db') && ProcOk(db', p) && Held(db', p) == []
    requires forall j :: 0 <= j < |s.procs| && j != i ==> ProcOk(db', s.procs[j])
    requires forall j, l :: 0 <= j < |s.procs| && j != i ==> (Holds(db', s.procs[j], l) <==> Holds(s.db, s.procs[j], l))
    ensures SysOk(Finish(s, i, db', p))
  {
    assert forall l :: !Holds(db', p, l);
    hide Inv, ProcOk, Holds, Held, LocksOk;
    FinishKeepsLocks(s, i, db', p);
  }

  lemma IdleOk(db: Db)
    ensures ProcOk(db, Idle) && Held(db, Idle) == []
  {
  }

  lemma GiveUp(s: Sys, i: nat)
    requires SysOk(s) && i < |s.procs|
    ensures SysOk(Finish(s, i, s.db))
  {
    IdleOk(s.db);
    hide Inv, ProcOk, Holds, LocksOk;
    FinishKeeps(s, i, s.db, Idle);
  }

  // ---- a commit ----

  lemma StepSettles(db: Db, step: Step)
    requires Inv(db)
    ensures PricesSettled(db, Apply(db, step))
  {
    assert ForeignKeys(db);
    hide Inv, ForeignKeys, PricesSettled, Apply, Keeps;
    var l := if PayLock(0) in Covers(db, step) then PayLock(1) else PayLock(0);
    StepKeeps(db, step, l);
  }

  /** The thread holds every lock that protects what the step writes. */
  ghost predicate Covered(db: Db, step: Step, p: Proc)
    requires ForeignKeys(db)
  {
    forall l :: l in Covers(db, step) ==> Holds(db, p, l)
  }

  lemma OtherStaysOk(s: Sys, i: nat, j: nat, step: Step)
    requires SysOk(s) && i < |s.procs| && j < |s.procs| && i != j && ForeignKeys(s.db) && Covered(s.db, step, s.procs[i])
    ensures var db' := Apply(s.db, step);
            ProcOk(db', s.procs[j]) && forall l :: Holds(db', s.procs[j], l) <==> Holds(s.db, s.procs[j], l)
  {
    var db, db', p := s.db, Apply(s.db, step), s.procs[j];
    assert ProcOk(db, p) && Known(db, p);
    hide Inv, ProcOk, Apply, Covers, Keeps, Known, Held, Later, PricesSettled;
    KeepStep(db, step);
    StepIsLater(db, step);
    StepSettles(db, step);
    forall l | l in Held(db, p) ensures Keeps(db, db', l) {
      assert Holds(db, p, l);
      if l in Covers(db, step) {
        Exclusive(s, i, j, l);
      }
      StepKeeps(db, step, l);
    }
    ProcStable(db, db', p);
    ProcIsKnown(db', p);
  }

  lemma ProcIsKnown(db: Db, p: Proc)
    requires ProcOk(db, p)
    ensures Known(db, p)
  {
  }

  lemma CommitKeeps(s: Sys, i: nat, step: Step, p: Proc)
    requires SysOk(s) && i < |s.procs| && ForeignKeys(s.db) && Covered(s.db, step, s.procs[i])
    requires ProcOk(Apply(s.db, step), p) && Held(Apply(s.db, step), p) == []
    ensures SysOk(Finish(s, i, Apply(s.db, step), p))
  {
    hide Apply, Covered, ProcOk, Held, LocksOk;
    KeepStep(s.db, step);
    hide Inv;
    forall j | 0 <= j < |s.procs| && j != i
      ensures ProcOk(Apply(s.db, step), s.procs[j])
      ensures forall l :: Holds(Apply(s.db, step), s.procs[j], l) <==> Holds(s.db, s.procs[j], l)
    {
      OtherStaysOk(s, i, j, step);
    }
    hide Holds;
    FinishKeeps(s, i, Apply(s.db, step), p);
  }

  /** A thread past its locks holds what its transaction writes under, finalization once its attempt has SUCCEEDED. */
  lemma CoversItself(db: Db, p: Proc)
    requires ForeignKeys(db) && Known(db, p) && !p.Idle? && !p.Taking? && TxOk(db, p.tx)
    requires p.tx.TxFinalize? ==> db.attempts[p.tx.attempt].status.Succeeded?
    ensures Covered(db, StepOf(p.tx), p)
  {
    var held := LocksOf(db, p.tx);
    assert Held(db, p) == held;
    forall l | l in Covers(db, StepOf(p.tx)) ensures l in held {
      if p.tx.TxFinalize? {
        assert held[0] == SubLock(UserOf(db, p.tx.attempt)) && held[1] == PayLock(OrderOf(db, p.tx.attempt));
        assert p.tx.discounted ==> held[2] == IzlLock(UserOf(db, p.tx.attempt));
      } else {
        assert held[0] == l;
      }
    }
  }

  lemma CommitOwn(s: Sys, i: nat)
    requires SysOk(s) && i < |s.procs| && ForeignKeys(s.db) && Known(s.db, s.procs[i]) && !s.procs[i].Idle? && !s.procs[i].Taking?
    requires s.procs[i].tx.TxFinalize? ==> s.db.attempts[s.procs[i].tx.attempt].status.Succeeded?
    ensures SysOk(Finish(s, i, Apply(s.db, StepOf(s.procs[i].tx))))
  {
    var p := s.procs[i];
    assert ProcOk(s.db, p) && TxOk(s.db, p.tx);
    CoversItself(s.db, p);
    IdleOk(Apply(s.db, StepOf(p.tx)));
    hide Inv, ProcOk, Apply, Covered, LocksOk, Held;
    CommitKeeps(s, i, StepOf(p.tx), Idle);
  }

  // ---- one statement ----

  /** What a step of the thread at `p` does to the tables: nothing, or its whole transaction, or a refusal overtaken. */
  ghost predicate Commits(db: Db, db': Db, p: Proc)
    requires ForeignKeys(db)
  {
    || db' == db
    || (!p.Idle? && db' == Apply(db, StepOf(p.tx)))
    || (p.CallDecided? && Known(db, p) && Overtaken(db, p)
        && exists why :: db' == Apply(db, DoLogRejection(p.tx.event, why)))
  }

  lemma TakingOk(db: Db, tx: Tx, n: nat)
    requires ProcOk(db, Taking(tx, n))
    ensures TxKnown(db, tx) && n <= |LocksOf(db, tx)| && Known(db, Taking(tx, n))
    ensures n == |LocksOf(db, tx)| ==> ProcOk(db, Ready(tx)) && Held(db, Ready(tx)) == Held(db, Taking(tx, n))
    ensures n < |LocksOf(db, tx)| ==>
              && ProcOk(db, Taking(tx, n + 1))
              && Held(db, Taking(tx, n + 1)) == Held(db, Taking(tx, n)) + [LocksOf(db, tx)[n]]
  {
    hide LocksOf, TxOk;
    var all := LocksOf(db, tx);
    assert all[..|all|] == all;
  }

  lemma TakeStep(s: Sys, i: nat)
    requires SysOk(s) && i < |s.procs| && s.procs[i].Taking?
    ensures Known(s.db, s.procs[i]) && SysOk(Take(s, i, s.procs[i].tx, s.procs[i].n))
  {
    var tx, n := s.procs[i].tx, s.procs[i].n;
    assert ProcOk(s.db, Taking(tx, n));
    TakingOk(s.db, tx, n);
    hide ProcOk, LocksOf, Held, TxKnown, Inv, LocksOk, ProcsOk;
    if n == |LocksOf(s.db, tx)| {
      GotoKeeps(s, i, Ready(tx));
    } else if LocksOf(s.db, tx)[n] !in s.locks {
      TakenNext(s.db, tx, n);
      TakenLock(s, i, LocksOf(s.db, tx)[n], Taking(tx, n + 1));
    }
  }

  lemma TakenNext(db: Db, tx: Tx, n: nat)
    requires ProcOk(db, Taking(tx, n)) && TxKnown(db, tx) && n < |LocksOf(db, tx)|
    ensures forall m :: Holds(db, Taking(tx, n + 1), m) <==> m == LocksOf(db, tx)[n] || Holds(db, Taking(tx, n), m)
  {
    TakingOk(db, tx, n);
    ProcIsKnown(db, Taking(tx, n + 1));
    hide ProcOk, LocksOf, TxKnown, Known, Held;
    var p, q := Taking(tx, n), Taking(tx, n + 1);
    assert Known(db, p) && Known(db, q);
    forall m ensures Holds(db, q, m) <==> m == LocksOf(db, tx)[n] || Holds(db, p, m) {
      assert Holds(db, q, m) <==> m in Held(db, q);
      assert Holds(db, p, m) <==> m in Held(db, p);
    }
  }

  lemma BeginStep(s: Sys, i: nat, begin: Tx)
    requires SysOk(s) && i < |s.procs| && s.procs[i].Idle? && Begins(s.db, begin)
    ensures SysOk(Goto(s, i, Taking(begin, 0)))
  {
    hide Inv, LocksOk;
    GotoKeeps(s, i, Taking(begin, 0));
  }

  lemma Moves(s: Sys, i: nat, p: Proc)
    requires SysOk(s) && i < |s.procs| && ProcOk(s.db, p) && !p.Idle? && !p.Taking?
    requires !s.procs[i].Idle? && !s.procs[i].Taking? && s.procs[i].tx == p.tx
    ensures SysOk(Goto(s, i, p))
  {
    assert ProcOk(s.db, s.procs[i]);
    ProcIsKnown(s.db, s.procs[i]);
    ProcIsKnown(s.db, p);
    hide Inv, ProcOk, LocksOk, Known;
    GotoKeeps(s, i, p);
  }

  lemma FirstReads(db: Db, tx: Tx)
    requires TxKnown(db, tx) && TxOk(db, tx)
    ensures tx.TxInitiate? && tx.order < |db.orders| && db.orders[tx.order].user == tx.user
            ==> ProcOk(db, InitOrderRead(tx, db.orders[tx.order]))
    ensures tx.TxWhole? && tx.step.DoCommitDiscount? && tx.step.redemption < |db.redemptions|
            && db.redemptions[tx.step.redemption].user == tx.step.user && db.redemptions[tx.step.redemption].order < |db.orders|
            ==> ProcOk(db, PriceRead(tx, db.redemptions[tx.step.redemption]))
    ensures tx.TxCall? ==> ProcOk(db, CallFresh(tx))
    ensures tx.TxBind? && NonBlank(tx.externalId) && db.attempts[tx.attempt].provider == tx.provider
            && db.attempts[tx.attempt].status.AttemptPending? && db.attempts[tx.attempt].externalId.None?
            ==> ProcOk(db, BindRead(tx, db.attempts[tx.attempt]))
    ensures tx.TxReopen? && Terminal(db.attempts[tx.attempt].status) ==> ProcOk(db, ReopenTerminal(tx))
    ensures tx.TxFinalize? && db.attempts[tx.attempt].status.Succeeded? && db.attempts[tx.attempt].confirmedAt.Some?
            ==> ProcOk(db, FinAttemptRead(tx, db.attempts[tx.attempt]))
  {
    hide NonBlank;
  }

  lemma FirstStep(s: Sys, i: nat)
    requires SysOk(s) && i < |s.procs| && s.procs[i].Ready?
    ensures ForeignKeys(s.db) && Known(s.db, s.procs[i])
    ensures var s' := First(s, i, s.procs[i].tx); SysOk(s') && Commits(s.db, s'.db, s.procs[i])
  {
    var db, p := s.db, s.procs[i];
    assert ForeignKeys(db) && ProcOk(db, p) && Known(db, p) && TxOk(db, p.tx);
    assert forall r :: 0 <= r < |db.redemptions| ==> db.redemptions[r].order < |db.orders|;
    FirstReads(db, p.tx);
    var s' := First(s, i, p.tx);
    hide SysOk, ProcOk, TxOk, Held, LocksOf, Apply, ForeignKeys, AttemptKnown, NonBlank;
    GiveUp(s, i);
    if p.tx.TxWhole? && !p.tx.step.DoCommitDiscount? {
      CommitOwn(s, i);
    } else if s'.procs[i] != Idle {
      Moves(s, i, s'.procs[i]);
    }
  }

  lemma InitReads(db: Db, p: Proc)
    requires InInit(p) && ProcOk(db, p)
    ensures p.InitOrderRead? && FindRequest(db.attempts, p.tx.order, p.tx.request).None? && Eligible(p.order, p.tx.now)
            ==> ProcOk(db, InitEligible(p.tx, p.order))
    ensures p.InitEligible? && CommittedDiscountOk(db, p.tx.order) ==> ProcOk(db, InitBacked(p.tx, p.order))
  {
    hide FindRequest, CommittedDiscountOk, Expired;
  }

  lemma InitStep(s: Sys, i: nat)
    requires SysOk(s) && i < |s.procs| && InInit(s.procs[i])
    ensures ForeignKeys(s.db) && Known(s.db, s.procs[i])
    ensures var s' := InitNext(s, i); SysOk(s') && Commits(s.db, s'.db, s.procs[i])
  {
    var db, p := s.db, s.procs[i];
    assert ForeignKeys(db) && ProcOk(db, p) && Known(db, p);
    InitReads(db, p);
    hide LocksOk, ReadsOk, Apply, ForeignKeys, FindRequest, CommittedDiscountOk, Eligible, TxOk, InitWrite;
    if p.InitBacked? {
      InitCommit(db, p);
    }
    hide Inv, ProcOk;
    GiveUp(s, i);
    if p.InitBacked? {
      CommitOwn(s, i);
    } else {
      hide SysOk;
      var s' := InitNext(s, i);
      if s'.procs[i] != Idle {
        Moves(s, i, s'.procs[i]);
      }
    }
  }

  lemma PriceReads(db: Db, p: Proc)
    requires p.PriceRead? && ProcOk(db, p)
    ensures Known(db, p) && (Committable(p.red, db.orders[p.red.order], p.tx.step.user, p.tx.step.now)
                             ==> ProcOk(db, PriceChecked(p.tx, p.red, db.orders[p.red.order])))
  {
    hide Committable;
  }

  lemma PriceStep(s: Sys, i: nat)
    requires SysOk(s) && i < |s.procs| && InPrice(s.procs[i])
    ensures ForeignKeys(s.db) && Known(s.db, s.procs[i])
    ensures var s' := PriceNext(s, i); SysOk(s') && Commits(s.db, s'.db, s.procs[i])
  {
    var db, p := s.db, s.procs[i];
    assert ForeignKeys(db) && ProcOk(db, p) && Known(db, p);
    hide SysOk, ForeignKeys, Committable, ReadsOk, Apply, TxOk, PriceWrite;
    if p.PriceChecked? {
      PriceCommit(db, p);
      hide ProcOk;
      CommitOwn(s, i);
    } else {
      PriceReads(db, p);
      hide ProcOk;
      GiveUp(s, i);
      var s' := PriceNext(s, i);
      if s'.procs[i] != Idle {
        Moves(s, i, s'.procs[i]);
      }
    }
  }

  lemma CallReads(db: Db, p: Proc)
    requires InCall(p) && ProcOk(db, p) && AttemptsOk(db.orders, db.attempts) && ExternalIdsOk(db.attempts)
    ensures p.CallFresh? ==> ProcOk(db, CallAttemptRead(p.tx, db.attempts[p.tx.event.attempt]))
    ensures p.CallAttemptRead? ==> ProcOk(db, CallOrderRead(p.tx, p.pt, db.orders[OrderOf(db, p.tx.event.attempt)]))
    ensures p.CallOrderRead? ==>
              var a := p.tx.event.attempt;
              ProcOk(db, CallOthersRead(p.tx, p.pt, p.order, OtherSucceeded(db.attempts, OrderOf(db, a), a)))
    ensures p.CallOthersRead? ==>
              ProcOk(db, CallDecided(p.tx, p.pt, p.order, p.other, BroughtIsTaken(db.attempts, p.tx.event)))
  {
    var a := p.tx.event.attempt;
    if p.CallOrderRead? && p.pt.status.AttemptPending? {
      PendingIsAlone(db, a);
    }
    hide BroughtIsTaken, OtherSucceeded, AttemptsOk, ExternalIdsOk;
  }

  lemma CallStep(s: Sys, i: nat)
    requires SysOk(s) && i < |s.procs| && InCall(s.procs[i])
    ensures ForeignKeys(s.db) && Known(s.db, s.procs[i])
    ensures var s' := CallNext(s, i); SysOk(s') && Commits(s.db, s'.db, s.procs[i])
  {
    var db, p := s.db, s.procs[i];
    assert ForeignKeys(db) && ProcOk(db, p) && Known(db, p) && AttemptsOk(db.orders, db.attempts) && ExternalIdsOk(db.attempts);
    hide LocksOk, ReadsOk, Apply, ForeignKeys, TxOk, AttemptsOk, ExternalIdsOk, Inv, BroughtIsTaken, OtherSucceeded;
    if p.CallDecided? {
      DecidedStep(s, i);
    } else {
      CallReads(db, p);
      hide ProcOk, SysOk;
      Moves(s, i, CallNext(s, i).procs[i]);
    }
  }

  lemma DecidedStep(s: Sys, i: nat)
    requires SysOk(s) && i < |s.procs| && s.procs[i].CallDecided?
    ensures ForeignKeys(s.db) && Known(s.db, s.procs[i])
    ensures var s' := CallNext(s, i); SysOk(s') && Commits(s.db, s'.db, s.procs[i])
  {
    var db, p := s.db, s.procs[i];
    assert ForeignKeys(db) && ProcOk(db, p);
    var verdict := Decision(p.tx, p.pt, p.order, p.other, p.taken);
    hide Inv, LocksOk, Apply, ForeignKeys, Decision, CallWrite, AcceptConflicts, ReadsOk, Overtaken;
    GiveUp(s, i);
    if KeyOf(p.tx.event) !in db.events {
      if verdict.Accept? && AcceptConflicts(db, p.tx, p.pt) {
        ConflictStep(s, i, p.tx.event);
      } else {
        CallCommit(db, p);
        if CallWrite(db, p.tx, p.pt, verdict) == Apply(db, StepOf(p.tx)) {
          CommitOwn(s, i);
        } else {
          LogStep(s, i, p.tx.event, verdict.why);
        }
      }
    }
  }

  /** After a rollback the thread goes on to log the conflict on its own. */
  lemma ConflictStep(s: Sys, i: nat, v: VerifiedEvent)
    requires SysOk(s) && i < |s.procs|
    ensures SysOk(Finish(s, i, s.db, Taking(TxWhole(DoLogRejection(v, ExternalIdConflict)), 0)))
  {
    var p := Taking(TxWhole(DoLogRejection(v, ExternalIdConflict)), 0);
    assert ProcOk(s.db, p) && Held(s.db, p) == [];
    hide Inv, ProcOk, Holds, LocksOk, Held;
    FinishKeeps(s, i, s.db, p);
  }

  lemma LogStep(s: Sys, i: nat, v: VerifiedEvent, why: RejectReason)
    requires SysOk(s) && i < |s.procs|
    ensures ForeignKeys(s.db) && SysOk(Finish(s, i, Apply(s.db, DoLogRejection(v, why))))
  {
    assert ForeignKeys(s.db);
    IdleOk(Apply(s.db, DoLogRejection(v, why)));
    hide Inv, ProcOk, Holds, LocksOk, Held, Apply, ForeignKeys;
    CommitKeeps(s, i, DoLogRejection(v, why), Idle);
  }

  lemma BindStep(s: Sys, i: nat)
    requires SysOk(s) && i < |s.procs| && s.procs[i].BindRead?
    ensures ForeignKeys(s.db) && Known(s.db, s.procs[i])
    ensures var s' := Finish(s, i, BindWrite(s.db, s.procs[i].tx)); SysOk(s') && Commits(s.db, s'.db, s.procs[i])
  {
    var p := s.procs[i];
    assert ForeignKeys(s.db) && ProcOk(s.db, p) && Known(s.db, p);
    hide SysOk, ForeignKeys, Bind, BindWrite, ReadsOk, TxOk, Held, ProcOk;
    BindCommit(s.db, p);
    assert BindWrite(s.db, p.tx) == Apply(s.db, StepOf(p.tx));
    hide Apply, StepOf;
    CommitOwn(s, i);
  }

  lemma ReopenReads(db: Db, p: Proc)
    requires InReopen(p) && ProcOk(db, p) && AttemptsOk(db.orders, db.attempts)
    ensures var o := OrderOf(db, p.tx.attempt);
            && (p.ReopenTerminal? ==> ProcOk(db, ReopenOrderRead(p.tx, db.orders[o].status)))
            && (p.ReopenOrderRead? ==> ProcOk(db, ReopenPendingRead(p.tx, p.status, HasStatus(db.attempts, o, AttemptPending))))
            && (p.ReopenPendingRead? ==>
                  ProcOk(db, ReopenDeciding(p.tx, p.status, p.pending, HasStatus(db.attempts, o, Succeeded))))
  {
    var o := OrderOf(db, p.tx.attempt);
    if p.ReopenPendingRead? && p.status.OrderCreated? {
      RetriedHasNoSuccess(db, o);
    }
    hide HasStatus, AttemptsOk;
  }

  lemma ReopenStep(s: Sys, i: nat)
    requires SysOk(s) && i < |s.procs| && InReopen(s.procs[i])
    ensures ForeignKeys(s.db) && Known(s.db, s.procs[i])
    ensures var s' := ReopenNext(s, i); SysOk(s') && Commits(s.db, s'.db, s.procs[i])
  {
    var db, p := s.db, s.procs[i];
    assert ForeignKeys(db) && ProcOk(db, p) && Known(db, p) && AttemptsOk(db.orders, db.attempts);
    if p.ReopenDeciding? {
      ReopenDecides(s, i);
    } else {
      ReopenReads(db, p);
      hide SysOk, ProcOk, ReopenDecision, HasStatus, AttemptsOk, ForeignKeys;
      Moves(s, i, ReopenNext(s, i).procs[i]);
    }
  }

  lemma ReopenDecides(s: Sys, i: nat)
    requires SysOk(s) && i < |s.procs| && s.procs[i].ReopenDeciding?
    ensures ForeignKeys(s.db) && Known(s.db, s.procs[i])
    ensures var s' := ReopenNext(s, i); SysOk(s') && Commits(s.db, s'.db, s.procs[i])
  {
    var db, p := s.db, s.procs[i];
    assert ForeignKeys(db) && ProcOk(db, p) && Known(db, p);
    hide SysOk;
    if ReopenDecision(p.status, p.pending, p.succeeded).Reopened? {
      ReopenCommits(s, i);
    } else {
      GiveUp(s, i);
    }
    hide ProcOk, ReopenDecision, ForeignKeys;
  }

  lemma ReopenCommits(s: Sys, i: nat)
    requires SysOk(s) && i < |s.procs| && s.procs[i].ReopenDeciding? && ForeignKeys(s.db) && ProcOk(s.db, s.procs[i])
    requires ReopenDecision(s.procs[i].status, s.procs[i].pending, s.procs[i].succeeded).Reopened? && Known(s.db, s.procs[i])
    ensures SysOk(Finish(s, i, ReopenWrite(s.db, s.procs[i].tx.attempt)))
    ensures ReopenWrite(s.db, s.procs[i].tx.attempt) == Apply(s.db, StepOf(s.procs[i].tx))
  {
    hide SysOk, ProcOk, Reopen, ReopenWrite, ForeignKeys, ReopenDecision;
    ReopenCommit(s.db, s.procs[i]);
    CommitOwn(s, i);
  }

  lemma RetriedHasNoSuccess(db: Db, o: Id)
    requires AttemptsOk(db.orders, db.attempts) && CreatedOrRetried(db, o)
    ensures !HasStatus(db.attempts, o, Succeeded)
    ensures HasStatus(db.attempts, o, AttemptPending) <==> db.orders[o].status.OrderPending?
  {
    assert forall b :: 0 <= b < |db.attempts| ==> AttemptOk(db.orders, db.attempts[b]);
  }

  lemma FinStep(s: Sys, i: nat)
    requires SysOk(s) && i < |s.procs| && InFin(s.procs[i])
    ensures ForeignKeys(s.db) && Known(s.db, s.procs[i]) && FinReadsFit(s.db, s.procs[i])
    ensures var s' := FinNext(s, i); SysOk(s') && Commits(s.db, s'.db, s.procs[i])
  {
    var db, p := s.db, s.procs[i];
    assert ForeignKeys(db) && ProcOk(db, p);
    var o := OrderOf(db, p.tx.attempt);
    GiveUp(s, i);
    if p.FinPosted? {
      FinCommit(db, p);
      CommitOwn(s, i);
    } else {
      FinReads(s, i);
    }
  }

  lemma FinReadsRows(db: Db, p: Proc)
    requires ProcOk(db, p)
    ensures p.FinAttemptRead? && Payable(p.pt, db.orders[OrderOf(db, p.tx.attempt)])
            ==> ProcOk(db, FinOrderRead(p.tx, p.pt, db.orders[OrderOf(db, p.tx.attempt)]))
    ensures p.FinOrderRead? && FindCycle(db.cycles, OrderOf(db, p.tx.attempt)).None?
            ==> ProcOk(db, FinUnpaid(p.tx, p.pt, p.order))
  {
    hide FindCycle;
  }

  /** The amount of IZL the order's redemption takes, 0 without one. */
  function IzlOf(db: Db, order: Order): int {
    if order.redemption.Some? && order.redemption.value < |db.redemptions| then db.redemptions[order.redemption.value].amount else 0
  }

  lemma FinReadsMoney(db: Db, p: Proc)
    requires ProcOk(db, p)
    ensures p.FinUnpaid? && DiscountProvenance(db, OrderOf(db, p.tx.attempt)) && PriceConsistent(db, p.order)
            ==> ProcOk(db, FinBacked(p.tx, p.pt, p.order, IzlOf(db, p.order)))
    ensures p.FinNumbered? ==>
              ProcOk(db, FinPosted(p.tx, p.pt, p.order, p.izl, p.sub, p.seqNo, MaxEntryNo(db.ledger, p.order.user),
                                   Balance(db.ledger, p.order.user)))
  {
    hide FindCycle, PriceConsistent, MaxEntryNo, Balance, FindNonterminal, MaxSeqNo;
  }

  lemma FinReadsSub(db: Db, p: Proc)
    requires ProcOk(db, p)
    ensures p.FinBacked? && !ActiveFound(db, p.order.user)
            ==> ProcOk(db, FinSubRead(p.tx, p.pt, p.order, p.izl, FindNonterminal(db.subs, p.order.user)))
    ensures p.FinSubRead? && p.sub.Some? ==> p.sub.value < |db.subs|
    ensures p.FinSubRead? ==>
              ProcOk(db, FinNumbered(p.tx, p.pt, p.order, p.izl, p.sub,
                                      if p.sub.None? then 1 else MaxSeqNo(db.cycles, p.sub.value) + 1))
  {
    hide FindCycle, PriceConsistent, DiscountProvenance, MaxSeqNo;
  }

  predicate ActiveFound(db: Db, user: Id) {
    var sub := FindNonterminal(db.subs, user);
    sub.Some? && db.subs[sub.value].status.SubActive?
  }

  lemma FinReads(s: Sys, i: nat)
    requires SysOk(s) && i < |s.procs| && InFin(s.procs[i]) && !s.procs[i].FinPosted?
    ensures ForeignKeys(s.db) && Known(s.db, s.procs[i])
    ensures SysOk(FinNext(s, i)) && FinNext(s, i).db == s.db
  {
    var db, p := s.db, s.procs[i];
    assert ForeignKeys(db) && ProcOk(db, p) && Known(db, p);
    FinReadsOn(s, i);
    var s' := FinNext(s, i);
    hide ProcOk, SysOk, FinNext, InFin;
    if s'.procs[i] == Idle {
      GiveUp(s, i);
    } else {
      Moves(s, i, s'.procs[i]);
    }
  }

  /** A read of finalization gives up or goes on with a reading that is right. */
  lemma FinReadsOn(s: Sys, i: nat)
    requires i < |s.procs| && InFin(s.procs[i]) && !s.procs[i].FinPosted?
    requires ForeignKeys(s.db) && ProcOk(s.db, s.procs[i]) && Known(s.db, s.procs[i])
    ensures var s' := FinNext(s, i);
            && |s'.procs| == |s.procs|
            && (s'.procs[i] == Idle ==> s' == Finish(s, i, s.db))
            && (s'.procs[i] != Idle ==>
                  && s' == Goto(s, i, s'.procs[i]) && ProcOk(s.db, s'.procs[i]) && !s'.procs[i].Taking?
                  && s'.procs[i].tx == s.procs[i].tx)
  {
    var db, p := s.db, s.procs[i];
    hide FindCycle, DiscountProvenance, PriceConsistent, MaxSeqNo, MaxEntryNo, Balance, Finish;
    if p.FinAttemptRead? || p.FinOrderRead? {
      FinReadsRows(db, p);
    } else if p.FinUnpaid? || p.FinNumbered? {
      FinReadsMoney(db, p);
    } else {
      FinReadsSub(db, p);
    }
    hide ProcOk, FindNonterminal;
  }

  lemma CanAdvance(s: Sys, i: nat)
    requires SysOk(s) && i < |s.procs|
    ensures ForeignKeys(s.db) && Known(s.db, s.procs[i]) && FinReadsFit(s.db, s.procs[i])
  {
    var db, p := s.db, s.procs[i];
    assert ProcOk(db, p);
    if p.FinPosted? {
      FinFits(db, p);
    }
    hide LocksOk, AttemptsOk, OrdersOk, LogOk, DiscountsOk, RedeemsOk, LedgerOk, SubsOk, CyclesOk, ExternalIdsOk, PricesOk;
  }

  /**
   One statement of any thread keeps everything consistent, and what it does to the tables is nothing, the whole
   transaction of the thread, or the logging of a refusal whose reason has been overtaken.
   */
  lemma KeepAdvance(s: Sys, i: nat, begin: Tx)
    requires SysOk(s) && i < |s.procs|
    ensures ForeignKeys(s.db) && Known(s.db, s.procs[i]) && FinReadsFit(s.db, s.procs[i])
    ensures var s' := Advance(s, i, begin);
            SysOk(s') && |s'.procs| == |s.procs| && Commits(s.db, s'.db, s.procs[i])
  {
    CanAdvance(s, i);
    var p := s.procs[i];
    hide SysOk, First, InitNext, PriceNext, CallNext, ReopenNext, FinNext, BindWrite, ForeignKeys, FinReadsFit, Apply;
    if p.Idle? {
      if Begins(s.db, begin) {
        BeginStep(s, i, begin);
      }
    } else if p.Taking? {
      TakeStep(s, i);
    } else if p.Ready? {
      FirstStep(s, i);
    } else if p.BindRead? {
      BindStep(s, i);
    } else if InInit(p) {
      InitStep(s, i);
    } else if InPrice(p) {
      PriceStep(s, i);
    } else if InCall(p) {
      CallStep(s, i);
    } else if InReopen(p) {
      ReopenStep(s, i);
    } else {
      FinStep(s, i);
    }
    ThreadsStay(s, i, begin);
    hide Commits, Begins, Known;
  }

  lemma ThreadsStay(s: Sys, i: nat, begin: Tx)
    requires i < |s.procs| && ForeignKeys(s.db) && Known(s.db, s.procs[i]) && FinReadsFit(s.db, s.procs[i])
    ensures |Advance(s, i, begin).procs| == |s.procs|
  {
    hide ForeignKeys, LocksOf, FinReadsFit, Apply, HasStatus, FindRequest, CommittedDiscountOk, Eligible, OtherSucceeded, BroughtIsTaken,
      Decision, CallWrite, InitWrite, PriceWrite, Committable, FinWrite, BindWrite, ReopenWrite, DiscountProvenance, PriceConsistent, FindCycle, MaxSeqNo,
      FindNonterminal, MaxEntryNo, Balance, NonBlank, Payable;
  }
}
