/**
 How the payment tables evolve: what no step of any run ever rewrites.
 */
module PaymentHistory {
  import opened Basics
  import opened PaymentModel
  import opened PaymentSteps
  import opened PaymentInvariants
  import opened PaymentRuns

  /** The external id is write-once and a decided status is final. */
  ghost predicate AttemptEvolves(p: Attempt, q: Attempt) {
    && q.order == p.order && q.provider == p.provider && q.amount == p.amount && q.clientRequest == p.clientRequest
    && (p.externalId.Some? ==> q.externalId == p.externalId)
    && (!p.status.AttemptPending? ==> q.status == p.status && q.confirmedAt == p.confirmedAt)
  }

  ghost predicate AttemptsLater(s: seq<Attempt>, t: seq<Attempt>) {
    |s| <= |t| && forall a :: 0 <= a < |s| ==> AttemptEvolves(s[a], t[a])
  }

  /** Processed events are never rewritten. */
  ghost predicate LogLater(s: map<EventKey, Event>, t: map<EventKey, Event>) {
    forall k :: k in s ==> k in t && t[k] == s[k]
  }

  /** The purchase is frozen, everything once it is PAID; the discount may change as long as it is not. */
  ghost predicate OrderEvolves(p: Order, q: Order) {
    && q.user == p.user && q.purpose == p.purpose && q.gross == p.gross && q.currency == p.currency
    && q.plan == p.plan && q.price == p.price
    && (p.status.OrderPaid? ==> q == p)
  }

  ghost predicate OrdersLater(s: seq<Order>, t: seq<Order>) {
    |s| <= |t| && forall o :: 0 <= o < |s| ==> OrderEvolves(s[o], t[o])
  }

  /** An applied or released redemption is final. */
  ghost predicate RedemptionEvolves(p: Redemption, q: Redemption) {
    && q.user == p.user && q.order == p.order && q.amount == p.amount && q.value == p.value
    && (p.status.Applied? || p.status.RedemptionReleased? ==> q == p)
  }

  ghost predicate RedemptionsLater(s: seq<Redemption>, t: seq<Redemption>) {
    |s| <= |t| && forall r :: 0 <= r < |s| ==> RedemptionEvolves(s[r], t[r])
  }

  ghost predicate SubsLater(s: seq<Sub>, t: seq<Sub>) {
    |s| <= |t| && forall i :: 0 <= i < |s| ==>
      t[i].user == s[i].user && (s[i].status.SubCancelled? ==> t[i].status.SubCancelled?)
  }

  /** Cycles and ledger entries are only appended. */
  ghost predicate Later(db: Db, db': Db) {
    && db'.prices == db.prices
    && OrdersLater(db.orders, db'.orders)
    && AttemptsLater(db.attempts, db'.attempts)
    && LogLater(db.events, db'.events)
    && RedemptionsLater(db.redemptions, db'.redemptions)
    && SubsLater(db.subs, db'.subs)
    && db.cycles <= db'.cycles
    && db.ledger <= db'.ledger
  }

  lemma LaterTrans(x: Db, y: Db, z: Db)
    requires Later(x, y) && Later(y, z)
    ensures Later(x, z)
  {
  }

  lemma DiscountStepsLater(db: Db, user: Id, r: Id, now: int)
    requires Inv(db)
    ensures Later(db, CommitDiscount(db, user, r, now)) && Later(db, ReleaseRedemption(db, user, r))
  {
    hide LogOk, LedgerOk, ExternalIdsOk, RedeemsOk, CyclesOk, SubsOk, AttemptsOk, OrdersOk, DiscountsOk;
  }

  lemma CallbackLater(db: Db, v: VerifiedEvent, target: Target)
    requires Inv(db)
    ensures Later(db, RecordSuccess(db, v).0) && Later(db, RecordTerminal(db, v, target).0)
  {
    hide PricesOk, LogOk, LedgerOk, ExternalIdsOk, RedeemsOk, CyclesOk, SubsOk, AttemptsOk, OrdersOk, DiscountsOk;
    hide NamedStatus, ReasonCode, AcceptedCode, Later, RecordSuccess, RecordTerminal;
    SuccessLater(db, v);
    TerminalLater(db, v, target);
  }

  lemma SuccessLater(db: Db, v: VerifiedEvent)
    requires ForeignKeys(db)
    ensures Later(db, RecordSuccess(db, v).0)
  {
    hide ForeignKeys, NamedStatus, ReasonCode, OtherSucceeded, ExternalIdTaken, Present;
  }

  lemma TerminalLater(db: Db, v: VerifiedEvent, target: Target)
    requires ForeignKeys(db)
    ensures Later(db, RecordTerminal(db, v, target).0)
  {
    hide ForeignKeys, NamedStatus, ReasonCode, AcceptedCode, ExternalIdTaken, Present;
  }

  lemma FinalizeLater(db: Db, a: Id)
    requires Inv(db)
    ensures Later(db, Finalize(db, a).0)
  {
    hide LogOk, LedgerOk, ExternalIdsOk, RedeemsOk, CyclesOk, SubsOk, AttemptsOk, OrdersOk, DiscountsOk;
    hide PricesOk, MaxSeqNo, MaxEntryNo, Balance, NewCycle, ReconstructFinalized;
  }

  lemma InitiateLater(db: Db, user: Id, o: Id, provider: Provider, req: string, now: int)
    requires ForeignKeys(db)
    ensures Later(db, Initiate(db, user, o, provider, req, now).0)
  {
    hide ForeignKeys, CommittedDiscountOk, ReplayAttempt, Expired, HasStatus;
  }

  lemma ReopenLater(db: Db, a: Id)
    requires ForeignKeys(db)
    ensures Later(db, Reopen(db, a).0)
  {
    hide HasStatus;
  }

  lemma RejectionLater(db: Db, v: VerifiedEvent, why: RejectReason)
    ensures Later(db, LogRejection(db, v, why))
  {
    hide ReasonCode;
  }

  lemma OpeningStepsLater(db: Db, s: Step)
    requires ForeignKeys(db) && (s.DoCreateOrder? || s.DoCreateRedemption? || s.DoEarn? || s.DoLapseSub?)
    ensures Later(db, Apply(db, s))
  {
    hide ForeignKeys, Balance, MaxEntryNo, ActiveHolds, OpenRedemption, Expired;
  }

  lemma ExternalIdStepsLater(db: Db, s: Step)
    requires ForeignKeys(db) && (s.DoAttachInit? || s.DoBind?)
    ensures Later(db, Apply(db, s))
  {
    hide ForeignKeys, ExternalIdTaken, NonBlank;
  }

  lemma StepIsLater(db: Db, s: Step)
    requires Inv(db)
    ensures Later(db, Apply(db, s))
  {
    hide LogOk, LedgerOk, ExternalIdsOk, RedeemsOk, CyclesOk, SubsOk, AttemptsOk, OrdersOk, DiscountsOk, PricesOk, Later;
    hide CreateOrder, CreateRedemption, CommitDiscount, ReleaseRedemption, EarnIzl, LapseSub, Initiate, AttachInit, Bind,
      RecordSuccess, RecordTerminal, LogRejection, Reopen, Finalize;
    match s
    case DoCommitDiscount(user, r, now) => DiscountStepsLater(db, user, r, now);
    case DoReleaseRedemption(user, r) => DiscountStepsLater(db, user, r, 0);
    case DoSuccess(v) => CallbackLater(db, v, TargetFailed);
    case DoTerminal(v, target) => CallbackLater(db, v, target);
    case DoFinalize(a) => FinalizeLater(db, a);
    case DoInitiate(user, o, provider, req, now) => InitiateLater(db, user, o, provider, req, now);
    case DoReopen(a) => ReopenLater(db, a);
    case DoLogRejection(v, why) => RejectionLater(db, v, why);
    case DoCreateOrder(_, _) => OpeningStepsLater(db, s);
    case DoCreateRedemption(_, _, _, _, _) => OpeningStepsLater(db, s);
    case DoEarn(_, _) => OpeningStepsLater(db, s);
    case DoLapseSub(_, _) => OpeningStepsLater(db, s);
    case _ => ExternalIdStepsLater(db, s);
  }

  /**
   Over any run: external ids are write-once, decided attempts and processed events are final, a purchase is never
   re-targeted, a PAID order and an applied redemption never change, cycles and ledger entries are only appended.
   */
  lemma {:induction false} RunIsLater(db: Db, steps: seq<Step>)
    requires Inv(db)
    ensures Later(db, Run(db, steps))
    decreases |steps|
  {
    hide PricesOk, ForeignKeys, OrdersOk, AttemptsOk, ExternalIdsOk, LogOk, DiscountsOk, RedeemsOk, LedgerOk, SubsOk,
         CyclesOk, Apply;
    if steps != [] {
      KeepStep(db, steps[0]);
      hide Later;
      StepIsLater(db, steps[0]);
      RunIsLater(Apply(db, steps[0]), steps[1..]);
      LaterTrans(db, Apply(db, steps[0]), Run(db, steps));
    }
  }

  lemma {:induction false} RunReachable(db: Db, steps: seq<Step>)
    requires Reachable(db)
    ensures Inv(db) && Reachable(Run(db, steps))
    decreases |steps|
  {
    hide PricesOk, ForeignKeys, OrdersOk, AttemptsOk, ExternalIdsOk, LogOk, DiscountsOk, RedeemsOk, LedgerOk, SubsOk,
         CyclesOk, Apply, Reachable;
    ReachableInv(db);
    if steps != [] {
      ReachableStep(db, steps[0]);
      RunReachable(Apply(db, steps[0]), steps[1..]);
    }
  }
}
