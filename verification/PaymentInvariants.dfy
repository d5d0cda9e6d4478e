/**
 The invariant of the payment tables, one predicate per concern, and its preservation by each kind of write.
 Every lemma speaks only of the tables its write touches; `PaymentRuns` puts them together.
 */
module PaymentInvariants {
  import opened Basics
  import opened PaymentModel
  import opened PaymentSteps

  // ---- orders ----

  ghost predicate OrderOk(prices: seq<Price>, o: Order) {
    && o.purpose.SubscriptionPurchase? && o.currency == "UZS"
    && (o.status.OrderCreated? || o.status.OrderPending? || o.status.OrderPaid?)
    && o.payable == o.gross - o.discount
    && (o.redemption.None? ==> o.discount == 0)
    && o.price < |prices| && prices[o.price].plan == o.plan && prices[o.price].currency == "UZS"
    && prices[o.price].months > 0
  }

  ghost predicate OrdersOk(prices: seq<Price>, orders: seq<Order>) {
    forall o :: 0 <= o < |orders| ==> OrderOk(prices, orders[o])
  }

  // ---- attempts ----

  ghost predicate AttemptOk(orders: seq<Order>, pt: Attempt) {
    && pt.order < |orders|
    && !pt.status.Refunded?
    && (pt.status.Succeeded? ==> pt.confirmedAt.Some?)
    && (Live(pt.status) ==> pt.amount == orders[pt.order].payable && !orders[pt.order].status.OrderCreated?)
  }

  ghost predicate OneLive(attempts: seq<Attempt>) {
    forall a, b :: 0 <= a < |attempts| && 0 <= b < |attempts| && Live(attempts[a].status) && Live(attempts[b].status)
                   && attempts[a].order == attempts[b].order
                   ==> a == b
  }

  ghost predicate HasAttempt(attempts: seq<Attempt>, o: Id) {
    exists a :: 0 <= a < |attempts| && attempts[a].order == o
  }

  ghost predicate AttemptsOk(orders: seq<Order>, attempts: seq<Attempt>) {
    && (forall a :: 0 <= a < |attempts| ==> AttemptOk(orders, attempts[a]))
    && OneLive(attempts)
    && (forall o :: 0 <= o < |orders| && orders[o].status.OrderPending? ==> HasAttempt(attempts, o))
    && (forall o :: 0 <= o < |orders| && orders[o].status.OrderPaid? ==> HasStatus(attempts, o, Succeeded))
  }

  /** PT-DB-03: a provider's external id belongs to one attempt. */
  ghost predicate ExternalIdsOk(attempts: seq<Attempt>) {
    forall a, b :: 0 <= a < |attempts| && 0 <= b < |attempts| && attempts[a].externalId.Some?
                   && attempts[a].provider == attempts[b].provider && attempts[a].externalId == attempts[b].externalId
                   ==> a == b
  }

  lemma AttemptsAfterInitiate(orders: seq<Order>, attempts: seq<Attempt>, pt: Attempt)
    requires AttemptsOk(orders, attempts) && pt.order < |orders|
    requires orders[pt.order].status.OrderCreated?
    requires pt.status.AttemptPending? && pt.amount == orders[pt.order].payable
    ensures AttemptsOk(orders[pt.order := orders[pt.order].(status := OrderPending)], attempts + [pt])
  {
    var orders', attempts' := orders[pt.order := orders[pt.order].(status := OrderPending)], attempts + [pt];
    forall o | 0 <= o < |orders'| && orders'[o].status.OrderPending? ensures HasAttempt(attempts', o) {
      if o == pt.order {
        assert attempts'[|attempts|].order == o;
      } else {
        var a :| 0 <= a < |attempts| && attempts[a].order == o;
        assert attempts'[a].order == o;
      }
    }
    forall o | 0 <= o < |orders'| && orders'[o].status.OrderPaid? ensures HasStatus(attempts', o, Succeeded) {
      var a :| 0 <= a < |attempts| && attempts[a].order == o && attempts[a].status.Succeeded?;
      assert attempts'[a] == attempts[a];
    }
  }

  /** An attempt row changes without leaving its order, becoming live or losing a success. */
  ghost predicate AttemptMayBecome(pt: Attempt, pt': Attempt) {
    && pt'.order == pt.order && pt'.amount == pt.amount && pt'.provider == pt.provider
    && !pt'.status.Refunded?
    && (Live(pt'.status) ==> Live(pt.status))
    && (pt.status.Succeeded? ==> pt'.status.Succeeded?)
    && (pt'.status.Succeeded? ==> pt'.confirmedAt.Some?)
  }

  lemma AttemptsAfterUpdate(orders: seq<Order>, attempts: seq<Attempt>, a: Id, pt': Attempt)
    requires AttemptsOk(orders, attempts) && a < |attempts| && AttemptMayBecome(attempts[a], pt')
    ensures AttemptsOk(orders, attempts[a := pt'])
  {
    var attempts' := attempts[a := pt'];
    forall o | 0 <= o < |orders| && orders[o].status.OrderPending? ensures HasAttempt(attempts', o) {
      var b :| 0 <= b < |attempts| && attempts[b].order == o;
      assert attempts'[b].order == o;
    }
    forall o | 0 <= o < |orders| && orders[o].status.OrderPaid? ensures HasStatus(attempts', o, Succeeded) {
      var b :| 0 <= b < |attempts| && attempts[b].order == o && attempts[b].status.Succeeded?;
      assert attempts'[b].order == o && attempts'[b].status.Succeeded?;
    }
  }

  /** Nothing but `status` of one order changes, and the attempts allow the new status. */
  lemma AttemptsAfterStatus(orders: seq<Order>, attempts: seq<Attempt>, o: Id, status: OrderStatus)
    requires AttemptsOk(orders, attempts) && o < |orders|
    requires status.OrderCreated? ==> forall a :: 0 <= a < |attempts| && attempts[a].order == o ==> !Live(attempts[a].status)
    requires status.OrderPending? ==> HasAttempt(attempts, o)
    requires status.OrderPaid? ==> HasStatus(attempts, o, Succeeded)
    ensures AttemptsOk(orders[o := orders[o].(status := status)], attempts)
  {
  }

  /** A CREATED order can be re-priced: it has no live attempt. */
  lemma AttemptsAfterPricing(orders: seq<Order>, attempts: seq<Attempt>, o: Id, order': Order)
    requires AttemptsOk(orders, attempts) && o < |orders|
    requires orders[o].status.OrderCreated? && order'.status.OrderCreated?
    ensures AttemptsOk(orders[o := order'], attempts)
  {
  }

  lemma AttemptsAfterOrder(orders: seq<Order>, attempts: seq<Attempt>, order: Order)
    requires AttemptsOk(orders, attempts) && order.status.OrderCreated?
    ensures AttemptsOk(orders + [order], attempts)
  {
  }

  lemma ExternalIdsAfterUpdate(attempts: seq<Attempt>, a: Id, pt': Attempt)
    requires ExternalIdsOk(attempts) && a < |attempts| && pt'.provider == attempts[a].provider
    requires pt'.externalId.None? || pt'.externalId == attempts[a].externalId
             || !ExternalIdTaken(attempts, pt'.provider, pt'.externalId.value, a)
    ensures ExternalIdsOk(attempts[a := pt'])
  {
  }

  // ---- the callback log ----

  ghost predicate AcceptedFor(e: Event, a: Id) { NamedStatus(e.result).Some? && e.attempt == Some(a) }

  /** Stored results are acceptances that name a status, duplicates or rejection codes. */
  ghost predicate ResultOk(e: Event) {
    && (ACCEPTED <= e.result <==> NamedStatus(e.result).Some?)
    && (ACCEPTED <= e.result ==> e.attempt.Some?)
  }

  ghost predicate LogOk(attempts: seq<Attempt>, events: map<EventKey, Event>) {
    && (forall k :: k in events ==> ResultOk(events[k]))
    && (forall k :: k in events && events[k].attempt.Some? ==> events[k].attempt.value < |attempts|)
    && (forall k, a :: k in events && 0 <= a < |attempts| && AcceptedFor(events[k], a) ==>
          NamedStatus(events[k].result) == Some(attempts[a].status))
    && (forall k, l, a :: k in events && l in events && AcceptedFor(events[k], a) && AcceptedFor(events[l], a) ==> k == l)
    && (forall a :: 0 <= a < |attempts| && !attempts[a].status.AttemptPending? ==>
          exists k :: k in events && AcceptedFor(events[k], a))
  }

  lemma LogAfterOther(attempts: seq<Attempt>, events: map<EventKey, Event>, k: EventKey, e: Event)
    requires LogOk(attempts, events) && k !in events
    requires NamedStatus(e.result).None? && ResultOk(e)
    requires e.attempt.Some? ==> e.attempt.value < |attempts|
    ensures LogOk(attempts, events[k := e])
  {
    var events' := events[k := e];
    forall a | 0 <= a < |attempts| && !attempts[a].status.AttemptPending?
      ensures exists l :: l in events' && AcceptedFor(events'[l], a)
    {
      var l :| l in events && AcceptedFor(events[l], a);
      assert events'[l] == events[l];
    }
  }

  lemma LogAfterAccept(attempts: seq<Attempt>, events: map<EventKey, Event>, k: EventKey, e: Event, a: Id, pt': Attempt)
    requires LogOk(attempts, events) && k !in events && a < |attempts|
    requires attempts[a].status.AttemptPending? && !pt'.status.AttemptPending?
    requires e.attempt == Some(a) && NamedStatus(e.result) == Some(pt'.status) && ResultOk(e)
    ensures LogOk(attempts[a := pt'], events[k := e])
  {
    var events', attempts' := events[k := e], attempts[a := pt'];
    forall l | l in events ensures !AcceptedFor(events[l], a) {
      if AcceptedFor(events[l], a) {
        PendingIsNotNamed(events[l].result);
      }
    }
    forall b | 0 <= b < |attempts'| && !attempts'[b].status.AttemptPending?
      ensures exists l :: l in events' && AcceptedFor(events'[l], b)
    {
      if b == a {
        assert AcceptedFor(events'[k], a);
      } else {
        var l :| l in events && AcceptedFor(events[l], b);
        assert events'[l] == events[l];
      }
    }
  }

  lemma PendingIsNotNamed(result: string)
    ensures NamedStatus(result) != Some(AttemptPending)
  {
  }

  lemma LogAfterNewAttempt(attempts: seq<Attempt>, events: map<EventKey, Event>, pt: Attempt)
    requires LogOk(attempts, events) && pt.status.AttemptPending?
    ensures LogOk(attempts + [pt], events)
  {
    var attempts' := attempts + [pt];
    forall a | 0 <= a < |attempts'| && !attempts'[a].status.AttemptPending?
      ensures exists k :: k in events && AcceptedFor(events[k], a)
    {
      assert attempts'[a] == attempts[a];
    }
  }

  lemma LogAfterSameStatus(attempts: seq<Attempt>, events: map<EventKey, Event>, a: Id, pt': Attempt)
    requires LogOk(attempts, events) && a < |attempts| && pt'.status == attempts[a].status
    ensures LogOk(attempts[a := pt'], events)
  {
    var attempts' := attempts[a := pt'];
    forall b | 0 <= b < |attempts'| && !attempts'[b].status.AttemptPending?
      ensures exists k :: k in events && AcceptedFor(events[k], b)
    {
      assert attempts'[b].status == attempts[b].status;
    }
  }

  // ---- redemptions, holds and REDEEM entries ----

  ghost predicate RedemptionOk(orders: seq<Order>, r: Id, red: Redemption) {
    && red.order < |orders| && red.user == orders[red.order].user
    && red.amount > 0 && red.hold.user == red.user && red.hold.amount == red.amount
    && (red.status.Reserved? || red.status.Applied? || red.status.RedemptionReleased?)
    && (red.status.Reserved? ==> red.hold.status.HoldActive?)
    && (red.status.RedemptionReleased? ==> red.hold.status.HoldReleased?)
    && (red.status.Applied? ==> red.hold.status.HoldConsumed?
                                && orders[red.order].redemption == Some(r) && orders[red.order].status.OrderPaid?)
  }

  ghost predicate OrderDiscountOk(o: Id, order: Order, redemptions: seq<Redemption>) {
    order.redemption.Some? ==>
      && order.redemption.value < |redemptions|
      && var red := redemptions[order.redemption.value];
      && red.order == o && red.value == order.discount
      && (if order.status.OrderPaid? then red.status.Applied? else red.status.Reserved?)
  }

  ghost predicate DiscountsOk(orders: seq<Order>, redemptions: seq<Redemption>) {
    && (forall r :: 0 <= r < |redemptions| ==> RedemptionOk(orders, r, redemptions[r]))
    && (forall o :: 0 <= o < |orders| ==> OrderDiscountOk(o, orders[o], redemptions))
  }

  /** REDEEM entries and applied redemptions are in bijection, and the entry is minus the redeemed amount. */
  ghost predicate RedeemsOk(redemptions: seq<Redemption>, ledger: seq<Entry>) {
    && (forall e :: 0 <= e < |ledger| && ledger[e].kind.Redeem? ==>
          && ledger[e].redemption.Some? && ledger[e].redemption.value < |redemptions|
          && var red := redemptions[ledger[e].redemption.value];
          red.status.Applied? && red.user == ledger[e].user && ledger[e].amount == -red.amount)
    && (forall e, f :: 0 <= e < |ledger| && 0 <= f < |ledger| && ledger[e].kind.Redeem? && ledger[f].kind.Redeem?
                       && ledger[e].redemption == ledger[f].redemption
                       ==> e == f)
    && (forall r :: 0 <= r < |redemptions| && redemptions[r].status.Applied? ==> HasRedeem(ledger, r))
  }

  lemma RedeemsAfterOtherRow(redemptions: seq<Redemption>, ledger: seq<Entry>, r: Id, red': Redemption)
    requires RedeemsOk(redemptions, ledger) && r < |redemptions|
    requires !redemptions[r].status.Applied? && !red'.status.Applied?
    ensures RedeemsOk(redemptions[r := red'], ledger)
  {
  }

  lemma RedeemsAfterEarn(redemptions: seq<Redemption>, ledger: seq<Entry>, e: Entry)
    requires RedeemsOk(redemptions, ledger) && e.kind.Earn?
    ensures RedeemsOk(redemptions, ledger + [e])
  {
    var ledger' := ledger + [e];
    forall r | 0 <= r < |redemptions| && redemptions[r].status.Applied? ensures HasRedeem(ledger', r) {
      var f :| 0 <= f < |ledger| && ledger[f].kind.Redeem? && ledger[f].redemption == Some(r);
      assert ledger'[f] == ledger[f];
    }
  }

  lemma RedeemsAfterApply(redemptions: seq<Redemption>, ledger: seq<Entry>, r: Id, e: Entry)
    requires RedeemsOk(redemptions, ledger) && r < |redemptions| && !redemptions[r].status.Applied?
    requires e.kind.Redeem? && e.redemption == Some(r) && e.user == redemptions[r].user && e.amount == -redemptions[r].amount
    ensures RedeemsOk(redemptions[r := redemptions[r].(status := Applied, hold := redemptions[r].hold.(status := HoldConsumed))],
                      ledger + [e])
  {
    var redemptions' := redemptions[r := redemptions[r].(status := Applied, hold := redemptions[r].hold.(status := HoldConsumed))];
    var ledger' := ledger + [e];
    forall q | 0 <= q < |redemptions'| && redemptions'[q].status.Applied? ensures HasRedeem(ledger', q) {
      if q == r {
        assert ledger'[|ledger|] == e;
      } else {
        var f :| 0 <= f < |ledger| && ledger[f].kind.Redeem? && ledger[f].redemption == Some(q);
        assert ledger'[f] == ledger[f];
      }
    }
  }

  // ---- the ledger ----

  function EntriesOf(ledger: seq<Entry>, user: Id): nat {
    if ledger == [] then 0
    else EntriesOf(ledger[..|ledger| - 1], user) + if ledger[|ledger| - 1].user == user then 1 else 0
  }

  /** Each user's entries are numbered 1, 2, ... and carry the running sum of their amounts. */
  ghost predicate LedgerOk(ledger: seq<Entry>) {
    forall e :: 0 <= e < |ledger| ==>
      && ledger[e].entryNo == EntriesOf(ledger[..e], ledger[e].user) + 1
      && ledger[e].balanceAfter == Balance(ledger[..e + 1], ledger[e].user)
  }

  lemma {:induction false} MaxEntryIsCount(ledger: seq<Entry>, user: Id)
    requires LedgerOk(ledger)
    ensures MaxEntryNo(ledger, user) == EntriesOf(ledger, user)
  {
    if ledger != [] {
      var rest := ledger[..|ledger| - 1];
      assert forall e :: 0 <= e <= |rest| ==> rest[..e] == ledger[..e];
      MaxEntryIsCount(rest, user);
    }
  }

  lemma LedgerAfterPost(ledger: seq<Entry>, e: Entry)
    requires LedgerOk(ledger)
    requires e.entryNo == MaxEntryNo(ledger, e.user) + 1 && e.balanceAfter == Balance(ledger, e.user) + e.amount
    ensures LedgerOk(ledger + [e])
    ensures Balance(ledger + [e], e.user) == Balance(ledger, e.user) + e.amount
    ensures forall u :: u != e.user ==> Balance(ledger + [e], u) == Balance(ledger, u)
  {
    MaxEntryIsCount(ledger, e.user);
    var ledger' := ledger + [e];
    assert ledger'[..|ledger|] == ledger && ledger'[..|ledger'|] == ledger';
    hide MaxEntryNo, EntriesOf;
    forall i | 0 <= i < |ledger'|
      ensures ledger'[i].entryNo == EntriesOf(ledger'[..i], ledger'[i].user) + 1
      ensures ledger'[i].balanceAfter == Balance(ledger'[..i + 1], ledger'[i].user)
    {
      if i < |ledger| {
        assert ledger'[..i] == ledger[..i] && ledger'[..i + 1] == ledger[..i + 1];
      }
    }
  }

  // ---- subscriptions and cycles ----

  /** F-14: at most one subscription per user is ACTIVE or EXPIRED. */
  ghost predicate SubsOk(subs: seq<Sub>) {
    forall s, t :: 0 <= s < |subs| && 0 <= t < |subs| && Nonterminal(subs[s].status) && Nonterminal(subs[t].status)
                   && subs[s].user == subs[t].user
                   ==> s == t
  }

  function CyclesOf(cycles: seq<Cycle>, sub: Id): nat {
    if cycles == [] then 0
    else CyclesOf(cycles[..|cycles| - 1], sub) + if cycles[|cycles| - 1].sub == sub then 1 else 0
  }

  /** The cycles of each subscription are numbered 1, 2, ... in the order they were written. */
  ghost predicate CyclesNumbered(cycles: seq<Cycle>) {
    forall c :: 0 <= c < |cycles| ==> cycles[c].seqNo == CyclesOf(cycles[..c], cycles[c].sub) + 1
  }

  ghost predicate CycleOk(orders: seq<Order>, subs: seq<Sub>, c: Cycle) {
    && c.order < |orders| && c.sub < |subs|
    && orders[c.order].status.OrderPaid? && subs[c.sub].user == orders[c.order].user
    && c.start < c.end
    && c.plan == orders[c.order].plan && c.price == orders[c.order].price && c.gross == orders[c.order].gross
    && c.discount == orders[c.order].discount && c.paid == orders[c.order].payable
  }

  ghost predicate CyclesOk(orders: seq<Order>, subs: seq<Sub>, cycles: seq<Cycle>) {
    && (forall c :: 0 <= c < |cycles| ==> CycleOk(orders, subs, cycles[c]))
    && (forall c, d :: 0 <= c < |cycles| && 0 <= d < |cycles| && cycles[c].order == cycles[d].order ==> c == d)
    && (forall o :: 0 <= o < |orders| && orders[o].status.OrderPaid? ==> exists c :: 0 <= c < |cycles| && cycles[c].order == o)
    && CyclesNumbered(cycles)
  }

  lemma {:induction false} MaxSeqIsCount(cycles: seq<Cycle>, sub: Id)
    requires CyclesNumbered(cycles)
    ensures MaxSeqNo(cycles, sub) == CyclesOf(cycles, sub)
  {
    if cycles != [] {
      var rest := cycles[..|cycles| - 1];
      assert forall c :: 0 <= c <= |rest| ==> rest[..c] == cycles[..c];
      MaxSeqIsCount(rest, sub);
    }
  }

  lemma {:induction false} NoCycles(cycles: seq<Cycle>, sub: Id)
    requires forall c :: 0 <= c < |cycles| ==> cycles[c].sub != sub
    ensures CyclesOf(cycles, sub) == 0
  {
    if cycles != [] {
      NoCycles(cycles[..|cycles| - 1], sub);
    }
  }

  lemma NumberedAfterCycle(cycles: seq<Cycle>, c: Cycle)
    requires CyclesNumbered(cycles) && c.seqNo == CyclesOf(cycles, c.sub) + 1
    ensures CyclesNumbered(cycles + [c])
  {
    var cycles' := cycles + [c];
    assert cycles'[..|cycles|] == cycles;
    assert forall i :: 0 <= i <= |cycles| ==> cycles'[..i] == cycles[..i];
  }

  lemma PaidHaveCycles(orders: seq<Order>, cycles: seq<Cycle>, c: Cycle, o: Id)
    requires forall p :: 0 <= p < |orders| && orders[p].status.OrderPaid? ==> exists d :: 0 <= d < |cycles| && cycles[d].order == p
    requires o < |orders| && (o == c.order || orders[o].status.OrderPaid?)
    ensures exists d :: 0 <= d < |cycles + [c]| && (cycles + [c])[d].order == o
  {
    if o == c.order {
      assert (cycles + [c])[|cycles|] == c;
    } else {
      var d :| 0 <= d < |cycles| && cycles[d].order == o;
      assert (cycles + [c])[d] == cycles[d];
    }
  }

  lemma CyclesStayOk(orders: seq<Order>, subs: seq<Sub>, subs': seq<Sub>, cycle: Cycle, o: Id)
    requires CycleOk(orders, subs, cycle) && o < |orders| && !orders[o].status.OrderPaid?
    requires |subs| <= |subs'| && forall s :: 0 <= s < |subs| ==> subs'[s].user == subs[s].user
    ensures cycle.order != o && CycleOk(orders[o := orders[o].(status := OrderPaid)], subs', cycle)
  {
  }

  /** A PENDING order is paid for by one new cycle of a subscription of its user. */
  lemma CyclesAfterPaid(orders: seq<Order>, subs: seq<Sub>, subs': seq<Sub>, cycles: seq<Cycle>, c: Cycle)
    requires CyclesOk(orders, subs, cycles)
    requires c.order < |orders| && !orders[c.order].status.OrderPaid?
    requires |subs| <= |subs'| && forall s :: 0 <= s < |subs| ==> subs'[s].user == subs[s].user
    requires var orders' := orders[c.order := orders[c.order].(status := OrderPaid)]; CycleOk(orders', subs', c)
    requires c.seqNo == CyclesOf(cycles, c.sub) + 1
    ensures CyclesOk(orders[c.order := orders[c.order].(status := OrderPaid)], subs', cycles + [c])
  {
    NumberedAfterCycle(cycles, c);
    var orders', cycles' := orders[c.order := orders[c.order].(status := OrderPaid)], cycles + [c];
    forall d | 0 <= d < |cycles| ensures cycles[d].order != c.order && CycleOk(orders', subs', cycles[d]) {
      CyclesStayOk(orders, subs, subs', cycles[d], c.order);
    }
    forall o | 0 <= o < |orders'| && orders'[o].status.OrderPaid?
      ensures exists d :: 0 <= d < |cycles'| && cycles'[d].order == o
    {
      PaidHaveCycles(orders, cycles, c, o);
    }
    hide CycleOk, CyclesNumbered;
  }

  /** Orders change without becoming or ceasing to be PAID, and a PAID order not at all. */
  lemma CyclesAfterOrder(orders: seq<Order>, subs: seq<Sub>, cycles: seq<Cycle>, o: Id, order': Order)
    requires CyclesOk(orders, subs, cycles) && o < |orders|
    requires !orders[o].status.OrderPaid? && !order'.status.OrderPaid?
    ensures CyclesOk(orders[o := order'], subs, cycles)
  {
  }
}
