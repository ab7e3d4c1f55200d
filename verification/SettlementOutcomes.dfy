/**
 What each step leaves on an order's row, and that the settlement job pays what has become due: a confirmed
 delivery is dated, and a pass after the holdback settles it.
 */
module SettlementOutcomes {
  import opened Wrappers
  import opened Orders
  import opened Settlement
  import opened SettlementRuns
  import Commissions
  import W = Wallets

  // ---------- One step on one row ----------

  /** The step goes through on the row and leaves it as `after`. */
  predicate Leaves(o: Order, step: Step, after: Order) {
    RowStep(o, step) == Success(after)
  }

  /** Only the seller creates the shipment, once, of a paid order; it starts pending and undated. */
  lemma WhenAShipmentIsCreated(o: Order, user: User, id: nat)
    ensures var step := CreateShipment(user, id);
            && (RowStep(o, step).Success? <==> user == o.seller && o.status == OrderStatus.Paid && o.shipment.None?)
            && (RowStep(o, step).Success? ==>
                  Leaves(o, step, o.(shipment := Some(Shipment(ShipmentStatus.Pending, None, None)))))
  {
  }

  /** Only the seller ships, a paid order; the first time is the one that is dated. */
  lemma WhenTheSellerShips(o: Order, user: User, id: nat, now: Time)
    ensures var step := UpdateShipment(user, id, ShipmentStatus.Sent, now);
            && (RowStep(o, step).Success? <==> o.shipment.Some? && user == o.seller && o.status == OrderStatus.Paid)
            && (RowStep(o, step).Success? ==>
                  var s := o.shipment.value;
                  Leaves(o, step, o.(status := OrderStatus.Shipped, updatedAt := now, shipment := Some(Shipment(
                                       ShipmentStatus.Sent, if s.shippedAt.Some? then s.shippedAt else Some(now), s.deliveredAt)))))
  {
  }

  /** Only the buyer confirms, a shipped order; an undated delivery is dated at that moment. */
  lemma WhenTheBuyerConfirms(o: Order, user: User, id: nat, now: Time)
    ensures var step := UpdateShipment(user, id, ShipmentStatus.Received, now);
            && (RowStep(o, step).Success? <==> o.shipment.Some? && user == o.buyer && o.status == OrderStatus.Shipped)
            && (RowStep(o, step).Success? ==>
                  var s := o.shipment.value;
                  Leaves(o, step, o.(status := OrderStatus.Delivered, updatedAt := now, shipment := Some(Shipment(
                                       ShipmentStatus.Received, s.shippedAt, if s.deliveredAt.Some? then s.deliveredAt else Some(now))))))
  {
  }

  /** The other two statuses are the seller's, and move neither the order nor a date. */
  lemma WhenAnotherStatusIsSet(o: Order, user: User, id: nat, status: ShipmentStatus, now: Time)
    requires status == ShipmentStatus.Pending || status == ShipmentStatus.Returned
    ensures var step := UpdateShipment(user, id, status, now);
            && (RowStep(o, step).Success? <==> o.shipment.Some? && user == o.seller)
            && (RowStep(o, step).Success? ==> Leaves(o, step, o.(shipment := Some(o.shipment.value.(status := status)))))
  {
  }

  /** A participant opens the one dispute of an order, within fourteen days of its delivery or of its last change. */
  lemma WhenADisputeOpens(o: Order, user: User, id: nat, now: Time)
    ensures var step := OpenDispute(user, id, now);
            var since := if o.shipment.Some? && o.shipment.value.deliveredAt.Some? then o.shipment.value.deliveredAt.value else o.updatedAt;
            && (RowStep(o, step).Success? <==>
                  && (user == o.buyer || user == o.seller) && o.dispute.None?
                  && (o.status == OrderStatus.Paid || o.status == OrderStatus.Shipped || o.status == OrderStatus.Delivered)
                  && now <= since + 14 * 24 * 60 * 60 * 1000)
            && (RowStep(o, step).Success? ==> Leaves(o, step, o.(dispute := Some(DisputeStatus.Open))))
  {
  }

  /** A paid or delivered order is refunded once, for at most its total. */
  lemma WhenAnOrderIsRefunded(o: Order, amount: int, now: Time)
    ensures var r := RefundCreated(o, amount, now);
            && (r.Success? <==> && !o.refundRequested && 0 < amount <= o.total
                                && (o.status == OrderStatus.Paid || o.status == OrderStatus.Delivered))
            && (r.Success? ==> r.value == o.(refundRequested := true, status := OrderStatus.Refunded, updatedAt := now))
  {
  }

  /** Without a shipment there is nothing to update; the wrong person is refused before the wrong moment is. */
  lemma WhyAShipmentStepFails(o: Order, user: User, id: nat, status: ShipmentStatus, now: Time)
    ensures var update, declarer := RowStep(o, UpdateShipment(user, id, status, now)), if status.Received? then o.buyer else o.seller;
            && (update == Failure(NotFound) <==> o.shipment.None?)
            && (update == Failure(Forbidden) <==> o.shipment.Some? && user != declarer)
            && (update == Failure(BadRequest) ==> o.shipment.Some? && user == declarer)
    ensures var creation := RowStep(o, CreateShipment(user, id));
            && (creation == Failure(Forbidden) <==> user != o.seller)
            && (creation == Failure(BadRequest) <==> user == o.seller && (o.status != OrderStatus.Paid || o.shipment.Some?))
  {
  }

  /** A stranger to the order is refused as such; a participant's dispute is refused for its moment. */
  lemma WhyADisputeIsRefused(o: Order, user: User, id: nat, now: Time)
    ensures var r := RowStep(o, OpenDispute(user, id, now));
            && (r == Failure(Forbidden) <==> user != o.buyer && user != o.seller)
            && (r.Failure? && r != Failure(Forbidden) ==> r == Failure(BadRequest))
  {
  }

  /** A refund puts the whole amount into the buyer's balance. */
  lemma RefundReachesTheBuyer(m: Market, id: nat, amount: int, now: Time, config: Config)
    requires id < |m.orders| && RefundCreated(m.orders[id], amount, now).Success?
    ensures var after, o := Next(m, Refund(id, amount, now), config), m.orders[id];
            && after.orders == m.orders[id := o.(refundRequested := true, status := OrderStatus.Refunded, updatedAt := now)]
            && after.releases == m.releases
            && o.buyer in after.bank.wallets
            && after.bank.wallets[o.buyer].balance ==
               (if o.buyer in m.bank.wallets then m.bank.wallets[o.buyer].balance else 0) + amount
  {
    WhenAnOrderIsRefunded(m.orders[id], amount, now);
  }

  /** A sale goes through exactly when the buyer holds the price; the order it leaves carries its exact terms. */
  lemma WhenASaleGoesThrough(m: Market, buyer: User, seller: User, price: nat, rate: Commissions.Percent, now: Time, config: Config)
    ensures var after := Next(m, Sell(buyer, seller, price, rate, now), config);
            var held := if buyer in m.bank.wallets then m.bank.wallets[buyer].held else 0;
            var funded := price <= held && (buyer in m.bank.wallets || buyer == seller);
            && after.releases == m.releases
            && (!funded ==> after.orders == m.orders)
            && (funded ==>
                  && |after.orders| == |m.orders| + 1 && after.orders[..|m.orders|] == m.orders
                  && var o := after.orders[|m.orders|];
                     && o.buyer == buyer && o.seller == seller && o.total == price && o.status == OrderStatus.Paid
                     && o.createdAt == now && o.updatedAt == now && o.settledAt.None? && o.shipment.None? && o.dispute.None?
                     && !o.refundRequested && o.sellerNet.Some?
                     && o.sellerNet.value + Commissions.Commission(price, rate) ==
                        price + if Commissions.OnHalfCent(price as real * rate / 100.0) then 1 else 0)
  {
    Commissions.CommissionAndNet(price, rate);
    assert price as real * rate / 100.0 == Commissions.ExactFee(price, rate);
  }

  // ---------- A delivered order is dated ----------

  ghost predicate AllDated(m: Market) {
    forall id | 0 <= id < |m.orders| && m.orders[id].status == OrderStatus.Delivered ::
      m.orders[id].shipment.Some? && m.orders[id].shipment.value.deliveredAt.Some?
  }

  lemma NextKeepsDated(m: Market, step: Step, config: Config)
    requires AllDated(m)
    ensures AllDated(Next(m, step, config))
  {
    if step.ReleaseAll? {
      PassKeepsRows(m, |m.orders|, step.at, config);
    }
  }

  /** Over every run, every delivered order has its delivery date. */
  lemma {:induction false} DeliveredIsDated(steps: seq<Step>, config: Config)
    ensures AllDated(Run(steps, config))
  {
    if steps != [] {
      DeliveredIsDated(steps[..|steps| - 1], config);
      NextKeepsDated(Run(steps[..|steps| - 1], config), steps[|steps| - 1], config);
    }
  }

  // ---------- A pass settles what is due ----------

  /** Due: not settled, its net known, no dispute open or in mediation, and confirmed or sold long enough ago. */
  predicate IsDueNow(o: Order, now: Time, config: Config) {
    && o.settledAt.None? && o.sellerNet.Some?
    && o.dispute != Some(DisputeStatus.Open) && o.dispute != Some(DisputeStatus.InMediation)
    && ((o.shipment.Some? && o.shipment.value.deliveredAt.Some? && o.shipment.value.deliveredAt.value + config.holdbackMs <= now)
        || o.createdAt + config.windowMs <= now)
  }

  lemma SettledNow(m: Market, id: nat, now: Time)
    requires Funded(m) && id < |m.orders| && m.orders[id].sellerNet.Some?
    ensures Settled(m, id, now).orders == m.orders[id := m.orders[id].(settledAt := Some(now), updatedAt := now)]
    ensures |Settled(m, id, now).releases| == |m.releases| + 1
    ensures var r := Settled(m, id, now).releases[|m.releases|]; r.order == id && r.at == now && r.row == m.orders[id]
  {
    assert m.orders[id].seller in m.bank.wallets;
  }

  /** The rows after a pass over the first `n`: those due are settled now, and the others as they were. */
  lemma {:induction false} PassRows(m: Market, n: nat, now: Time, config: Config)
    requires Funded(m) && n <= |m.orders|
    ensures var after := Pass(m, n, now, config);
            && Funded(after) && |after.orders| == |m.orders|
            && forall i | 0 <= i < |m.orders| ::
                 after.orders[i] == if i < n && IsDueNow(m.orders[i], now, config)
                                    then m.orders[i].(settledAt := Some(now), updatedAt := now) else m.orders[i]
  {
    if n > 0 {
      PassRows(m, n - 1, now, config);
      var before := Pass(m, n - 1, now, config);
      assert Matured(before.orders[n - 1], now, config) <==> IsDueNow(m.orders[n - 1], now, config);
      if Matured(before.orders[n - 1], now, config) {
        SettledPays(before, n - 1, now);
        SettledNow(before, n - 1, now);
      }
    }
  }

  /** On every market a run reaches, a pass settles the orders that are due, then and there, and touches no other. */
  lemma APassSettlesWhatIsDue(steps: seq<Step>, now: Time, config: Config)
    ensures var m, after := Run(steps, config), Next(Run(steps, config), ReleaseAll(now), config);
            && |after.orders| == |m.orders|
            && forall i | 0 <= i < |m.orders| ::
                 after.orders[i] == if IsDueNow(m.orders[i], now, config)
                                    then m.orders[i].(settledAt := Some(now), updatedAt := now) else m.orders[i]
  {
    RunIsFunded(steps, config);
    PassRows(Run(steps, config), |Run(steps, config).orders|, now, config);
  }

  /**
   The buyer's confirmation of a shipped order dates it, and any pass from the holdback on that finds it
   unsettled and under no live dispute settles it, whatever happened in between.
   */
  lemma ConfirmedSaleIsSettled(steps: seq<Step>, id: nat, at: Time, later: seq<Step>, now: Time, config: Config)
    requires id < |Run(steps, config).orders|
    requires var o := Run(steps, config).orders[id];
             o.shipment.Some? && o.shipment.value.deliveredAt.None? && o.status == OrderStatus.Shipped && o.sellerNet.Some?
    requires at + config.holdbackMs <= now
    ensures var confirmed := steps + [UpdateShipment(Run(steps, config).orders[id].buyer, id, ShipmentStatus.Received, at)];
            var m := Run(confirmed + later, config);
            && id < |m.orders|
            && m.orders[id].shipment.Some? && m.orders[id].shipment.value.deliveredAt == Some(at)
            && (m.orders[id].settledAt.None? && m.orders[id].dispute != Some(DisputeStatus.Open) &&
                m.orders[id].dispute != Some(DisputeStatus.InMediation) ==>
                  Next(m, ReleaseAll(now), config).orders[id].settledAt == Some(now))
  {
    var o := Run(steps, config).orders[id];
    var step := UpdateShipment(o.buyer, id, ShipmentStatus.Received, at);
    RunAppend(steps, step, config);
    WhenTheBuyerConfirms(o, o.buyer, id, at);
    NothingIsTakenBack(steps + [step], later, config);
    assert Continues(Run(steps + [step], config).orders[id], Run(steps + [step] + later, config).orders[id]);
    APassSettlesWhatIsDue(steps + [step] + later, now, config);
  }

  /** An order with a dispute just opened is not settled by any pass while the dispute is open. */
  lemma OpenDisputeHoldsThePay(o: Order, user: User, id: nat, at: Time, now: Time, config: Config)
    requires RowStep(o, OpenDispute(user, id, at)).Success?
    ensures !IsDueNow(RowStep(o, OpenDispute(user, id, at)).value, now, config)
  {
    WhenADisputeOpens(o, user, id, at);
  }
}
