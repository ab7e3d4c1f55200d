/**
 Paying the seller. A sale's net waits as pending until the buyer confirmed reception some time ago
 or the dispute window since the sale is over, and never moves under a live dispute.

 One pass of the settlement job is one step; the rows come in table order.
 */
module Settlement {
  import opened Wrappers
  import opened Orders
  import Commissions
  import W = Wallets
  import WalletRuns

  /** Holdback after the confirmation and dispute window after the sale, both configurable. */
  datatype Config = Config(holdbackMs: nat, windowMs: nat)

  /** A settled order as it was when the job marked it, and whether its money really moved. */
  datatype Release = Release(order: nat, row: Order, at: Time, paid: bool)

  datatype Market = Market(orders: seq<Order>, bank: W.Bank, releases: seq<Release>)

  // ---------- Which orders are mature ----------

  predicate LiveDispute(o: Order) {
    o.dispute == Some(Open) || o.dispute == Some(InMediation)
  }

  predicate ConfirmedLongAgo(o: Order, now: Time, config: Config) {
    o.DeliveredAt().Some? && o.DeliveredAt().value <= now - config.holdbackMs
  }

  predicate WindowOver(o: Order, now: Time, config: Config) {
    o.createdAt <= now - config.windowMs
  }

  predicate Matured(o: Order, now: Time, config: Config) {
    && o.settledAt.None? && o.sellerNet.Some?
    && !LiveDispute(o)
    && (ConfirmedLongAgo(o, now, config) || WindowOver(o, now, config))
  }

  /** SQL's truth values. */
  datatype Tri = True | False | Unknown

  function Not(a: Tri): Tri {
    match a case True => False case False => True case Unknown => Unknown
  }

  function And(a: Tri, b: Tri): Tri {
    if a == False || b == False then False else if a == Unknown || b == Unknown then Unknown else True
  }

  function Or(a: Tri, b: Tri): Tri {
    Not(And(Not(a), Not(b)))
  }

  function Known(b: bool): Tri {
    if b then True else False
  }

  /** `column IN (OPEN, IN_MEDIATION)` over the left join. */
  function StatusIsLive(dispute: Option<DisputeStatus>): Tri {
    if dispute.None? then Unknown else Known(dispute.value.Open? || dispute.value.InMediation?)
  }

  function NotAfter(time: Option<Time>, limit: Time): Tri {
    if time.None? then Unknown else Known(time.value <= limit)
  }

  /** The emitted filter on the dispute: `NOT (status IN (...) AND id IS NOT NULL)`. */
  function DisputeFilter(dispute: Option<DisputeStatus>): Tri {
    Not(And(StatusIsLive(dispute), Known(dispute.Some?)))
  }

  /** The whole WHERE clause. */
  function Where(o: Order, now: Time, config: Config): Tri {
    And(And(Known(o.settledAt.None?), Known(o.sellerNet.Some?)),
        And(DisputeFilter(o.dispute),
            Or(NotAfter(o.DeliveredAt(), now - config.holdbackMs), NotAfter(Some(o.createdAt), now - config.windowMs))))
  }

  /** The query keeps a row exactly when it is mature, with or without a dispute or a shipment. */
  lemma WhereSelectsTheMature(o: Order, now: Time, config: Config)
    ensures Where(o, now, config) == True <==> Matured(o, now, config)
  {
    var delivered := NotAfter(o.DeliveredAt(), now - config.holdbackMs);
    assert delivered == True <==> ConfirmedLongAgo(o, now, config);
  }

  /** Without the null test on the joined row, no order free of disputes would ever be selected. */
  lemma NullTestIsNeeded(o: Order)
    ensures Not(StatusIsLive(o.dispute)) == True <==> o.dispute.Some? && !LiveDispute(o)
    ensures DisputeFilter(o.dispute) == True <==> !LiveDispute(o)
  {
  }

  // ---------- One pass of the job ----------

  function Settled(m: Market, id: nat, now: Time): Market
    requires id < |m.orders| && m.orders[id].sellerNet.Some?
  {
    var o := m.orders[id];
    var paid := W.SettlementReleased(m.bank, o.seller, o.sellerNet.value);
    if paid.error.Some? then m // the transaction is undone and the order stays
    else
      Market(m.orders[id := o.(settledAt := Some(now), updatedAt := now)], paid.bank,
             m.releases + [Release(id, o, now, o.seller in m.bank.wallets && m.bank.wallets[o.seller].pending >= o.sellerNet.value)])
  }

  /** The pass over the first `n` rows. */
  function Pass(m: Market, n: nat, now: Time, config: Config): (m': Market)
    requires n <= |m.orders|
    ensures |m'.orders| == |m.orders|
    ensures forall i | n <= i < |m.orders| :: m'.orders[i] == m.orders[i]
  {
    if n == 0 then m
    else
      var before := Pass(m, n - 1, now, config);
      if Matured(before.orders[n - 1], now, config) then Settled(before, n - 1, now) else before
  }

  class SettlementScheduler {
    const table: OrderTable
    const wallet: W.WalletService
    const config: Config
    var releases: seq<Release>

    constructor (table: OrderTable, wallet: W.WalletService, config: Config)
      ensures this.table == table && this.wallet == wallet && this.config == config && releases == []
    {
      this.table, this.wallet, this.config, releases := table, wallet, config, [];
    }

    ghost function View(): Market
      reads this, table, wallet
    {
      Market(table.orders, wallet.View(), releases)
    }

    /** Selects the mature orders first, then settles them one transaction at a time. */
    method ReleaseMaturedSettlements(now: Time)
      modifies this, table, wallet
      ensures View() == Pass(old(View()), |old(table.orders)|, now, config)
    {
      var cutoff := now - config.windowMs;
      var confirmCutoff := now - config.holdbackMs;
      var n := |table.orders|;
      var matured: seq<bool> := [];
      for i := 0 to n
        invariant |matured| == i
        invariant forall k | 0 <= k < i :: matured[k] == Matured(table.orders[k], now, config)
      {
        var o := table.orders[i];
        var delivered := o.DeliveredAt();
        var live := o.dispute.Some? && (o.dispute.value == Open || o.dispute.value == InMediation);
        matured := matured + [o.settledAt.None? && o.sellerNet.Some? && !live &&
                              ((delivered.Some? && delivered.value <= confirmCutoff) || o.createdAt <= cutoff)];
      }
      for i := 0 to n
        invariant |table.orders| == n
        invariant View() == Pass(old(View()), i, now, config)
        invariant forall k | i <= k < n :: table.orders[k] == old(table.orders)[k]
      {
        if matured[i] {
          SettleOne(i, now);
        }
      }
    }

    method SettleOne(id: nat, now: Time)
      requires id < |table.orders| && table.orders[id].sellerNet.Some?
      modifies this, table, wallet
      ensures View() == Settled(old(View()), id, now)
    {
      var order := table.orders[id];
      var paid := order.seller in wallet.wallets && wallet.wallets[order.seller].pending >= order.sellerNet.value;
      var error := wallet.ReleaseSettlement(order.seller, order.sellerNet.value);
      if error.None? {
        table.orders := table.orders[id := order.(settledAt := Some(now), updatedAt := now)];
        releases := releases + [Release(id, order, now, paid)];
      }
    }
  }

  // ---------- Every run ----------

  datatype Step =
    | Sell(buyer: User, seller: User, price: nat, rate: Commissions.Percent, at: Time)
    | CreateShipment(user: User, id: nat)
    | UpdateShipment(user: User, id: nat, status: ShipmentStatus, at: Time)
    | OpenDispute(user: User, id: nat, at: Time)
    | MarkDispute(id: nat, dispute: DisputeStatus)
    | Refund(id: nat, amount: int, at: Time)
    | ReleaseAll(at: Time)
    | Bank(op: WalletRuns.Op)

  /** A closed auction's sale: captured funds and a paid order, together or not at all. */
  function Sold(m: Market, buyer: User, seller: User, price: nat, rate: Commissions.Percent, now: Time): Market {
    var captured := W.Captured(m.bank, buyer, seller, price, rate);
    if captured.error.Some? then m.(bank := captured.bank)
    else
      Commissions.CommissionAndNet(price, rate);
      m.(bank := captured.bank,
         orders := m.orders + [Order(buyer, seller, price, Paid, now, now, Some(Commissions.SellerNet(price, rate)), None,
                                     None, None, false)])
  }

  function RefundedSale(m: Market, id: nat, amount: int, now: Time): Market {
    if id >= |m.orders| then m
    else
      var r := RefundCreated(m.orders[id], amount, now);
      if r.Failure? then m
      else
        m.(orders := m.orders[id := r.value],
           bank := W.SaleReversed(m.bank, r.value.buyer, r.value.seller, amount))
  }

  function RowStep(o: Order, step: Step): Result<Order, OrderError> {
    match step
    case CreateShipment(user, _) => ShipmentCreated(o, user)
    case UpdateShipment(user, _, status, at) => ShipmentUpdated(o, user, status, at)
    case OpenDispute(user, _, at) => DisputeOpened(o, user, at)
    case MarkDispute(_, dispute) => DisputeMarked(o, dispute)
    case _ => Failure(NotFound)
  }

  predicate OnRow(step: Step) {
    step.CreateShipment? || step.UpdateShipment? || step.OpenDispute? || step.MarkDispute?
  }

  /** Wallet operations that are not part of a sale. */
  predicate OutsideSales(op: WalletRuns.Op) {
    !op.Capture? && !op.Settle? && !op.Reverse?
  }

  function Next(m: Market, step: Step, config: Config): Market {
    match step
    case Sell(buyer, seller, price, rate, at) => Sold(m, buyer, seller, price, rate, at)
    case Refund(id, amount, at) => RefundedSale(m, id, amount, at)
    case ReleaseAll(at) => Pass(m, |m.orders|, at, config)
    case Bank(op) => if OutsideSales(op) then m.(bank := WalletRuns.Apply(m.bank, op).bank) else m
    case _ => if step.id < |m.orders| then m.(orders := Written(m.orders, step.id, RowStep(m.orders[step.id], step))) else m
  }

  function Run(steps: seq<Step>, config: Config): Market {
    if steps == [] then Market([], W.EMPTY_BANK, [])
    else Next(Run(steps[..|steps| - 1], config), steps[|steps| - 1], config)
  }
}
