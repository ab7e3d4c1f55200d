/**
 The platform's commission: which rate applies, how it is rounded, and how it is recorded.

 Money is in whole cents and arithmetic is exact; a half cent rounds up.
 */
module Commissions {
  import opened Wrappers

  type Percent = r: real | 0.0 <= r <= 100.0

  const DEFAULT_RATE: Percent := 10.0

  // ---------- Rounding ----------

  function RoundHalfUp(x: real): int {
    (x + 0.5).Floor
  }

  predicate OnHalfCent(x: real) {
    x - 0.5 == (x - 0.5).Floor as real
  }

  /** The exact commission on a sale, in cents and fractions of a cent. */
  function ExactFee(gross: int, rate: Percent): real {
    gross as real * rate / 100.0
  }

  /** The commission as it is recorded. */
  function Commission(gross: int, rate: Percent): int {
    RoundHalfUp(ExactFee(gross, rate))
  }

  /** The seller's net as it is stored on the order; rounded on its own. */
  function SellerNet(gross: int, rate: Percent): int {
    RoundHalfUp(gross as real - ExactFee(gross, rate))
  }

  lemma FeeWithin(gross: nat, rate: Percent)
    ensures 0.0 <= ExactFee(gross, rate) <= gross as real
  {
    var g := gross as real;
    assert 0.0 <= g * rate;
    assert g * rate <= g * 100.0;
  }

  lemma RoundingTwoParts(whole: nat, part: real)
    requires 0.0 <= part <= whole as real
    ensures RoundHalfUp(part) + RoundHalfUp(whole as real - part) == whole + if OnHalfCent(part) then 1 else 0
    ensures 0 <= RoundHalfUp(part) <= whole
    ensures 0 <= RoundHalfUp(whole as real - part) <= whole
  {
    var below := (part - 0.5).Floor;
    assert RoundHalfUp(part) == below + 1;
    assert below as real <= part - 0.5 < (below + 1) as real;
    var rest := whole - below - 1;
    if OnHalfCent(part) {
      assert whole as real - part + 0.5 == (rest + 1) as real;
    } else {
      assert rest as real < whole as real - part + 0.5 < (rest + 1) as real;
    }
  }

  /**
   Commission and net add up to the sale, except that a commission landing on a half cent is rounded
   up on both sides and one cent appears. Both stay within the sale.
   */
  lemma CommissionAndNet(gross: nat, rate: Percent)
    ensures Commission(gross, rate) + SellerNet(gross, rate) ==
            gross + if OnHalfCent(ExactFee(gross, rate)) then 1 else 0
    ensures 0 <= Commission(gross, rate) <= gross
    ensures 0 <= SellerNet(gross, rate) <= gross
  {
    FeeWithin(gross, rate);
    RoundingTwoParts(gross, ExactFee(gross, rate));
  }

  /** The extra cent is real: a quarter per cent of two pesos is half a cent. */
  lemma ExtraCent()
    ensures Commission(200, 0.25) + SellerNet(200, 0.25) == 201
  {
    assert ExactFee(200, 0.25) == 0.5;
    assert OnHalfCent(0.5);
    CommissionAndNet(200, 0.25);
  }

  // ---------- Rates and records ----------

  datatype Record = Record(sellerId: string, amount: int, rate: Percent)

  datatype Order = Order(sellerId: string, totalAmount: nat)

  datatype CommissionError = OrderNotFound

  /** The seller's own rate, else the global one, else ten per cent. */
  function ResolveRate(sellerRates: map<string, Percent>, globalRate: Option<Percent>, sellerId: string): Percent {
    if sellerId in sellerRates then sellerRates[sellerId]
    else if globalRate.Some? then globalRate.value
    else DEFAULT_RATE
  }

  class CommissionsService {
    var records: map<string, Record>
    var sellerRates: map<string, Percent>
    var globalRate: Option<Percent>

    constructor ()
      ensures records == map[] && sellerRates == map[] && globalRate.None?
    {
      records, sellerRates, globalRate := map[], map[], None;
    }

    method UpsertGlobalRate(rate: Percent)
      modifies this`globalRate
      ensures forall s :: ResolveRate(sellerRates, globalRate, s) ==
                          if s in sellerRates then sellerRates[s] else rate
    {
      globalRate := Some(rate);
    }

    method UpsertSellerRate(sellerId: string, rate: Percent)
      modifies this`sellerRates
      ensures forall s :: ResolveRate(sellerRates, globalRate, s) ==
                          if s == sellerId then rate else old(ResolveRate(sellerRates, globalRate, s))
    {
      sellerRates := sellerRates[sellerId := rate];
    }

    /** Writes at most one record per order, and never changes one that exists. */
    method RecordForOrder(orderId: string, rate: Percent, orders: map<string, Order>) returns (error: Option<CommissionError>)
      modifies this`records
      ensures orderId in old(records) ==> error.None? && records == old(records)
      ensures orderId !in old(records) && orderId !in orders ==> error == Some(OrderNotFound) && records == old(records)
      ensures orderId !in old(records) && orderId in orders ==>
                && error.None?
                && records == old(records)[orderId := Record(orders[orderId].sellerId,
                                                             Commission(orders[orderId].totalAmount, rate), rate)]
    {
      if orderId in records {
        return None;
      }
      if orderId !in orders {
        return Some(OrderNotFound);
      }
      var order := orders[orderId];
      var amount := (ExactFee(order.totalAmount, rate) + 0.5).Floor;
      records := records[orderId := Record(order.sellerId, amount, rate)];
      error := None;
    }
  }
}
