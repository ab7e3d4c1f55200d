/**
 Bidding on a lot, its soft close, and the scheduler that starts and closes lots.

 Amounts are whole cents and times milliseconds. Whether the wallet holds or captures the funds, and
 whether a database transaction commits, are parameters; each bid and each close is one step.
 */
module Auctions {
  import opened Wrappers
  import Commissions

  type User = string
  type Time = int

  datatype Status = Draft | Published | Active | Closed | Cancelled | Suspended | PendingModeration

  /** An accepted bid, with the increment that was in force. */
  datatype Bid = Bid(bidder: User, amount: int, increment: int)

  datatype Sale = Sale(buyer: User, seller: User, total: int, sellerNet: int)

  datatype Lot = Lot(
    seller: User,
    status: Status,
    currentPrice: int,
    startsAt: Time,
    endsAt: Time,
    bids: seq<Bid>,
    orders: seq<Sale>)

  datatype BidError = NotFound | NotActive | TooLow | OwnAuction | HoldFailed | NotSaved

  /** What a bid request carries and what it meets: the configuration read for it, the wallet, the database. */
  datatype Request = Request(user: User, amount: int, now: Time, increment: int, windowMs: nat, holdOk: bool, saved: bool)

  // ---------- Bidding ----------

  /** The query for the highest bid, the earliest of equals. */
  function Top(bids: seq<Bid>): (top: Option<Bid>)
    ensures top.None? <==> bids == []
    ensures top.Some? ==> exists i :: IsEarliestTop(bids, i, top.value)
  {
    if bids == [] then None
    else
      var rest, last := bids[..|bids| - 1], bids[|bids| - 1];
      var before := Top(rest);
      if before.None? then
        assert IsEarliestTop(bids, 0, last);
        Some(last)
      else
        TopOfMore(rest, last, before.value);
        assert bids == rest + [last];
        if before.value.amount < last.amount then Some(last) else before
  }

  /** A bid no other exceeds, and none before it equals. */
  predicate IsEarliestTop(bids: seq<Bid>, i: nat, top: Bid) {
    && i < |bids| && bids[i] == top
    && (forall j | 0 <= j < i :: bids[j].amount < top.amount)
    && (forall j | i < j < |bids| :: bids[j].amount <= top.amount)
  }

  lemma TopOfMore(rest: seq<Bid>, last: Bid, before: Bid)
    requires exists i :: IsEarliestTop(rest, i, before)
    ensures if before.amount < last.amount then IsEarliestTop(rest + [last], |rest|, last)
            else exists i :: IsEarliestTop(rest + [last], i, before)
  {
    var i :| IsEarliestTop(rest, i, before);
    if before.amount < last.amount {
      forall j | 0 <= j < |rest| ensures rest[j].amount < last.amount {
        assert rest[j].amount <= before.amount;
      }
    } else {
      assert IsEarliestTop(rest + [last], i, before);
    }
  }

  /** The domain's own rules. A lot that is not active fails the first of them, and only that is reported. */
  function DomainError(lot: Lot, user: User, amount: int): Option<BidError> {
    if lot.status != Active then None // the caller lets PUBLISHED through
    else if amount <= 0 then Some(TooLow)
    else if user == lot.seller then Some(OwnAuction)
    else if amount <= lot.currentPrice then Some(TooLow)
    else None
  }

  function Refusal(lot: Lot, q: Request): Option<BidError> {
    var top := Top(lot.bids);
    if lot.status != Active && lot.status != Published then Some(NotActive)
    else if lot.endsAt < q.now then Some(NotActive)
    else if DomainError(lot, q.user, q.amount).Some? then DomainError(lot, q.user, q.amount)
    else if top.Some? && top.value.bidder == q.user then Some(OwnAuction)
    else if q.amount < lot.currentPrice + q.increment then Some(TooLow)
    else if !q.holdOk then Some(HoldFailed)
    else if !q.saved then Some(NotSaved)
    else None
  }

  function SoftClosed(endsAt: Time, now: Time, windowMs: nat): Time {
    if endsAt - now < windowMs then endsAt + windowMs else endsAt
  }

  function BidPlaced(lot: Lot, q: Request): Lot {
    if Refusal(lot, q).Some? then lot
    else
      lot.(bids := lot.bids + [Bid(q.user, q.amount, q.increment)], currentPrice := q.amount, status := Active,
           endsAt := SoftClosed(lot.endsAt, q.now, q.windowMs))
  }

  // ---------- The scheduler ----------

  function Started(lot: Lot, now: Time): Lot {
    if lot.status.Published? && lot.startsAt <= now then lot.(status := Active) else lot
  }

  /** Closing and selling happen together, or the lot stays open for the next pass. */
  function CloseAttempted(lot: Lot, now: Time, captured: bool, rate: Commissions.Percent): Lot {
    var winner := Top(lot.bids);
    if !lot.status.Active? || now < lot.endsAt then lot
    else if winner.None? then lot.(status := Closed)
    else if !captured then lot
    else SoldTo(lot, winner.value, Commissions.SellerNet(winner.value.amount, rate))
  }

  function SoldTo(lot: Lot, winner: Bid, net: int): Lot {
    lot.(status := Closed, orders := lot.orders + [Sale(winner.bidder, lot.seller, winner.amount, net)])
  }

  // ---------- The services ----------

  class LotTable {
    var lots: seq<Lot>

    constructor ()
      ensures lots == []
    {
      lots := [];
    }
  }

  class BidsService {
    const table: LotTable

    constructor (table: LotTable)
      ensures this.table == table
    {
      this.table := table;
    }

    method PlaceBid(id: nat, q: Request) returns (r: Result<Bid, BidError>)
      modifies table
      ensures id >= |old(table.lots)| ==> r == Failure(NotFound) && table.lots == old(table.lots)
      ensures id < |old(table.lots)| ==>
                var lot := old(table.lots)[id];
                && table.lots == old(table.lots)[id := BidPlaced(lot, q)]
                && r == if Refusal(lot, q).Some? then Failure(Refusal(lot, q).value)
                        else Success(Bid(q.user, q.amount, q.increment))
    {
      if id >= |table.lots| {
        return Failure(NotFound);
      }
      var lot := table.lots[id];
      var top := Top(lot.bids);

      if lot.status != Active && lot.status != Published {
        return Failure(NotActive);
      }
      if lot.endsAt < q.now {
        return Failure(NotActive);
      }
      var domain := DomainError(lot, q.user, q.amount);
      if domain.Some? {
        return Failure(domain.value);
      }
      if top.Some? && top.value.bidder == q.user {
        return Failure(OwnAuction);
      }
      if q.amount < lot.currentPrice + q.increment {
        return Failure(TooLow);
      }
      if !q.holdOk {
        return Failure(HoldFailed);
      }

      var newEndsAt := lot.endsAt;
      var timeRemaining := lot.endsAt - q.now;
      if timeRemaining < q.windowMs {
        newEndsAt := lot.endsAt + q.windowMs;
      }
      if !q.saved {
        return Failure(NotSaved);
      }
      var bid := Bid(q.user, q.amount, q.increment);
      table.lots := table.lots[id := lot.(bids := lot.bids + [bid], currentPrice := q.amount, status := Active,
                                          endsAt := newEndsAt)];
      return Success(bid);
    }
  }

  class AuctionScheduler {
    const table: LotTable

    constructor (table: LotTable)
      ensures this.table == table
    {
      this.table := table;
    }

    method StartScheduledAuctions(now: Time)
      modifies table
      ensures |table.lots| == |old(table.lots)|
      ensures forall i | 0 <= i < |table.lots| :: table.lots[i] == Started(old(table.lots)[i], now)
    {
      for i := 0 to |table.lots|
        invariant |table.lots| == |old(table.lots)|
        invariant forall k | 0 <= k < i :: table.lots[k] == Started(old(table.lots)[k], now)
        invariant forall k | i <= k < |table.lots| :: table.lots[k] == old(table.lots)[k]
      {
        var lot := table.lots[i];
        if lot.status == Published && lot.startsAt <= now {
          table.lots := table.lots[i := lot.(status := Active)];
        }
      }
    }

    /** `captured` says for which lots the transaction with the winner's funds commits. */
    method CloseExpiredAuctions(now: Time, captured: nat -> bool, rates: nat -> Commissions.Percent)
      modifies table
      ensures |table.lots| == |old(table.lots)|
      ensures forall i | 0 <= i < |table.lots| ::
                table.lots[i] == CloseAttempted(old(table.lots)[i], now, captured(i), rates(i))
    {
      for i := 0 to |table.lots|
        invariant |table.lots| == |old(table.lots)|
        invariant forall k | 0 <= k < i :: table.lots[k] == CloseAttempted(old(table.lots)[k], now, captured(k), rates(k))
        invariant forall k | i <= k < |table.lots| :: table.lots[k] == old(table.lots)[k]
      {
        var lot := table.lots[i];
        if lot.status == Active && lot.endsAt <= now {
          var winner := Top(lot.bids);
          if winner.None? {
            table.lots := table.lots[i := lot.(status := Closed)];
          } else if captured(i) {
            var total := winner.value.amount;
            var sale := Sale(winner.value.bidder, lot.seller, total, Commissions.SellerNet(total, rates(i)));
            table.lots := table.lots[i := lot.(status := Closed, orders := lot.orders + [sale])];
          }
        }
      }
    }
  }

  // ---------- Every run of one lot ----------

  datatype Step =
    | Place(q: Request)
    | Start(at: Time)
    | Close(when: Time, captured: bool, rate: Commissions.Percent)

  function Next(lot: Lot, step: Step): Lot {
    match step
    case Place(q) => BidPlaced(lot, q)
    case Start(at) => Started(lot, at)
    case Close(when, captured, rate) => CloseAttempted(lot, when, captured, rate)
  }

  function Run(lot: Lot, steps: seq<Step>): Lot {
    if steps == [] then lot else Next(Run(lot, steps[..|steps| - 1]), steps[|steps| - 1])
  }

  predicate Unsold(lot: Lot) {
    lot.bids == [] && lot.orders == [] && lot.status != Closed
  }

  /** The configured increment is positive; the wallet and the clock may do anything. */
  predicate PositiveIncrement(step: Step) {
    step.Place? ==> step.q.increment > 0
  }

  /** A bid tops the one before by at least the increment in force, and is someone else's. */
  predicate Tops(next: Bid, before: Bid) {
    next.increment > 0 && next.amount >= before.amount + next.increment && next.bidder != before.bidder
  }

  ghost predicate Climbs(bids: seq<Bid>) {
    forall i, j | 0 <= i < j < |bids| && j == i + 1 :: Tops(bids[j], bids[i])
  }

  ghost predicate Fair(lot: Lot) {
    && Climbs(lot.bids)
    && (lot.bids != [] ==> lot.currentPrice == lot.bids[|lot.bids| - 1].amount && lot.status in {Active, Closed})
    && (lot.status != Closed ==> lot.orders == [])
    && (lot.status == Closed ==>
          if lot.bids == [] then lot.orders == []
          else
            var last := lot.bids[|lot.bids| - 1];
            |lot.orders| == 1 && lot.orders[0].buyer == last.bidder && lot.orders[0].total == last.amount &&
            lot.orders[0].seller == lot.seller)
  }

  lemma {:induction false} ClimbsTo(bids: seq<Bid>, i: nat, j: nat)
    requires Climbs(bids) && i < j < |bids|
    ensures bids[i].amount < bids[j].amount
  {
    assert Tops(bids[j], bids[j - 1]);
    if i < j - 1 {
      ClimbsTo(bids, i, j - 1);
    }
  }

  /** The highest bid is the last one. */
  lemma {:induction false} TopIsLast(bids: seq<Bid>)
    requires Climbs(bids) && bids != []
    ensures Top(bids) == Some(bids[|bids| - 1])
  {
    var last := |bids| - 1;
    if last > 0 {
      assert Tops(bids[last], bids[last - 1]);
      TopIsLast(bids[..last]);
    }
  }

  lemma AcceptedTopsTheLast(lot: Lot, q: Request)
    requires Fair(lot) && Refusal(lot, q).None?
    ensures lot.status in {Active, Published}
    ensures lot.bids != [] ==>
              var last := lot.bids[|lot.bids| - 1];
              q.amount >= last.amount + q.increment && q.user != last.bidder
  {
    if lot.bids != [] {
      TopIsLast(lot.bids);
    }
  }

  lemma BidKeepsFair(lot: Lot, q: Request)
    requires Fair(lot) && q.increment > 0
    ensures Fair(BidPlaced(lot, q))
  {
    if Refusal(lot, q).None? {
      AcceptedTopsTheLast(lot, q);
    }
  }

  lemma CloseKeepsFair(lot: Lot, now: Time, captured: bool, rate: Commissions.Percent)
    requires Fair(lot)
    ensures Fair(CloseAttempted(lot, now, captured, rate))
  {
    if lot.bids != [] && lot.status.Active? {
      SoldKeepsFair(lot, Commissions.SellerNet(Top(lot.bids).value.amount, rate));
    }
  }

  lemma SoldKeepsFair(lot: Lot, net: int)
    requires Fair(lot) && lot.bids != [] && lot.status.Active?
    ensures Fair(SoldTo(lot, Top(lot.bids).value, net))
  {
    TopIsLast(lot.bids);
  }

  lemma NextKeepsFair(lot: Lot, step: Step)
    requires Fair(lot) && PositiveIncrement(step)
    ensures Fair(Next(lot, step))
  {
    if step.Place? {
      BidKeepsFair(lot, step.q);
    } else if step.Close? {
      CloseKeepsFair(lot, step.when, step.captured, step.rate);
    }
  }

  lemma {:induction false} RunIsFair(lot: Lot, steps: seq<Step>)
    requires Unsold(lot)
    requires forall i | 0 <= i < |steps| :: PositiveIncrement(steps[i])
    ensures Fair(Run(lot, steps))
  {
    if steps != [] {
      RunIsFair(lot, steps[..|steps| - 1]);
      NextKeepsFair(Run(lot, steps[..|steps| - 1]), steps[|steps| - 1]);
    }
  }

  /** The first accepted bid tops the starting price by the increment; until then the price stays. */
  ghost predicate StartsFrom(lot: Lot, price: int) {
    if lot.bids == [] then lot.currentPrice == price
    else lot.bids[0].amount >= price + lot.bids[0].increment
  }

  lemma {:induction false} FirstBidTopsTheStart(lot: Lot, steps: seq<Step>)
    requires lot.bids == []
    ensures StartsFrom(Run(lot, steps), lot.currentPrice)
  {
    if steps != [] {
      FirstBidTopsTheStart(lot, steps[..|steps| - 1]);
    }
  }

  /**
   Along any run the first accepted bid tops the starting price by at least the increment in force and
   each later one tops the one before likewise, nobody outbids themselves, and the highest bid is the
   last accepted one and the current price.
   */
  lemma BidsClimb(lot: Lot, steps: seq<Step>)
    requires Unsold(lot)
    requires forall i | 0 <= i < |steps| :: PositiveIncrement(steps[i])
    ensures var bids := Run(lot, steps).bids;
            && Climbs(bids)
            && (forall i, j | 0 <= i < j < |bids| :: bids[i].amount < bids[j].amount)
            && (bids != [] ==> bids[0].amount >= lot.currentPrice + bids[0].increment)
            && (bids != [] ==> Top(bids) == Some(bids[|bids| - 1]) && Run(lot, steps).currentPrice == bids[|bids| - 1].amount)
  {
    RunIsFair(lot, steps);
    FirstBidTopsTheStart(lot, steps);
    var bids := Run(lot, steps).bids;
    forall i, j | 0 <= i < j < |bids| ensures bids[i].amount < bids[j].amount {
      ClimbsTo(bids, i, j);
    }
    if bids != [] {
      TopIsLast(bids);
    }
  }

  /** A closed lot has one order, the last bidder's at their price, exactly when it has a bid. */
  lemma OneOrderPerSoldLot(lot: Lot, steps: seq<Step>)
    requires Unsold(lot)
    requires forall i | 0 <= i < |steps| :: PositiveIncrement(steps[i])
    ensures var after := Run(lot, steps);
            && (after.orders != [] <==> after.status == Closed && after.bids != [])
            && |after.orders| <= 1
            && (after.orders != [] ==>
                  var last := after.bids[|after.bids| - 1];
                  after.orders[0].buyer == last.bidder && after.orders[0].total == last.amount)
  {
    RunIsFair(lot, steps);
  }

  /** Nothing happens to a closed lot: no bid, no second order. */
  lemma {:induction false} ClosedForGood(lot: Lot, steps: seq<Step>)
    requires lot.status == Closed
    ensures Run(lot, steps) == lot
  {
    if steps != [] {
      ClosedForGood(lot, steps[..|steps| - 1]);
    }
  }

  /** The end never comes nearer, moves by a whole window if at all, and is then at least one away. */
  lemma SoftClose(lot: Lot, q: Request)
    requires Refusal(lot, q).None?
    ensures BidPlaced(lot, q).endsAt >= lot.endsAt
    ensures BidPlaced(lot, q).endsAt >= q.now + q.windowMs
    ensures BidPlaced(lot, q).endsAt > lot.endsAt <==> lot.endsAt < q.now + q.windowMs
    ensures BidPlaced(lot, q).endsAt == lot.endsAt || BidPlaced(lot, q).endsAt == lot.endsAt + q.windowMs
  {
  }

  lemma {:induction false} EndNeverRetreats(lot: Lot, steps: seq<Step>)
    ensures Run(lot, steps).endsAt >= lot.endsAt
    ensures |Run(lot, steps).bids| >= |lot.bids| && Run(lot, steps).bids[..|lot.bids|] == lot.bids
  {
    if steps != [] {
      EndNeverRetreats(lot, steps[..|steps| - 1]);
    }
  }

  /** Once the end has passed, started or not, no bid of any later run is accepted and the end stays. */
  lemma {:induction false} NoBidAfterTheEnd(lot: Lot, steps: seq<Step>)
    requires forall i | 0 <= i < |steps| && steps[i].Place? :: lot.endsAt < steps[i].q.now
    ensures var after := Run(lot, steps);
            after.bids == lot.bids && after.endsAt == lot.endsAt && after.currentPrice == lot.currentPrice
  {
    if steps != [] {
      NoBidAfterTheEnd(lot, steps[..|steps| - 1]);
    }
  }

  /**
   The rule against bidding on one's own lot holds only once the lot is active. On a published one the
   seller is refused exactly when a stranger would be.
   */
  lemma WhenTheSellerMayBid(lot: Lot, steps: seq<Step>, q: Request, stranger: User)
    requires Unsold(lot)
    requires forall i | 0 <= i < |steps| :: PositiveIncrement(steps[i])
    requires q.user == Run(lot, steps).seller && stranger != q.user
    requires Refusal(Run(lot, steps), q.(user := stranger)).None?
    ensures Refusal(Run(lot, steps), q).None? <==> Run(lot, steps).status.Published?
  {
    RunIsFair(lot, steps);
  }

  lemma SellerBidsOnTheirOwnLot()
    ensures var lot := Lot("s", Published, 1_000, 100, 10_000, [], []);
            var after := BidPlaced(lot, Request("s", 2_000, 5, 1_000, 120_000, true, true));
            after.bids == [Bid("s", 2_000, 1_000)] && after.status == Active
  {
  }

  // ---------- What each step does to a lot ----------

  /** On every lot a run reaches: which bids are accepted, and what an accepted one leaves. */
  lemma WhenABidIsAccepted(start: Lot, steps: seq<Step>, q: Request)
    requires Unsold(start)
    requires forall i | 0 <= i < |steps| :: PositiveIncrement(steps[i])
    requires q.increment > 0
    ensures var lot := Run(start, steps);
            Next(lot, Place(q)) ==
            if Acceptable(lot, q) then
              Lot(lot.seller, Status.Active, q.amount, lot.startsAt,
                  if lot.endsAt - q.now < q.windowMs then lot.endsAt + q.windowMs else lot.endsAt,
                  lot.bids + [Bid(q.user, q.amount, q.increment)], lot.orders)
            else lot
  {
    RunIsFair(start, steps);
    AcceptedOnAFairLot(Run(start, steps), q);
  }

  /** In time, not the seller's once active, not the last bidder's again, high enough, and held and saved. */
  predicate Acceptable(lot: Lot, q: Request) {
    && (lot.status.Active? || lot.status.Published?) && q.now <= lot.endsAt
    && (lot.status.Active? ==> q.amount > 0 && q.user != lot.seller)
    && (lot.bids != [] ==> q.user != lot.bids[|lot.bids| - 1].bidder)
    && q.amount >= lot.currentPrice + q.increment
    && q.holdOk && q.saved
  }

  lemma AcceptedOnAFairLot(lot: Lot, q: Request)
    requires Fair(lot) && q.increment > 0
    ensures Refusal(lot, q).None? <==> Acceptable(lot, q)
  {
    if lot.bids != [] { TopIsLast(lot.bids); }
  }

  /** What a refusal says of the bid it refuses. */
  lemma WhyABidIsRefused(lot: Lot, q: Request)
    ensures Refusal(lot, q) == Some(NotActive) <==> !(lot.status.Active? || lot.status.Published?) || lot.endsAt < q.now
    ensures Refusal(lot, q) == Some(OwnAuction) ==> q.user == lot.seller || exists b :: b in lot.bids && b.bidder == q.user
    ensures Refusal(lot, q) == Some(TooLow) ==>
              q.amount <= 0 || q.amount <= lot.currentPrice || q.amount < lot.currentPrice + q.increment
    ensures Refusal(lot, q) == Some(HoldFailed) ==> !q.holdOk
    ensures Refusal(lot, q) == Some(NotSaved) ==> q.holdOk && !q.saved
    ensures Refusal(lot, q) != Some(NotFound)
  {
    var top := Top(lot.bids);
    if top.Some? {
      var i :| IsEarliestTop(lot.bids, i, top.value);
      assert top.value in lot.bids;
    }
  }

  /** A published lot becomes active when its start has come, and nothing else of any lot changes. */
  lemma WhenALotStarts(lot: Lot, at: Time)
    ensures Next(lot, Start(at)) ==
            if lot.status.Published? && lot.startsAt <= at then
              Lot(lot.seller, Status.Active, lot.currentPrice, lot.startsAt, lot.endsAt, lot.bids, lot.orders)
            else lot
  {
  }

  /** The sale of a lot to its last bidder, at the rate in force when it was closed. */
  ghost predicate SoldAt(lot: Lot, sale: Sale, rate: Commissions.Percent) {
    && lot.bids != []
    && var last := lot.bids[|lot.bids| - 1];
       && sale.buyer == last.bidder && sale.total == last.amount && sale.seller == lot.seller
       && last.amount as real * (1.0 - rate / 100.0) - 0.5 < sale.sellerNet as real <= last.amount as real * (1.0 - rate / 100.0) + 0.5
  }

  /** Step `k` closed the lot: active and past its end, it closed with no bid, or with its one sale. */
  ghost predicate ClosedAt(start: Lot, steps: seq<Step>, k: nat) {
    && k < |steps| && steps[k].Close?
    && var before, after := Run(start, steps[..k]), Run(start, steps);
       && before.status.Active? && before.endsAt <= steps[k].when
       && after.bids == before.bids && after.endsAt == before.endsAt && after.currentPrice == before.currentPrice
       && if before.bids == [] then after.orders == []
          else steps[k].captured && |after.orders| == 1 && SoldAt(before, after.orders[0], steps[k].rate)
  }

  lemma SellerNetIsNearest(total: int, rate: Commissions.Percent)
    ensures total as real * (1.0 - rate / 100.0) - 0.5 < Commissions.SellerNet(total, rate) as real
            <= total as real * (1.0 - rate / 100.0) + 0.5
  {
    var x := total as real - total as real * rate / 100.0;
    assert x == total as real * (1.0 - rate / 100.0);
    assert x + 0.5 - 1.0 < Commissions.RoundHalfUp(x) as real <= x + 0.5;
  }

  /** What a close does: a lot that is active and past its end closes, if its sale can be written. */
  lemma WhenALotCloses(lot: Lot, when: Time, captured: bool, rate: Commissions.Percent)
    requires Fair(lot) && lot.status != Status.Closed
    ensures var after := Next(lot, Close(when, captured, rate));
            var closes := lot.status.Active? && lot.endsAt <= when && (lot.bids == [] || captured);
            && (!closes ==> after == lot)
            && (closes ==>
                  && after == lot.(status := Status.Closed, orders := after.orders)
                  && if lot.bids == [] then after.orders == [] else |after.orders| == 1 && SoldAt(lot, after.orders[0], rate))
  {
    if lot.bids != [] {
      TopIsLast(lot.bids);
      SellerNetIsNearest(lot.bids[|lot.bids| - 1].amount, rate);
    }
  }

  /**
   A run closes a lot at one step, no earlier than its end, and sells it there to the last bidder, at their
   amount, less the commission at that step's rate to within half a cent.
   */
  lemma {:induction false} ClosedByOneStep(start: Lot, steps: seq<Step>)
    requires Unsold(start)
    requires forall i | 0 <= i < |steps| :: PositiveIncrement(steps[i])
    requires Run(start, steps).status.Closed?
    ensures exists k: nat :: ClosedAt(start, steps, k)
  {
    if steps != [] {
      var n := |steps| - 1;
      var before, step := Run(start, steps[..n]), steps[n];
      RunIsFair(start, steps[..n]);
      if before.status.Closed? {
        ClosedByOneStep(start, steps[..n]);
        var k: nat :| ClosedAt(start, steps[..n], k);
        assert steps[..n][..k] == steps[..k] && steps[..n][k] == steps[k];
        assert Next(before, step) == before;
        assert ClosedAt(start, steps, k);
      } else {
        WhenALotCloses(before, step.when, step.captured, step.rate);
        assert ClosedAt(start, steps, n);
      }
    }
  }
}
