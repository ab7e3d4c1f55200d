/** What holds of every run of sales, shipments, disputes, refunds and settlement passes. */
module SettlementRuns {
  import opened Wrappers
  import opened Orders
  import opened Settlement
  import opened Tally
  import Commissions
  import W = Wallets
  import WalletRuns

  // ---------- What never changes in a row ----------

  /** The sale is fixed; a delivery date or a settlement, once written, does not move. */
  predicate Continues(o: Order, o': Order) {
    && o'.buyer == o.buyer && o'.seller == o.seller && o'.total == o.total
    && o'.createdAt == o.createdAt && o'.sellerNet == o.sellerNet
    && (o.DeliveredAt().Some? ==> o'.DeliveredAt() == o.DeliveredAt())
    && (o.settledAt.Some? ==> o'.settledAt == o.settledAt)
    && (o.dispute.Some? ==> o'.dispute.Some?)
  }

  lemma RowStepContinues(o: Order, step: Step)
    requires OnRow(step) && RowStep(o, step).Success?
    ensures Continues(o, RowStep(o, step).value) && RowStep(o, step).value.settledAt == o.settledAt
  {
  }

  /** A delivery date appears only by the buyer's own confirmation, at the moment it is made. */
  lemma OnlyTheBuyerConfirms(o: Order, step: Step)
    requires OnRow(step) && RowStep(o, step).Success?
    requires o.DeliveredAt().None? && RowStep(o, step).value.DeliveredAt().Some?
    ensures step.UpdateShipment? && step.status.Received? && step.user == o.buyer
    ensures o.status.Shipped?
    ensures RowStep(o, step).value.DeliveredAt() == Some(step.at)
  {
  }

  // ---------- Releases ----------

  function ReleasesOf(m: Market, id: nat): nat {
    Count(m.releases, (r: Release) => r.order == id)
  }

  /** A release was due when it was made, on a row the order still continues. */
  predicate Due(m: Market, r: Release, config: Config) {
    && r.order < |m.orders|
    && Matured(r.row, r.at, config)
    && Continues(r.row, m.orders[r.order])
  }

  function Marks(m: Market, id: nat): nat {
    if id < |m.orders| && m.orders[id].settledAt.Some? then 1 else 0
  }

  /** An order has one release if it is settled, and none if not. */
  ghost predicate Counted(m: Market) {
    forall id: nat :: ReleasesOf(m, id) == Marks(m, id)
  }

  ghost predicate EachDue(m: Market, config: Config) {
    forall k | 0 <= k < |m.releases| :: Due(m, m.releases[k], config)
  }

  ghost predicate Orderly(m: Market, config: Config) {
    Counted(m) && EachDue(m, config)
  }

  lemma RowsKeepOrderly(m: Market, m': Market, config: Config)
    requires Orderly(m, config)
    requires m'.releases == m.releases && |m'.orders| >= |m.orders|
    requires forall i | 0 <= i < |m.orders| :: Continues(m.orders[i], m'.orders[i]) && m'.orders[i].settledAt == m.orders[i].settledAt
    requires forall i | |m.orders| <= i < |m'.orders| :: m'.orders[i].settledAt.None?
    ensures Orderly(m', config)
  {
    forall id: nat ensures ReleasesOf(m', id) == ReleasesOf(m, id) {
      CountSame(m.releases, (r: Release) => r.order == id, (r: Release) => r.order == id);
    }
    forall k | 0 <= k < |m'.releases| ensures Due(m', m'.releases[k], config) {
      assert Due(m, m.releases[k], config);
    }
  }

  lemma ReleasedAppend(m: Market, m': Market, r: Release, id: nat)
    requires m'.releases == m.releases + [r]
    ensures ReleasesOf(m', id) == ReleasesOf(m, id) + if r.order == id then 1 else 0
  {
    CountAppend(m.releases, r, (e: Release) => e.order == id);
  }

  lemma DueAppend(m: Market, m': Market, r: Release, config: Config)
    requires m'.releases == m.releases + [r] && Due(m', r, config) && |m'.orders| == |m.orders| && EachDue(m, config)
    requires forall i | 0 <= i < |m.orders| :: Continues(m.orders[i], m'.orders[i])
    ensures EachDue(m', config)
  {
    forall k | 0 <= k < |m'.releases| ensures Due(m', m'.releases[k], config) {
      if k < |m.releases| {
        assert Due(m, m.releases[k], config);
      }
    }
  }

  lemma SettledMarks(m: Market, id: nat, now: Time, other: nat)
    requires id < |m.orders| && m.orders[id].settledAt.None? && m.orders[id].sellerNet.Some?
    requires ReleasesOf(m, other) == Marks(m, other)
    ensures ReleasesOf(Settled(m, id, now), other) == Marks(Settled(m, id, now), other)
  {
    var m' := Settled(m, id, now);
    if m' != m {
      ReleasedAppend(m, m', m'.releases[|m.releases|], other);
    }
  }

  lemma SettledKeepsCounted(m: Market, id: nat, now: Time)
    requires Counted(m) && id < |m.orders| && m.orders[id].settledAt.None? && m.orders[id].sellerNet.Some?
    ensures Counted(Settled(m, id, now))
  {
    forall other: nat ensures ReleasesOf(Settled(m, id, now), other) == Marks(Settled(m, id, now), other) {
      SettledMarks(m, id, now, other);
    }
  }

  lemma SettledKeepsDue(m: Market, id: nat, now: Time, config: Config)
    requires EachDue(m, config) && id < |m.orders| && Matured(m.orders[id], now, config)
    ensures EachDue(Settled(m, id, now), config)
  {
    var m' := Settled(m, id, now);
    if m' != m {
      DueAppend(m, m', m'.releases[|m.releases|], config);
    }
  }

  lemma SettledKeepsOrderly(m: Market, id: nat, now: Time, config: Config)
    requires Orderly(m, config) && id < |m.orders| && Matured(m.orders[id], now, config)
    ensures Orderly(Settled(m, id, now), config)
    ensures |Settled(m, id, now).orders| == |m.orders|
  {
    SettledKeepsCounted(m, id, now);
    SettledKeepsDue(m, id, now, config);
  }

  lemma {:induction false} PassKeepsOrderly(m: Market, n: nat, now: Time, config: Config)
    requires Orderly(m, config) && n <= |m.orders|
    ensures Orderly(Pass(m, n, now, config), config)
  {
    if n > 0 {
      PassKeepsOrderly(m, n - 1, now, config);
      var before := Pass(m, n - 1, now, config);
      if Matured(before.orders[n - 1], now, config) {
        SettledKeepsOrderly(before, n - 1, now, config);
      }
    }
  }

  lemma RowKeepsOrderly(m: Market, id: nat, o: Order, bank: W.Bank, config: Config)
    requires Orderly(m, config) && id < |m.orders|
    requires Continues(m.orders[id], o) && o.settledAt == m.orders[id].settledAt
    ensures Orderly(m.(orders := m.orders[id := o], bank := bank), config)
  {
    RowsKeepOrderly(m, m.(orders := m.orders[id := o], bank := bank), config);
  }

  lemma NextKeepsOrderly(m: Market, step: Step, config: Config)
    requires Orderly(m, config)
    ensures Orderly(Next(m, step, config), config)
  {
    var m' := Next(m, step, config);
    if step.ReleaseAll? {
      PassKeepsOrderly(m, |m.orders|, step.at, config);
    } else if step.Sell? || step.Bank? {
      RowsKeepOrderly(m, m', config);
    } else if m' != m {
      if OnRow(step) {
        RowStepContinues(m.orders[step.id], step);
      }
      RowKeepsOrderly(m, step.id, m'.orders[step.id], m'.bank, config);
    }
  }

  lemma {:induction false} RunIsOrderly(steps: seq<Step>, config: Config)
    ensures Orderly(Run(steps, config), config)
  {
    if steps != [] {
      RunIsOrderly(steps[..|steps| - 1], config);
      NextKeepsOrderly(Run(steps[..|steps| - 1], config), steps[|steps| - 1], config);
    }
  }

  /**
   In every run each order is released at most once; never under a live dispute; and only once the
   holdback since its one delivery date, or the window since its sale, has passed.
   */
  lemma ReleasedOnceAndInTime(steps: seq<Step>, config: Config)
    ensures var m := Run(steps, config);
            && (forall id: nat :: ReleasesOf(m, id) <= 1)
            && (forall k | 0 <= k < |m.releases| ::
                  var r := m.releases[k];
                  && r.order < |m.orders|
                  && !LiveDispute(r.row)
                  && var o := m.orders[r.order];
                     && o.settledAt.Some?
                     && ((o.DeliveredAt().Some? && o.DeliveredAt().value + config.holdbackMs <= r.at)
                         || o.createdAt + config.windowMs <= r.at))
  {
    var m := Run(steps, config);
    RunIsOrderly(steps, config);
    forall k | 0 <= k < |m.releases|
      ensures Due(m, m.releases[k], config) && m.orders[m.releases[k].order].settledAt.Some?
    {
      var id := m.releases[k].order;
      CountPositive(m.releases, (r: Release) => r.order == id);
      assert ReleasesOf(m, id) > 0 && ReleasesOf(m, id) == Marks(m, id);
    }
  }

  // ---------- What a run never takes back ----------

  ghost predicate ContinuesAll(m: Market, m': Market) {
    |m.orders| <= |m'.orders| && forall id | 0 <= id < |m.orders| :: Continues(m.orders[id], m'.orders[id])
  }

  lemma {:induction false} PassContinues(m: Market, n: nat, now: Time, config: Config)
    requires n <= |m.orders|
    ensures ContinuesAll(m, Pass(m, n, now, config))
  {
    if n > 0 {
      PassContinues(m, n - 1, now, config);
      assert Continues(m.orders[n - 1], Pass(m, n - 1, now, config).orders[n - 1]);
    }
  }

  lemma NextContinues(m: Market, step: Step, config: Config)
    ensures ContinuesAll(m, Next(m, step, config))
  {
    if step.ReleaseAll? {
      PassContinues(m, |m.orders|, step.at, config);
    } else if OnRow(step) && step.id < |m.orders| && RowStep(m.orders[step.id], step).Success? {
      RowStepContinues(m.orders[step.id], step);
    }
  }

  lemma RunAppend(steps: seq<Step>, step: Step, config: Config)
    ensures Run(steps + [step], config) == Next(Run(steps, config), step, config)
  {
    assert (steps + [step])[..|steps|] == steps;
  }

  /**
   Whatever follows, refunds and passes included, a sale keeps its terms, and its delivery date, its
   settlement and its dispute, once there, stay: the first two where they are.
   */
  lemma {:induction false} NothingIsTakenBack(steps: seq<Step>, later: seq<Step>, config: Config)
    ensures ContinuesAll(Run(steps, config), Run(steps + later, config))
  {
    if later == [] {
      assert steps + later == steps;
    } else {
      var n := |later| - 1;
      NothingIsTakenBack(steps, later[..n], config);
      RunAppend(steps + later[..n], later[n], config);
      assert steps + later[..n] + [later[n]] == steps + later;
      NextContinues(Run(steps + later[..n], config), later[n], config);
      ContinuesTogether(Run(steps, config), Run(steps + later[..n], config), Run(steps + later, config));
    }
  }

  lemma ContinuesTogether(a: Market, b: Market, c: Market)
    requires ContinuesAll(a, b) && ContinuesAll(b, c)
    ensures ContinuesAll(a, c)
  {
    forall id | 0 <= id < |a.orders| ensures Continues(a.orders[id], c.orders[id]) {
      assert Continues(a.orders[id], b.orders[id]) && Continues(b.orders[id], c.orders[id]);
    }
  }

  // ---------- The seller cannot hasten the payment ----------

  predicate ActsAsBuyer(step: Step, buyer: User) {
    step.UpdateShipment? && step.user == buyer
  }

  ghost predicate Unconfirmed(m: Market, buyer: User) {
    forall id | 0 <= id < |m.orders| && m.orders[id].buyer == buyer :: m.orders[id].DeliveredAt().None?
  }

  lemma {:induction false} PassKeepsRows(m: Market, n: nat, now: Time, config: Config)
    requires n <= |m.orders|
    ensures forall i | 0 <= i < |m.orders| ::
              Pass(m, n, now, config).orders[i] == m.orders[i] ||
              Pass(m, n, now, config).orders[i] == m.orders[i].(settledAt := Some(now), updatedAt := now)
  {
    if n > 0 {
      PassKeepsRows(m, n - 1, now, config);
    }
  }

  lemma NextKeepsUnconfirmed(m: Market, step: Step, buyer: User, config: Config)
    requires Unconfirmed(m, buyer) && !ActsAsBuyer(step, buyer)
    ensures Unconfirmed(Next(m, step, config), buyer)
  {
    if step.ReleaseAll? {
      PassKeepsRows(m, |m.orders|, step.at, config);
      var m' := Next(m, step, config);
      forall id | 0 <= id < |m'.orders| && m'.orders[id].buyer == buyer ensures m'.orders[id].DeliveredAt().None? {
        assert m.orders[id].buyer == buyer;
      }
    }
  }

  lemma {:induction false} StaysUnconfirmed(steps: seq<Step>, buyer: User, config: Config)
    requires forall i | 0 <= i < |steps| :: !ActsAsBuyer(steps[i], buyer)
    ensures Unconfirmed(Run(steps, config), buyer)
  {
    if steps != [] {
      StaysUnconfirmed(steps[..|steps| - 1], buyer, config);
      NextKeepsUnconfirmed(Run(steps[..|steps| - 1], config), steps[|steps| - 1], buyer, config);
    }
  }

  /**
   Whatever anyone but the buyer does, and however often the job runs, an order's net is not released
   before the window since the sale is over.
   */
  lemma WithoutTheBuyerOnlyTheWindow(steps: seq<Step>, buyer: User, config: Config)
    requires forall i | 0 <= i < |steps| :: !ActsAsBuyer(steps[i], buyer)
    ensures var m := Run(steps, config);
            forall k | 0 <= k < |m.releases| && m.releases[k].order < |m.orders| && m.orders[m.releases[k].order].buyer == buyer ::
              m.orders[m.releases[k].order].createdAt + config.windowMs <= m.releases[k].at
  {
    var m := Run(steps, config);
    ReleasedOnceAndInTime(steps, config);
    StaysUnconfirmed(steps, buyer, config);
  }

  // ---------- When a pass pays what it marks ----------

  function MatureNet(o: Order, seller: User, now: Time, config: Config): nat {
    if o.seller == seller && Matured(o, now, config) then o.sellerNet.value else 0
  }

  /** The nets of a seller's orders that a pass would settle. */
  function Maturing(orders: seq<Order>, seller: User, now: Time, config: Config): nat {
    if orders == [] then 0
    else Maturing(orders[..|orders| - 1], seller, now, config) + MatureNet(orders[|orders| - 1], seller, now, config)
  }

  /** Every seller's pending covers the nets of the first `n` orders that mature. */
  ghost predicate CoversFirst(m: Market, n: nat, now: Time, config: Config)
    requires n <= |m.orders|
  {
    forall seller :: Maturing(m.orders[..n], seller, now, config) <= W.PendingOf(m.bank, seller)
  }

  ghost predicate Covers(m: Market, now: Time, config: Config) {
    forall seller :: Maturing(m.orders, seller, now, config) <= W.PendingOf(m.bank, seller)
  }

  /** Every order's seller has a wallet, and no pending is negative. */
  ghost predicate Funded(m: Market) {
    && (forall id | 0 <= id < |m.orders| :: m.orders[id].seller in m.bank.wallets)
    && (forall user :: W.PendingOf(m.bank, user) >= 0)
  }

  predicate PaidFrom(releases: seq<Release>, from: nat) {
    forall k | from <= k < |releases| :: releases[k].paid
  }

  /** One order settled: its net leaves pending, or is not covered and the release is unpaid. */
  lemma SettledPays(m: Market, id: nat, now: Time)
    requires Funded(m) && id < |m.orders| && m.orders[id].sellerNet.Some?
    ensures var m', o := Settled(m, id, now), m.orders[id];
            var covered := o.sellerNet.value <= W.PendingOf(m.bank, o.seller);
            && Funded(m')
            && |m'.releases| == |m.releases| + 1 && m'.releases[..|m.releases|] == m.releases
            && m'.releases[|m.releases|].paid == covered
            && m'.releases[|m.releases|].row == o
            && (forall s :: W.PendingOf(m'.bank, s) ==
                  W.PendingOf(m.bank, s) - if s == o.seller && covered then o.sellerNet.value else 0)
  {
    var o := m.orders[id];
    assert o.seller in m.bank.wallets;
    var m' := Settled(m, id, now);
    assert m'.releases == m.releases + [m'.releases[|m.releases|]];
    forall i | 0 <= i < |m'.orders| ensures m'.orders[i].seller in m'.bank.wallets {
      assert m'.orders[i].seller == m.orders[i].seller;
    }
    forall s ensures W.PendingOf(m'.bank, s) >= 0 {
      assert W.PendingOf(m.bank, s) >= 0;
    }
  }

  lemma MaturingStep(m: Market, n: nat, seller: User, now: Time, config: Config)
    requires 0 < n <= |m.orders|
    ensures Maturing(m.orders[..n], seller, now, config) ==
            Maturing(m.orders[..n - 1], seller, now, config) + MatureNet(m.orders[n - 1], seller, now, config)
  {
    assert m.orders[..n][..n - 1] == m.orders[..n - 1];
  }

  /** What a pass over the first `n` orders has done while pending covered them. */
  ghost predicate PaidInFull(m: Market, m': Market, n: nat, now: Time, config: Config)
    requires n <= |m.orders|
  {
    && PaidFrom(m'.releases, |m.releases|)
    && forall seller :: W.PendingOf(m'.bank, seller) == W.PendingOf(m.bank, seller) - Maturing(m.orders[..n], seller, now, config)
  }

  ghost predicate PassedSoFar(m: Market, n: nat, now: Time, config: Config)
    requires n <= |m.orders|
  {
    var m' := Pass(m, n, now, config);
    && Funded(m')
    && |m.releases| <= |m'.releases| && m'.releases[..|m.releases|] == m.releases
    && (CoversFirst(m, n, now, config) ==> PaidInFull(m, m', n, now, config))
    && (!CoversFirst(m, n, now, config) ==> !PaidFrom(m'.releases, |m.releases|))
  }

  /** An order that is not mature changes nothing. */
  lemma PassSkips(m: Market, n: nat, now: Time, config: Config)
    requires 0 < n <= |m.orders| && PassedSoFar(m, n - 1, now, config)
    requires !Matured(m.orders[n - 1], now, config)
    ensures PassedSoFar(m, n, now, config)
  {
    forall s ensures Maturing(m.orders[..n], s, now, config) == Maturing(m.orders[..n - 1], s, now, config) {
      MaturingStep(m, n, s, now, config);
    }
    assert CoversFirst(m, n, now, config) <==> CoversFirst(m, n - 1, now, config);
  }

  lemma CoversFewer(m: Market, n: nat, now: Time, config: Config)
    requires 0 < n <= |m.orders| && CoversFirst(m, n, now, config)
    ensures CoversFirst(m, n - 1, now, config)
  {
    forall s ensures Maturing(m.orders[..n - 1], s, now, config) <= W.PendingOf(m.bank, s) {
      MaturingStep(m, n, s, now, config);
    }
  }

  /** While everything so far was covered, the next mature order is paid exactly when it is covered too. */
  lemma NextIsCovered(m: Market, n: nat, now: Time, config: Config)
    requires 0 < n <= |m.orders| && CoversFirst(m, n - 1, now, config) && Matured(m.orders[n - 1], now, config)
    requires PaidInFull(m, Pass(m, n - 1, now, config), n - 1, now, config)
    ensures var o := m.orders[n - 1];
            CoversFirst(m, n, now, config) <==>
            o.sellerNet.value <= W.PendingOf(Pass(m, n - 1, now, config).bank, o.seller)
  {
    var o := m.orders[n - 1];
    MaturingStep(m, n, o.seller, now, config);
    forall s | s != o.seller ensures Maturing(m.orders[..n], s, now, config) <= W.PendingOf(m.bank, s) {
      MaturingStep(m, n, s, now, config);
    }
  }

  lemma StaysUnpaid(before: seq<Release>, after: seq<Release>, from: nat)
    requires from <= |before| <= |after| && after[..|before|] == before && !PaidFrom(before, from)
    ensures !PaidFrom(after, from)
  {
    var k :| from <= k < |before| && !before[k].paid;
    assert after[k] == before[k];
  }

  lemma PaysTheCovered(m: Market, n: nat, now: Time, config: Config)
    requires 0 < n <= |m.orders| && CoversFirst(m, n, now, config) && Matured(m.orders[n - 1], now, config)
    requires PassedSoFar(m, n - 1, now, config)
    ensures PaidInFull(m, Pass(m, n, now, config), n, now, config)
  {
    var before, after := Pass(m, n - 1, now, config), Pass(m, n, now, config);
    CoversFewer(m, n, now, config);
    SettledPays(before, n - 1, now);
    NextIsCovered(m, n, now, config);
    forall k | |m.releases| <= k < |after.releases| ensures after.releases[k].paid {
      if k < |before.releases| { assert after.releases[k] == before.releases[k]; }
    }
    forall s ensures W.PendingOf(after.bank, s) == W.PendingOf(m.bank, s) - Maturing(m.orders[..n], s, now, config) {
      MaturingStep(m, n, s, now, config);
    }
  }

  lemma MissesTheUncovered(m: Market, n: nat, now: Time, config: Config)
    requires 0 < n <= |m.orders| && CoversFirst(m, n - 1, now, config) && Matured(m.orders[n - 1], now, config)
    requires PassedSoFar(m, n - 1, now, config) && !CoversFirst(m, n, now, config)
    ensures !PaidFrom(Pass(m, n, now, config).releases, |m.releases|)
  {
    var before := Pass(m, n - 1, now, config);
    SettledPays(before, n - 1, now);
    NextIsCovered(m, n, now, config);
    assert !Pass(m, n, now, config).releases[|before.releases|].paid;
  }

  lemma PassSettles(m: Market, n: nat, now: Time, config: Config)
    requires 0 < n <= |m.orders| && PassedSoFar(m, n - 1, now, config)
    requires Matured(m.orders[n - 1], now, config)
    ensures PassedSoFar(m, n, now, config)
  {
    var before, after := Pass(m, n - 1, now, config), Pass(m, n, now, config);
    SettledPays(before, n - 1, now);
    assert after.releases[..|m.releases|] == before.releases[..|m.releases|];
    if CoversFirst(m, n, now, config) {
      CoversFewer(m, n, now, config);
      PaysTheCovered(m, n, now, config);
    } else if CoversFirst(m, n - 1, now, config) {
      MissesTheUncovered(m, n, now, config);
    } else {
      StaysUnpaid(before.releases, after.releases, |m.releases|);
    }
  }

  lemma {:induction false} PassPaysFirst(m: Market, n: nat, now: Time, config: Config)
    requires Funded(m) && n <= |m.orders|
    ensures PassedSoFar(m, n, now, config)
  {
    if n > 0 {
      PassPaysFirst(m, n - 1, now, config);
      if Matured(m.orders[n - 1], now, config) {
        PassSettles(m, n, now, config);
      } else {
        PassSkips(m, n, now, config);
      }
    }
  }

  /**
   A pass pays every order it marks as settled exactly when, for each seller, the nets of the orders
   that mature are at most what is pending.
   */
  lemma WhenAPassPays(m: Market, now: Time, config: Config)
    requires Funded(m)
    ensures var m' := Pass(m, |m.orders|, now, config);
            && Funded(m')
            && |m.releases| <= |m'.releases| && m'.releases[..|m.releases|] == m.releases
            && (PaidFrom(m'.releases, |m.releases|) <==> Covers(m, now, config))
  {
    PassPaysFirst(m, |m.orders|, now, config);
    assert m.orders[..|m.orders|] == m.orders;
    assert CoversFirst(m, |m.orders|, now, config) <==> Covers(m, now, config);
  }

  // ---------- Every run ----------

  lemma OutsideSalesPending(bank: W.Bank, op: WalletRuns.Op, user: User)
    requires OutsideSales(op)
    ensures var after := WalletRuns.Apply(bank, op).bank;
            W.PendingOf(after, user) == W.PendingOf(bank, user) && (user in bank.wallets ==> user in after.wallets)
  {
  }

  lemma CreditedPending(bank: W.Bank, seller: User, price: nat, net: int, fee: int, user: User)
    requires seller in bank.wallets
    ensures var after := W.Credited(bank, seller, price, net, fee);
            && W.PendingOf(after, user) == W.PendingOf(bank, user) + (if user == seller then net else 0)
            && (user in bank.wallets ==> user in after.wallets)
  {
  }

  lemma CapturePending(bank: W.Bank, buyer: User, seller: User, price: nat, rate: Commissions.Percent, user: User)
    ensures var captured := W.Captured(bank, buyer, seller, price, rate);
            && W.PendingOf(captured.bank, user) == W.PendingOf(bank, user) +
                 (if user == seller && captured.error.None? then Commissions.SellerNet(price, rate) else 0)
            && (user in bank.wallets || user == seller ==> user in captured.bank.wallets)
  {
    var ready := W.Ensured(bank, seller, true);
    if buyer in ready.wallets {
      CreditedPending(W.BuyerDebited(ready, buyer, price), seller, price, Commissions.SellerNet(price, rate),
                      Commissions.Commission(price, rate), user);
    }
  }

  lemma ReversalPending(bank: W.Bank, buyer: User, seller: User, price: nat, user: User)
    ensures var after := W.SaleReversed(bank, buyer, seller, price);
            && W.PendingOf(after, user) == W.PendingOf(bank, user) -
                 (if user == seller then W.Min(W.PendingOf(bank, seller), price) else 0)
            && (user in bank.wallets || user == buyer || user == seller ==> user in after.wallets)
  {
    var ready := W.BothEnsured(bank, buyer, seller);
    assert W.PendingOf(ready, user) == W.PendingOf(bank, user);
  }

  /** What a refund takes out of its seller's pending. */
  function Taken(m: Market, step: Step, seller: User): int {
    if step.Refund? && step.id < |m.orders| && RefundCreated(m.orders[step.id], step.amount, step.at).Success? &&
       m.orders[step.id].seller == seller
    then W.Min(W.PendingOf(m.bank, seller), step.amount)
    else 0
  }

  function TakenIn(steps: seq<Step>, seller: User, config: Config): int {
    if steps == [] then 0
    else TakenIn(steps[..|steps| - 1], seller, config) +
         Taken(Run(steps[..|steps| - 1], config), steps[|steps| - 1], seller)
  }

  function Share(o: Order, seller: User): nat {
    if o.seller == seller && o.settledAt.None? && o.sellerNet.Some? then o.sellerNet.value else 0
  }

  /** What a seller's unsettled sales are still to bring. */
  function Owed(orders: seq<Order>, seller: User): nat {
    if orders == [] then 0 else Owed(orders[..|orders| - 1], seller) + Share(orders[|orders| - 1], seller)
  }

  lemma OwedAppend(orders: seq<Order>, o: Order, seller: User)
    ensures Owed(orders + [o], seller) == Owed(orders, seller) + Share(o, seller)
  {
    assert (orders + [o])[..|orders|] == orders;
  }

  lemma {:induction false} OwedUpdate(orders: seq<Order>, id: nat, o: Order, seller: User)
    requires id < |orders|
    ensures Owed(orders[id := o], seller) == Owed(orders, seller) - Share(orders[id], seller) + Share(o, seller)
    ensures Share(orders[id], seller) <= Owed(orders, seller)
  {
    var last := |orders| - 1;
    if id == last {
      assert orders[id := o][..last] == orders[..last];
    } else {
      OwedUpdate(orders[..last], id, o, seller);
      assert orders[id := o][..last] == orders[..last][id := o];
    }
  }

  /** What a seller was not paid of the releases on record. */
  function Missed(r: Release, seller: User): nat {
    if !r.paid && r.row.seller == seller && r.row.sellerNet.Some? then r.row.sellerNet.value else 0
  }

  function Unpaid(releases: seq<Release>, seller: User): nat {
    if releases == [] then 0 else Unpaid(releases[..|releases| - 1], seller) + Missed(releases[|releases| - 1], seller)
  }

  lemma UnpaidAppend(releases: seq<Release>, r: Release, seller: User)
    ensures Unpaid(releases + [r], seller) == Unpaid(releases, seller) + Missed(r, seller)
  {
    assert (releases + [r])[..|releases|] == releases;
  }

  /** Pending beyond what the unsettled sales and the unpaid releases account for. */
  function Surplus(m: Market, seller: User): int {
    W.PendingOf(m.bank, seller) - Owed(m.orders, seller) - Unpaid(m.releases, seller)
  }

  lemma SettledKeepsSurplus(m: Market, id: nat, now: Time, seller: User)
    requires Funded(m) && id < |m.orders| && m.orders[id].settledAt.None? && m.orders[id].sellerNet.Some?
    ensures Surplus(Settled(m, id, now), seller) == Surplus(m, seller)
  {
    var m', o := Settled(m, id, now), m.orders[id];
    SettledPays(m, id, now);
    OwedUpdate(m.orders, id, o.(settledAt := Some(now), updatedAt := now), seller);
    UnpaidAppend(m.releases, m'.releases[|m.releases|], seller);
    assert m'.releases == m.releases + [m'.releases[|m.releases|]];
  }

  lemma {:induction false} PassKeepsSurplus(m: Market, n: nat, now: Time, config: Config, seller: User)
    requires Funded(m) && n <= |m.orders|
    ensures Funded(Pass(m, n, now, config)) && Surplus(Pass(m, n, now, config), seller) == Surplus(m, seller)
  {
    if n > 0 {
      PassKeepsSurplus(m, n - 1, now, config, seller);
      var before := Pass(m, n - 1, now, config);
      if Matured(before.orders[n - 1], now, config) {
        SettledPays(before, n - 1, now);
        SettledKeepsSurplus(before, n - 1, now, seller);
      }
    }
  }

  lemma SoldKeepsSurplus(m: Market, buyer: User, seller: User, price: nat, rate: Commissions.Percent, now: Time, user: User)
    ensures Surplus(Sold(m, buyer, seller, price, rate, now), user) == Surplus(m, user)
  {
    var m' := Sold(m, buyer, seller, price, rate, now);
    CapturePending(m.bank, buyer, seller, price, rate, user);
    if |m'.orders| > |m.orders| {
      OwedAppend(m.orders, m'.orders[|m.orders|], user);
    }
  }

  lemma SoldKeepsFunded(m: Market, buyer: User, seller: User, price: nat, rate: Commissions.Percent, now: Time)
    requires Funded(m)
    ensures Funded(Sold(m, buyer, seller, price, rate, now))
  {
    var m' := Sold(m, buyer, seller, price, rate, now);
    Commissions.CommissionAndNet(price, rate);
    forall user
      ensures W.PendingOf(m'.bank, user) >= 0 && (user in m.bank.wallets || user == seller ==> user in m'.bank.wallets)
    {
      CapturePending(m.bank, buyer, seller, price, rate, user);
      assert W.PendingOf(m.bank, user) >= 0;
    }
  }

  lemma RefundTakes(m: Market, id: nat, amount: int, now: Time, user: User)
    requires id < |m.orders| && RefundCreated(m.orders[id], amount, now).Success?
    ensures var m' := RefundedSale(m, id, amount, now);
            && Owed(m'.orders, user) == Owed(m.orders, user)
            && W.PendingOf(m'.bank, user) == W.PendingOf(m.bank, user) - Taken(m, Refund(id, amount, now), user)
            && (user in m.bank.wallets ==> user in m'.bank.wallets)
  {
    var r := RefundCreated(m.orders[id], amount, now).value;
    ReversalPending(m.bank, r.buyer, r.seller, amount, user);
    OwedUpdate(m.orders, id, r, user);
  }

  lemma RefundKeepsFunded(m: Market, id: nat, amount: int, now: Time)
    requires Funded(m)
    ensures Funded(RefundedSale(m, id, amount, now))
  {
    var m' := RefundedSale(m, id, amount, now);
    if m' != m {
      forall user ensures W.PendingOf(m'.bank, user) >= 0 && (user in m.bank.wallets ==> user in m'.bank.wallets) {
        RefundTakes(m, id, amount, now, user);
        assert W.PendingOf(m.bank, user) >= 0;
      }
      forall i | 0 <= i < |m'.orders| ensures m'.orders[i].seller in m'.bank.wallets {
        assert m'.orders[i].seller == m.orders[i].seller;
      }
    }
  }

  lemma BankKeepsFunded(m: Market, op: WalletRuns.Op)
    requires Funded(m) && OutsideSales(op)
    ensures Funded(m.(bank := WalletRuns.Apply(m.bank, op).bank))
  {
    var after := WalletRuns.Apply(m.bank, op).bank;
    forall user ensures W.PendingOf(after, user) >= 0 && (user in m.bank.wallets ==> user in after.wallets) {
      OutsideSalesPending(m.bank, op, user);
      assert W.PendingOf(m.bank, user) >= 0;
    }
  }

  lemma RowKeepsFunded(m: Market, step: Step)
    requires Funded(m) && OnRow(step) && step.id < |m.orders|
    ensures Funded(m.(orders := Written(m.orders, step.id, RowStep(m.orders[step.id], step))))
  {
    if RowStep(m.orders[step.id], step).Success? { RowStepContinues(m.orders[step.id], step); }
  }

  lemma RowKeepsSurplus(m: Market, step: Step, seller: User)
    requires OnRow(step) && step.id < |m.orders|
    ensures Surplus(m.(orders := Written(m.orders, step.id, RowStep(m.orders[step.id], step))), seller) == Surplus(m, seller)
  {
    var r := RowStep(m.orders[step.id], step);
    if r.Success? {
      RowStepContinues(m.orders[step.id], step);
      OwedUpdate(m.orders, step.id, r.value, seller);
    }
  }

  lemma NextKeepsFunded(m: Market, step: Step, config: Config)
    requires Funded(m)
    ensures Funded(Next(m, step, config))
  {
    if step.Sell? {
      SoldKeepsFunded(m, step.buyer, step.seller, step.price, step.rate, step.at);
    } else if step.Refund? {
      RefundKeepsFunded(m, step.id, step.amount, step.at);
    } else if step.ReleaseAll? {
      PassKeepsSurplus(m, |m.orders|, step.at, config, "");
    } else if step.Bank? {
      if OutsideSales(step.op) { BankKeepsFunded(m, step.op); }
    } else if step.id < |m.orders| {
      RowKeepsFunded(m, step);
    }
  }

  lemma NextSurplus(m: Market, step: Step, config: Config, seller: User)
    requires Funded(m)
    ensures Surplus(Next(m, step, config), seller) == Surplus(m, seller) - Taken(m, step, seller)
  {
    if step.Sell? {
      SoldKeepsSurplus(m, step.buyer, step.seller, step.price, step.rate, step.at, seller);
    } else if step.Refund? {
      if step.id < |m.orders| && RefundCreated(m.orders[step.id], step.amount, step.at).Success? {
        RefundTakes(m, step.id, step.amount, step.at, seller);
      }
    } else if step.ReleaseAll? {
      PassKeepsSurplus(m, |m.orders|, step.at, config, seller);
    } else if step.Bank? {
      if OutsideSales(step.op) { OutsideSalesPending(m.bank, step.op, seller); }
    } else if step.id < |m.orders| {
      RowKeepsSurplus(m, step, seller);
    }
  }

  lemma {:induction false} RunIsFunded(steps: seq<Step>, config: Config)
    ensures Funded(Run(steps, config))
  {
    if steps != [] {
      RunIsFunded(steps[..|steps| - 1], config);
      NextKeepsFunded(Run(steps[..|steps| - 1], config), steps[|steps| - 1], config);
    }
  }

  /**
   Over every run, a seller's pending plus what refunds took from it is what the unsettled sales are
   to bring plus what settled ones were not paid.
   */
  lemma {:induction false} PendingIsAccountedFor(steps: seq<Step>, seller: User, config: Config)
    ensures var m := Run(steps, config);
            W.PendingOf(m.bank, seller) + TakenIn(steps, seller, config) ==
            Owed(m.orders, seller) + Unpaid(m.releases, seller)
  {
    if steps != [] {
      PendingIsAccountedFor(steps[..|steps| - 1], seller, config);
      RunIsFunded(steps[..|steps| - 1], config);
      NextSurplus(Run(steps[..|steps| - 1], config), steps[|steps| - 1], config, seller);
    }
  }

  predicate AllPaid(m: Market) {
    PaidFrom(m.releases, 0)
  }

  /** Each pass of the run found every seller's maturing nets covered. */
  ghost predicate EveryPassCovered(steps: seq<Step>, config: Config) {
    forall k | 0 <= k < |steps| && steps[k].ReleaseAll? :: Covers(Run(steps[..k], config), steps[k].at, config)
  }

  lemma EveryPassAppend(steps: seq<Step>, config: Config)
    requires steps != []
    ensures var n := |steps| - 1;
            EveryPassCovered(steps, config) <==>
            && EveryPassCovered(steps[..n], config)
            && (steps[n].ReleaseAll? ==> Covers(Run(steps[..n], config), steps[n].at, config))
  {
    var n := |steps| - 1;
    forall k | 0 <= k < n ensures steps[..n][..k] == steps[..k] && steps[..n][k] == steps[k] {}
    if EveryPassCovered(steps, config) {
      forall k | 0 <= k < n && steps[..n][k].ReleaseAll?
        ensures Covers(Run(steps[..n][..k], config), steps[..n][k].at, config)
      {
        assert steps[k].ReleaseAll?;
      }
    }
    if EveryPassCovered(steps[..n], config) {
      forall k | 0 <= k < n && steps[k].ReleaseAll? ensures Covers(Run(steps[..k], config), steps[k].at, config) {
        assert steps[..n][k].ReleaseAll?;
      }
    }
  }

  lemma PassPaysAll(m: Market, now: Time, config: Config)
    requires Funded(m)
    ensures AllPaid(Pass(m, |m.orders|, now, config)) <==> AllPaid(m) && Covers(m, now, config)
  {
    WhenAPassPays(m, now, config);
    var before, after := m.releases, Pass(m, |m.orders|, now, config).releases;
    forall k | 0 <= k < |before| ensures after[k] == before[k] {
      assert after[..|before|][k] == before[k];
    }
  }

  /**
   In every run, each order marked as settled was really paid exactly when each pass of the job found,
   for every seller, the nets of the orders then mature within what was then pending.
   */
  lemma {:induction false} SettledMeansPaid(steps: seq<Step>, config: Config)
    ensures AllPaid(Run(steps, config)) <==> EveryPassCovered(steps, config)
  {
    if steps != [] {
      var before, step := Run(steps[..|steps| - 1], config), steps[|steps| - 1];
      SettledMeansPaid(steps[..|steps| - 1], config);
      EveryPassAppend(steps, config);
      if step.ReleaseAll? {
        RunIsFunded(steps[..|steps| - 1], config);
        PassPaysAll(before, step.at, config);
      }
    }
  }

  lemma {:induction false} MaturingIsOwed(orders: seq<Order>, seller: User, now: Time, config: Config)
    ensures Maturing(orders, seller, now, config) <= Owed(orders, seller)
  {
    if orders != [] { MaturingIsOwed(orders[..|orders| - 1], seller, now, config); }
  }

  lemma {:induction false} NothingTaken(steps: seq<Step>, seller: User, config: Config)
    requires forall i | 0 <= i < |steps| :: !steps[i].Refund?
    ensures TakenIn(steps, seller, config) == 0
  {
    if steps != [] { NothingTaken(steps[..|steps| - 1], seller, config); }
  }

  /** So without refunds every order marked as settled was paid, and pending is exactly what is owed. */
  lemma WithoutRefundsAllIsPaid(steps: seq<Step>, config: Config)
    requires forall i | 0 <= i < |steps| :: !steps[i].Refund?
    ensures Backed(Run(steps, config))
  {
    forall k | 0 <= k < |steps| && steps[k].ReleaseAll? ensures Covers(Run(steps[..k], config), steps[k].at, config) {
      PassIsCovered(steps[..k], steps[k].at, config);
    }
    var m := Run(steps, config);
    RunIsFunded(steps, config);
    SettledMeansPaid(steps, config);
    forall seller ensures W.PendingOf(m.bank, seller) == Owed(m.orders, seller) {
      PendingIsAccountedFor(steps, seller, config);
      NothingTaken(steps, seller, config);
      NoneMissed(m.releases, seller);
    }
  }

  lemma PassIsCovered(steps: seq<Step>, now: Time, config: Config)
    requires forall i | 0 <= i < |steps| :: !steps[i].Refund?
    ensures Covers(Run(steps, config), now, config)
  {
    var m := Run(steps, config);
    forall seller ensures Maturing(m.orders, seller, now, config) <= W.PendingOf(m.bank, seller) {
      PendingIsAccountedFor(steps, seller, config);
      NothingTaken(steps, seller, config);
      MaturingIsOwed(m.orders, seller, now, config);
    }
  }

  lemma {:induction false} NoneMissed(releases: seq<Release>, seller: User)
    requires PaidFrom(releases, 0)
    ensures Unpaid(releases, seller) == 0
  {
    if releases != [] { NoneMissed(releases[..|releases| - 1], seller); }
  }

  /** Each seller's pending is exactly the net of the sales not yet settled, and every release was paid. */
  ghost predicate Backed(m: Market) {
    && (forall id | 0 <= id < |m.orders| :: m.orders[id].seller in m.bank.wallets)
    && (forall seller :: W.PendingOf(m.bank, seller) == Owed(m.orders, seller))
    && AllPaid(m)
  }

  /**
   A refund takes its money from pending and leaves the order unsettled, so pending stops backing the
   seller's sales, except when nothing was pending.
   */
  lemma WhenRefundKeepsBacking(m: Market, id: nat, amount: int, now: Time)
    requires Backed(m) && id < |m.orders| && RefundCreated(m.orders[id], amount, now).Success?
    ensures Backed(RefundedSale(m, id, amount, now)) <==> W.PendingOf(m.bank, m.orders[id].seller) == 0
  {
    var m', seller := RefundedSale(m, id, amount, now), m.orders[id].seller;
    forall s
      ensures Owed(m'.orders, s) == Owed(m.orders, s)
      ensures W.PendingOf(m'.bank, s) == W.PendingOf(m.bank, s) - Taken(m, Refund(id, amount, now), s)
      ensures s in m.bank.wallets ==> s in m'.bank.wallets
    {
      RefundTakes(m, id, amount, now, s);
    }
    forall i | 0 <= i < |m'.orders| ensures m'.orders[i].seller in m'.bank.wallets {
      assert m'.orders[i].seller == m.orders[i].seller;
    }
    assert W.PendingOf(m.bank, seller) == Owed(m.orders, seller);
    assert W.PendingOf(m'.bank, seller) == Owed(m'.orders, seller) <==> W.PendingOf(m.bank, seller) == 0;
    forall s | s != seller ensures W.PendingOf(m'.bank, s) == Owed(m'.orders, s) {
      assert W.PendingOf(m.bank, s) == Owed(m.orders, s);
    }
  }

  // ---------- A run that marks what it does not pay ----------

  const USUAL := Config(72 * 3_600_000, 14 * DAY_MS)

  /** A buyer deposits 100, holds it for a bid, and wins; the seller's net is 90. */
  function Purchase(buyer: User): seq<Step> {
    [Bank(WalletRuns.Op.Deposit(buyer, 100)), Bank(WalletRuns.Hold(buyer, 100)), Sell(buyer, "s", 100, 10.0, 0)]
  }

  function SoldOrder(buyer: User): Order {
    Order(buyer, "s", 100, Paid, 0, 0, Some(90), None, None, None, false)
  }

  lemma RunBank(steps: seq<Step>, op: WalletRuns.Op)
    requires OutsideSales(op)
    ensures var m := Run(steps, USUAL);
            Run(steps + [Bank(op)], USUAL) == m.(bank := WalletRuns.Apply(m.bank, op).bank)
  {
    RunAppend(steps, Bank(op), USUAL);
  }

  function Holding(bank: W.Bank, buyer: User): W.Bank {
    W.Held(W.Deposited(bank, buyer, 100).bank, buyer, 100).bank
  }

  lemma RunHolding(steps: seq<Step>, buyer: User)
    ensures var m, deposit, hold := Run(steps, USUAL), WalletRuns.Op.Deposit(buyer, 100), WalletRuns.Hold(buyer, 100);
            Run(steps + [Bank(deposit)] + [Bank(hold)], USUAL) == m.(bank := Holding(m.bank, buyer))
  {
    var deposit := WalletRuns.Op.Deposit(buyer, 100);
    RunBank(steps, deposit);
    RunBank(steps + [Bank(deposit)], WalletRuns.Hold(buyer, 100));
  }

  lemma OneByOne(steps: seq<Step>, a: Step, b: Step, c: Step)
    ensures steps + [a] + [b] + [c] == steps + [a, b, c]
  {
  }

  lemma RunPurchase(steps: seq<Step>, buyer: User)
    ensures var m := Run(steps, USUAL);
            Run(steps + Purchase(buyer), USUAL) == Sold(m.(bank := Holding(m.bank, buyer)), buyer, "s", 100, 10.0, 0)
  {
    var deposit, hold, sell := Bank(WalletRuns.Op.Deposit(buyer, 100)), Bank(WalletRuns.Hold(buyer, 100)), Sell(buyer, "s", 100, 10.0, 0);
    RunHolding(steps, buyer);
    RunAppend(steps + [deposit] + [hold], sell, USUAL);
    OneByOne(steps, deposit, hold, sell);
  }

  lemma HeldIsCaptured(bank: W.Bank, buyer: User)
    requires buyer in bank.wallets && bank.wallets[buyer].held == 100 && buyer != "s"
    ensures var captured := W.Captured(bank, buyer, "s", 100, 10.0);
            && captured.error.None?
            && "s" in captured.bank.wallets
            && W.PendingOf(captured.bank, "s") == W.PendingOf(bank, "s") + 90
            && (forall u | u != "s" :: u in captured.bank.wallets <==> u in bank.wallets)
  {
    WalletRuns.TenPercentOfAHundred();
    CapturePending(bank, buyer, "s", 100, 10.0, "s");
  }

  lemma PurchaseAdds(steps: seq<Step>, buyer: User)
    requires buyer !in Run(steps, USUAL).bank.wallets && buyer != "s"
    ensures var m, m' := Run(steps, USUAL), Run(steps + Purchase(buyer), USUAL);
            && m'.orders == m.orders + [SoldOrder(buyer)] && m'.releases == m.releases
            && W.PendingOf(m'.bank, "s") == W.PendingOf(m.bank, "s") + 90
            && (forall u | u != "s" && u != buyer :: u in m'.bank.wallets <==> u in m.bank.wallets)
  {
    var m := Run(steps, USUAL);
    RunPurchase(steps, buyer);
    SoldAtTen(m.(bank := Holding(m.bank, buyer)), buyer);
  }

  lemma SoldAtTen(m: Market, buyer: User)
    requires buyer in m.bank.wallets && m.bank.wallets[buyer].held == 100 && buyer != "s"
    ensures var m' := Sold(m, buyer, "s", 100, 10.0, 0);
            && m'.orders == m.orders + [SoldOrder(buyer)] && m'.releases == m.releases
            && W.PendingOf(m'.bank, "s") == W.PendingOf(m.bank, "s") + 90
            && (forall u | u != "s" :: u in m'.bank.wallets <==> u in m.bank.wallets)
  {
    WalletRuns.TenPercentOfAHundred();
    HeldIsCaptured(m.bank, buyer);
  }

  lemma TwoPurchases()
    ensures var m := Run(Purchase("b") + Purchase("c"), USUAL);
            && m.orders == [SoldOrder("b"), SoldOrder("c")] && m.releases == []
            && W.PendingOf(m.bank, "s") == 180
  {
    PurchaseAdds([], "b");
    assert [] + Purchase("b") == Purchase("b");
    PurchaseAdds(Purchase("b"), "c");
  }

  lemma PassMissesBoth(m: Market, now: Time)
    requires Funded(m) && |m.orders| == 2 && m.releases == [] && W.PendingOf(m.bank, "s") == 80
    requires forall i | 0 <= i < 2 :: Matured(m.orders[i], now, USUAL) && m.orders[i].sellerNet == Some(90) && m.orders[i].seller == "s"
    ensures var after := Next(m, ReleaseAll(now), USUAL);
            && after.orders[0] == m.orders[0].(settledAt := Some(now), updatedAt := now)
            && after.orders[1] == m.orders[1].(settledAt := Some(now), updatedAt := now)
            && |after.releases| == 2 && !after.releases[0].paid && !after.releases[1].paid
  {
    assert Pass(m, 0, now, USUAL) == m;
    SettledPays(m, 0, now);
    var first := Settled(m, 0, now);
    assert Pass(m, 1, now, USUAL) == first;
    SettledPays(first, 1, now);
    assert Pass(m, 2, now, USUAL) == Settled(first, 1, now);
    assert Settled(first, 1, now).releases[0] == first.releases[0];
  }

  lemma RefundLeavesEighty(m: Market)
    requires m.orders == [SoldOrder("b"), SoldOrder("c")] && m.releases == [] && W.PendingOf(m.bank, "s") == 180
    ensures var m' := RefundedSale(m, 0, 100, 5);
            && m'.orders == [SoldOrder("b").(status := Refunded, updatedAt := 5, refundRequested := true), SoldOrder("c")]
            && m'.releases == [] && W.PendingOf(m'.bank, "s") == 80
  {
    RefundTakes(m, 0, 100, 5, "s");
  }

  /** Two buyers buy from one seller, the first is refunded, and the next pass marks both and pays neither. */
  lemma MarkedButUnpaid()
    ensures var m := Run(Purchase("b") + Purchase("c") + [Refund(0, 100, 5)] + [ReleaseAll(15 * DAY_MS)], USUAL);
            && |m.orders| == 2 && m.orders[0].status.Refunded? && m.orders[1].status.Paid?
            && m.orders[0].settledAt.Some? && m.orders[1].settledAt.Some?
            && |m.releases| == 2 && !m.releases[0].paid && !m.releases[1].paid
  {
    var steps, now := Purchase("b") + Purchase("c"), 15 * DAY_MS;
    var m := Run(steps, USUAL);
    TwoPurchases();
    RunAppend(steps, Refund(0, 100, 5), USUAL);
    RefundLeavesEighty(m);
    RunIsFunded(steps + [Refund(0, 100, 5)], USUAL);
    RunAppend(steps + [Refund(0, 100, 5)], ReleaseAll(now), USUAL);
    PassMissesBoth(RefundedSale(m, 0, 100, 5), now);
  }
}
