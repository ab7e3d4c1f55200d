/** What each wallet operation moves, when it goes through, and which operations undo each other. */
module WalletOutcomes {
  import opened Wrappers
  import opened Commissions
  import opened Wallets
  import opened WalletRuns

  // ---------- What moves ----------

  /** One wallet moves by the three amounts, and one row records it. */
  ghost predicate Moves(bank: Bank, after: Bank, user: User, balance: int, held: int, pending: int, kind: Kind, amount: int) {
    && user in bank.wallets && user in after.wallets
    && var (w, w') := (bank.wallets[user], after.wallets[user]);
       && w'.balance == w.balance + balance && w'.held == w.held + held && w'.pending == w.pending + pending
       && after.wallets == bank.wallets[user := w']
       && after.ledger == bank.ledger + [Row(user, kind, amount, w.balance, w.balance + balance)]
  }

  ghost predicate Refused(bank: Bank, e: Effect, error: WalletError) {
    e == Effect(bank, Some(error))
  }

  lemma DepositAdds(bank: Bank, user: User, amount: int)
    ensures var e := Deposited(bank, user, amount);
            var ready := if user in bank.wallets then bank else bank.(wallets := bank.wallets[user := Wallet(0, 0, 0, true)]);
            if amount <= 0 then Refused(bank, e, NotPositive)
            else e.error.None? && Moves(ready, e.bank, user, amount, 0, 0, Kind.Deposit, amount) && e.bank.wallets[user].active
  {
  }

  lemma WithdrawalTakes(bank: Bank, user: User, amount: int)
    ensures var e := Withdrawn(bank, user, amount);
            if amount <= 0 then Refused(bank, e, NotPositive)
            else if user !in bank.wallets then Refused(bank, e, NoWallet)
            else if bank.wallets[user].balance < amount then Refused(bank, e, InsufficientBalance)
            else e.error.None? && Moves(bank, e.bank, user, -amount, 0, 0, Withdrawal, amount)
  {
  }

  lemma WithdrawalReturns(bank: Bank, user: User, amount: nat)
    ensures var e := RefundedWithdrawal(bank, user, amount);
            if user !in bank.wallets then Refused(bank, e, NoWallet)
            else e.error.None? && Moves(bank, e.bank, user, amount, 0, 0, WithdrawalRefund, amount)
  {
  }

  lemma HoldSetsAside(bank: Bank, user: User, amount: int)
    ensures var e := Held(bank, user, amount);
            if amount <= 0 then Refused(bank, e, NotPositive)
            else if user !in bank.wallets then Refused(bank, e, NoWallet)
            else if !bank.wallets[user].active then Refused(bank, e, Inactive)
            else if bank.wallets[user].balance < amount then Refused(bank, e, InsufficientBalance)
            else e.error.None? && Moves(bank, e.bank, user, -amount, amount, 0, HoldBid, amount)
  {
  }

  lemma ReleaseGivesBack(bank: Bank, user: User, amount: int)
    ensures var e := Released(bank, user, amount);
            if amount <= 0 then Refused(bank, e, NotPositive)
            else if user !in bank.wallets then Refused(bank, e, NoWallet)
            else if bank.wallets[user].held < amount then Refused(bank, e, NotHeld)
            else e.error.None? && Moves(bank, e.bank, user, amount, -amount, 0, ReleaseBid, amount)
  {
  }

  lemma SettlementPaysOut(bank: Bank, seller: User, net: nat)
    ensures var e := SettlementReleased(bank, seller, net);
            if seller !in bank.wallets then Refused(bank, e, NoWallet)
            else if bank.wallets[seller].pending < net then e == Effect(bank, None)
            else e.error.None? && Moves(bank, e.bank, seller, net, 0, -(net as int), SettlementRelease, net) && e.bank.wallets[seller].active
  {
  }

  /** A sale spends the buyer's hold and adds the net to the seller's pending; both balances stay. */
  lemma CaptureSells(bank: Bank, buyer: User, seller: User, price: nat, rate: Percent)
    requires buyer in bank.wallets && seller in bank.wallets && buyer != seller
    ensures var e, b, s := Captured(bank, buyer, seller, price, rate), bank.wallets[buyer], bank.wallets[seller];
            if b.held < price then Refused(bank, e, InsufficientBalance)
            else
              && e.error.None?
              && e.bank.wallets == bank.wallets[buyer := b.(held := b.held - price)]
                                               [seller := s.(pending := s.pending + SellerNet(price, rate), active := true)]
              && e.bank.ledger == bank.ledger + [Row(buyer, DebitOrder, price, b.balance, b.balance),
                                                 Row(seller, CreditSale, price, s.balance, s.balance),
                                                 Row(seller, FeePlatform, Commission(price, rate), s.balance, s.balance)]
  {
  }

  /** The buyer gets the whole price; the seller gives pending first, and the rest from the balance. */
  lemma ReversalTransfers(bank: Bank, buyer: User, seller: User, price: nat)
    requires buyer in bank.wallets && seller in bank.wallets && buyer != seller && bank.wallets[seller].pending >= 0
    ensures var after, b, s := SaleReversed(bank, buyer, seller, price), bank.wallets[buyer], bank.wallets[seller];
            var fromPending := if s.pending < price then s.pending else price;
            && after.wallets == bank.wallets[seller := s.(balance := s.balance - (price - fromPending), pending := s.pending - fromPending)]
                                            [buyer := b.(balance := b.balance + price, active := true)]
            && after.ledger == bank.ledger +
                 [Row(seller, SaleReversal, price, s.balance, s.balance - (price - fromPending)),
                  Row(buyer, DisputeRefund, price, b.balance, b.balance + price)]
  {
  }

  // ---------- What undoes what ----------

  /** Releasing what was held restores every wallet, in any state in which the hold goes through. */
  lemma HoldThenRelease(bank: Bank, user: User, amount: int)
    requires Held(bank, user, amount).error.None? && bank.wallets[user].held >= 0
    ensures var e := Released(Held(bank, user, amount).bank, user, amount);
            e.error.None? && e.bank.wallets == bank.wallets && |e.bank.ledger| == |bank.ledger| + 2
  {
    HoldSetsAside(bank, user, amount);
    ReleaseGivesBack(Held(bank, user, amount).bank, user, amount);
    assert bank.wallets[user := bank.wallets[user]] == bank.wallets;
  }

  /** Refunding a withdrawal restores every wallet. */
  lemma WithdrawThenRefund(bank: Bank, user: User, amount: int)
    requires Withdrawn(bank, user, amount).error.None?
    ensures var e := RefundedWithdrawal(Withdrawn(bank, user, amount).bank, user, amount);
            e.error.None? && e.bank.wallets == bank.wallets
  {
    WithdrawalTakes(bank, user, amount);
    WithdrawalReturns(Withdrawn(bank, user, amount).bank, user, amount);
    assert bank.wallets[user := bank.wallets[user]] == bank.wallets;
  }

  /** What was deposited can be withdrawn at once, and nothing else moved. */
  lemma DepositThenWithdraw(bank: Bank, user: User, amount: int)
    requires amount > 0 && user in bank.wallets && bank.wallets[user].balance >= 0
    ensures var e := Withdrawn(Deposited(bank, user, amount).bank, user, amount);
            && e.error.None? && e.bank.wallets == bank.wallets[user := bank.wallets[user].(active := true)]
  {
    DepositAdds(bank, user, amount);
    WithdrawalTakes(Deposited(bank, user, amount).bank, user, amount);
  }

  /** From the hold to the payout: the buyer is out of the price, and the seller has the net to spend. */
  lemma SaleFromHoldToPayout(bank: Bank, buyer: User, seller: User, price: nat, rate: Percent)
    requires buyer in bank.wallets && seller in bank.wallets && buyer != seller
    requires Held(bank, buyer, price).error.None? && bank.wallets[buyer].held >= 0 && bank.wallets[seller].pending >= 0
    ensures var sold := Captured(Held(bank, buyer, price).bank, buyer, seller, price, rate);
            && sold.error.None? && SellerNet(price, rate) >= 0
            && var paid := SettlementReleased(sold.bank, seller, SellerNet(price, rate));
               && paid.error.None?
               && paid.bank.wallets[buyer] == bank.wallets[buyer].(balance := bank.wallets[buyer].balance - price)
               && paid.bank.wallets[seller] == bank.wallets[seller].(balance := bank.wallets[seller].balance + SellerNet(price, rate), active := true)
  {
    CommissionAndNet(price, rate);
    HoldSetsAside(bank, buyer, price);
    var held := Held(bank, buyer, price).bank;
    CaptureSells(held, buyer, seller, price, rate);
    SettlementPaysOut(Captured(held, buyer, seller, price, rate).bank, seller, SellerNet(price, rate));
  }

  // ---------- What a row says ----------

  /** The balance moved as the kind of the row and its amount say. */
  predicate Explained(row: Row) {
    match row.kind
    case Deposit => row.after == row.before + row.amount
    case WithdrawalRefund => row.after == row.before + row.amount
    case ReleaseBid => row.after == row.before + row.amount
    case SettlementRelease => row.after == row.before + row.amount
    case DisputeRefund => row.after == row.before + row.amount
    case Withdrawal => row.after == row.before - row.amount
    case HoldBid => row.after == row.before - row.amount
    case SaleReversal => row.before - row.amount <= row.after <= row.before
    case _ => row.after == row.before
  }

  ghost predicate AllExplained(ledger: seq<Row>) {
    forall i | 0 <= i < |ledger| :: Explained(ledger[i])
  }

  lemma CaptureExplains(bank: Bank, buyer: User, seller: User, price: nat, net: int, fee: int)
    requires AllExplained(bank.ledger) && buyer in bank.wallets && seller in bank.wallets
    ensures AllExplained(Credited(BuyerDebited(bank, buyer, price), seller, price, net, fee).ledger)
  {
  }

  lemma ReversalExplains(ready: Bank, buyer: User, seller: User, price: nat)
    requires AllExplained(ready.ledger) && buyer in ready.wallets && seller in ready.wallets && ready.wallets[seller].pending >= 0
    ensures AllExplained(BuyerRefunded(SellerCharged(ready, seller, price), buyer, ready.wallets[buyer].balance, price).ledger)
  {
  }

  lemma ApplyExplains(bank: Bank, op: Op)
    requires AllExplained(bank.ledger) && FundsStand(bank)
    ensures AllExplained(Apply(bank, op).bank.ledger)
  {
    if op.Capture? {
      var ready := Ensured(bank, op.seller, true);
      if op.buyer in ready.wallets && op.price <= ready.wallets[op.buyer].held {
        CaptureExplains(ready, op.buyer, op.seller, op.price, SellerNet(op.price, op.rate), Commission(op.price, op.rate));
      }
    } else if op.Reverse? {
      ReversalExplains(BothEnsured(bank, op.buyer, op.seller), op.buyer, op.seller, op.price);
    }
  }

  /** Over every run, each ledger row moves its balance by its amount, in the direction of its kind. */
  lemma {:induction false} RowsExplainBalances(ops: seq<Op>)
    ensures AllExplained(Run(EMPTY_BANK, ops).ledger)
  {
    if ops != [] {
      RowsExplainBalances(ops[..|ops| - 1]);
      FundsNeverNegative(ops[..|ops| - 1]);
      ApplyExplains(Run(EMPTY_BANK, ops[..|ops| - 1]), ops[|ops| - 1]);
    }
  }

  // ---------- Rates ----------

  /** The commission is the nearest cent to the rate's share of the price, the half cent going up; the net likewise. */
  lemma CommissionIsNearest(price: nat, rate: Percent)
    ensures price as real * rate / 100.0 - 0.5 < Commission(price, rate) as real <= price as real * rate / 100.0 + 0.5
    ensures price as real * (1.0 - rate / 100.0) - 0.5 < SellerNet(price, rate) as real <= price as real * (1.0 - rate / 100.0) + 0.5
  {
    var fee := price as real * rate / 100.0;
    NearestCent(fee);
    NearestCent(price as real - fee);
    assert price as real - fee == price as real * (1.0 - rate / 100.0);
  }

  lemma NearestCent(x: real)
    ensures x - 0.5 < RoundHalfUp(x) as real <= x + 0.5
  {
  }

  /** The seller's own rate before the global one, and ten per cent where there is neither. */
  lemma RateFallsBack(sellerRates: map<string, Percent>, globalRate: Option<Percent>, sellerId: string)
    ensures sellerId in sellerRates ==> ResolveRate(sellerRates, globalRate, sellerId) == sellerRates[sellerId]
    ensures sellerId !in sellerRates && globalRate.Some? ==> ResolveRate(sellerRates, globalRate, sellerId) == globalRate.value
    ensures sellerId !in sellerRates && globalRate.None? ==> ResolveRate(sellerRates, globalRate, sellerId) == 10.0
  {
  }
}
