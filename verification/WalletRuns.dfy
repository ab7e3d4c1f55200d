/**
 What every run of wallet operations keeps: the ledger is a true history of each balance, and money
 is neither made nor lost except where the ledger says so.
 */
module WalletRuns {
  import opened Wrappers
  import opened Commissions
  import opened Wallets

  datatype Op =
    | Look(user: User)
    | Deposit(user: User, amount: int)
    | Withdraw(user: User, amount: int)
    | RefundWithdrawal(user: User, paid: nat)
    | Hold(user: User, amount: int)
    | Release(user: User, amount: int)
    | Capture(buyer: User, seller: User, price: nat, rate: Percent)
    | Settle(seller: User, net: nat)
    | Reverse(buyer: User, seller: User, price: nat)

  function Apply(bank: Bank, op: Op): Effect {
    match op
    case Look(user) => Effect(Ensured(bank, user, false), None)
    case Deposit(user, amount) => Deposited(bank, user, amount)
    case Withdraw(user, amount) => Withdrawn(bank, user, amount)
    case RefundWithdrawal(user, amount) => RefundedWithdrawal(bank, user, amount)
    case Hold(user, amount) => Held(bank, user, amount)
    case Release(user, amount) => Released(bank, user, amount)
    case Capture(buyer, seller, price, rate) => Captured(bank, buyer, seller, price, rate)
    case Settle(seller, net) => SettlementReleased(bank, seller, net)
    case Reverse(buyer, seller, price) => Effect(SaleReversed(bank, buyer, seller, price), None)
  }

  function Run(bank: Bank, ops: seq<Op>): Bank {
    if ops == [] then bank else Apply(Run(bank, ops[..|ops| - 1]), ops[|ops| - 1]).bank
  }

  lemma RunAppend(bank: Bank, ops: seq<Op>, op: Op)
    ensures Run(bank, ops + [op]) == Apply(Run(bank, ops), op).bank
  {
    assert (ops + [op])[..|ops|] == ops;
  }

  /** The reversal of a sale in which buyer and seller are one person. */
  predicate ToOneself(op: Op) {
    op.Reverse? && op.buyer == op.seller
  }

  /** A sale to oneself is reversed only where pending holds it all; any other operation is covered. */
  predicate Covered(bank: Bank, op: Op) {
    ToOneself(op) ==> op.price <= PendingOf(bank, op.seller)
  }

  ghost predicate AllCovered(ops: seq<Op>) {
    forall k | 0 <= k < |ops| :: Covered(Run(EMPTY_BANK, ops[..k]), ops[k])
  }

  lemma AllCoveredAppend(ops: seq<Op>)
    requires ops != []
    ensures var n := |ops| - 1;
            AllCovered(ops) <==> AllCovered(ops[..n]) && Covered(Run(EMPTY_BANK, ops[..n]), ops[n])
  {
    var n := |ops| - 1;
    forall k | 0 <= k < n ensures ops[..n][..k] == ops[..k] && ops[..n][k] == ops[k] {}
    if AllCovered(ops) {
      forall k | 0 <= k < n ensures Covered(Run(EMPTY_BANK, ops[..n][..k]), ops[..n][k]) {
        assert Covered(Run(EMPTY_BANK, ops[..k]), ops[k]);
      }
    }
    if AllCovered(ops[..n]) && Covered(Run(EMPTY_BANK, ops[..n]), ops[n]) {
      forall k | 0 <= k < |ops| ensures Covered(Run(EMPTY_BANK, ops[..k]), ops[k]) {
        if k < n { assert Covered(Run(EMPTY_BANK, ops[..n][..k]), ops[..n][k]); }
      }
    }
  }

  // ---------- Totals ----------

  function Worth(w: Wallet): int {
    w.balance + w.held + w.pending
  }

  ghost function Total(wallets: map<User, Wallet>): int {
    if wallets == map[] then 0
    else
      var user :| user in wallets;
      Worth(wallets[user]) + Total(wallets - {user})
  }

  lemma {:induction false} TotalWithout(wallets: map<User, Wallet>, user: User)
    requires user in wallets
    ensures Total(wallets) == Worth(wallets[user]) + Total(wallets - {user})
    decreases |wallets|
  {
    var first :| first in wallets && Total(wallets) == Worth(wallets[first]) + Total(wallets - {first});
    if first != user {
      TotalWithout(wallets - {first}, user);
      TotalWithout(wallets - {user}, first);
      assert wallets - {first} - {user} == wallets - {user} - {first};
    }
  }

  lemma TotalUpdate(wallets: map<User, Wallet>, user: User, w: Wallet)
    ensures Total(wallets[user := w]) == Total(wallets) + Worth(w) - if user in wallets then Worth(wallets[user]) else 0
  {
    TotalWithout(wallets[user := w], user);
    if user in wallets {
      TotalWithout(wallets, user);
      assert wallets[user := w] - {user} == wallets - {user};
    } else {
      assert wallets[user := w] - {user} == wallets;
    }
  }

  /** What a ledger row brings into the wallets from outside, or takes out of them. */
  function Flow(row: Row): int {
    match row.kind
    case Deposit => row.amount
    case WithdrawalRefund => row.amount
    case Withdrawal => -row.amount
    case FeePlatform => -row.amount
    case _ => 0
  }

  function Flows(ledger: seq<Row>): int {
    if ledger == [] then 0 else Flows(ledger[..|ledger| - 1]) + Flow(ledger[|ledger| - 1])
  }

  lemma FlowsAppend(ledger: seq<Row>, row: Row)
    ensures Flows(ledger + [row]) == Flows(ledger) + Flow(row)
  {
    assert (ledger + [row])[..|ledger|] == ledger;
  }

  /** The cent a capture adds when its commission lands on a half cent. */
  function TieCent(bank: Bank, op: Op): nat {
    if op.Capture? && Apply(bank, op).error.None? && OnHalfCent(ExactFee(op.price, op.rate)) then 1 else 0
  }

  function TieCents(bank: Bank, ops: seq<Op>): nat {
    if ops == [] then 0
    else TieCents(bank, ops[..|ops| - 1]) + TieCent(Run(bank, ops[..|ops| - 1]), ops[|ops| - 1])
  }

  /** What a reversal to oneself makes: its two writes of one balance leave only the second. */
  function SelfMade(bank: Bank, op: Op): nat {
    if ToOneself(op) then op.price - Min(PendingOf(bank, op.seller), op.price) else 0
  }

  function SelfMadeIn(bank: Bank, ops: seq<Op>): nat {
    if ops == [] then 0
    else SelfMadeIn(bank, ops[..|ops| - 1]) + SelfMade(Run(bank, ops[..|ops| - 1]), ops[|ops| - 1])
  }

  // ---------- Conservation ----------

  lemma EnsuredKeepsTotal(bank: Bank, user: User, active: bool)
    ensures Total(Ensured(bank, user, active).wallets) == Total(bank.wallets)
  {
    if user !in bank.wallets {
      TotalUpdate(bank.wallets, user, Wallet(0, 0, 0, active));
    }
  }

  lemma PutTotal(bank: Bank, user: User, w: Wallet, row: Row)
    requires user in bank.wallets
    ensures Total(Put(bank, user, w, [row]).wallets) == Total(bank.wallets) + Worth(w) - Worth(bank.wallets[user])
    ensures Flows(Put(bank, user, w, [row]).ledger) == Flows(bank.ledger) + Flow(row)
  {
    TotalUpdate(bank.wallets, user, w);
    FlowsAppend(bank.ledger, row);
  }

  lemma BuyerDebitedTotal(bank: Bank, buyer: User, price: nat)
    requires buyer in bank.wallets
    ensures var after := BuyerDebited(bank, buyer, price);
            Total(after.wallets) == Total(bank.wallets) - price && Flows(after.ledger) == Flows(bank.ledger)
  {
    var b := bank.wallets[buyer];
    PutTotal(bank, buyer, b.(held := b.held - price), Row(buyer, DebitOrder, price, b.balance, b.balance));
  }

  /** Two rows written at once are one row after another. */
  lemma PutTwo(bank: Bank, user: User, w: Wallet, first: Row, second: Row)
    ensures Put(bank, user, w, [first, second]) == Put(Put(bank, user, w, [first]), user, w, [second])
  {
    assert bank.ledger + [first] + [second] == bank.ledger + [first, second];
    assert bank.wallets[user := w][user := w] == bank.wallets[user := w];
  }

  lemma CreditedTotal(bank: Bank, seller: User, price: nat, net: int, fee: int)
    requires seller in bank.wallets
    ensures var after := Credited(bank, seller, price, net, fee);
            Total(after.wallets) == Total(bank.wallets) + net && Flows(after.ledger) == Flows(bank.ledger) - fee
  {
    var s := bank.wallets[seller];
    var s' := s.(pending := s.pending + net, active := true);
    var sale, due := Row(seller, CreditSale, price, s.balance, s.balance), Row(seller, FeePlatform, fee, s.balance, s.balance);
    PutTwo(bank, seller, s', sale, due);
    PutTotal(bank, seller, s', sale);
    PutTotal(Put(bank, seller, s', [sale]), seller, s', due);
  }

  lemma CaptureConserves(bank: Bank, buyer: User, seller: User, price: nat, rate: Percent)
    ensures var after := Captured(bank, buyer, seller, price, rate).bank;
            Total(after.wallets) - Flows(after.ledger) ==
            Total(bank.wallets) - Flows(bank.ledger) + TieCent(bank, Capture(buyer, seller, price, rate))
  {
    var ready := Ensured(bank, seller, true);
    EnsuredKeepsTotal(bank, seller, true);
    if buyer in ready.wallets && ready.wallets[buyer].held >= price {
      BuyerDebitedTotal(ready, buyer, price);
      CreditedTotal(BuyerDebited(ready, buyer, price), seller, price, SellerNet(price, rate), Commission(price, rate));
      CommissionAndNet(price, rate);
    }
  }

  lemma SellerChargedTotal(bank: Bank, seller: User, price: nat)
    requires seller in bank.wallets
    ensures var after := SellerCharged(bank, seller, price);
            Total(after.wallets) == Total(bank.wallets) - price && Flows(after.ledger) == Flows(bank.ledger)
  {
    var s := bank.wallets[seller];
    var fromPending := Min(s.pending, price);
    var left := s.balance - (price - fromPending);
    PutTotal(bank, seller, s.(balance := left, pending := s.pending - fromPending),
             Row(seller, SaleReversal, price, s.balance, left));
  }

  lemma BuyerRefundedTotal(bank: Bank, buyer: User, balance: int, price: nat)
    requires buyer in bank.wallets
    ensures var after := BuyerRefunded(bank, buyer, balance, price);
            && Total(after.wallets) == Total(bank.wallets) + balance + price - bank.wallets[buyer].balance
            && Flows(after.ledger) == Flows(bank.ledger)
  {
    PutTotal(bank, buyer, bank.wallets[buyer].(balance := balance + price, active := true),
             Row(buyer, DisputeRefund, price, balance, balance + price));
  }

  /** The wallets' total moves with what the reversal cannot take from pending, when both are one person. */
  lemma ReversalTotal(bank: Bank, buyer: User, seller: User, price: nat)
    ensures var after := SaleReversed(bank, buyer, seller, price);
            && Flows(after.ledger) == Flows(bank.ledger)
            && Total(after.wallets) == Total(bank.wallets) + SelfMade(bank, Reverse(buyer, seller, price))
  {
    var ready := BothEnsured(bank, buyer, seller);
    EnsuredKeepsTotal(bank, buyer, true);
    EnsuredKeepsTotal(Ensured(bank, buyer, true), seller, true);
    SellerChargedTotal(ready, seller, price);
    BuyerRefundedTotal(SellerCharged(ready, seller, price), buyer, ready.wallets[buyer].balance, price);
  }

  /** Reversing a sale makes no money exactly when two people are involved, or pending covers it all. */
  lemma WhenReversalConserves(bank: Bank, buyer: User, seller: User, price: nat)
    ensures Total(SaleReversed(bank, buyer, seller, price).wallets) == Total(bank.wallets) <==>
            Covered(bank, Reverse(buyer, seller, price))
  {
    ReversalTotal(bank, buyer, seller, price);
  }

  /** One wallet moves by what one new row says, and the row continues its balance. */
  ghost predicate OneRow(ready: Bank, after: Bank, user: User) {
    && user in ready.wallets && user in after.wallets && |ready.ledger| < |after.ledger|
    && var row := after.ledger[|ready.ledger|];
       && after == Put(ready, user, after.wallets[user], [row])
       && row.user == user && row.before == ready.wallets[user].balance && row.after == after.wallets[user].balance
       && Worth(after.wallets[user]) == Worth(ready.wallets[user]) + Flow(row)
  }

  function Owner(op: Op): User {
    if op.Capture? || op.Reverse? || op.Settle? then op.seller else op.user
  }

  function Ready(bank: Bank, op: Op): Bank {
    if op.Deposit? then Ensured(bank, op.user, true)
    else if op.Look? then Ensured(bank, op.user, false)
    else bank
  }

  predicate Single(op: Op) {
    !op.Capture? && !op.Reverse?
  }

  /** An operation that needs the wallet to be there. */
  predicate OnWallet(op: Op) {
    op.Withdraw? || op.RefundWithdrawal? || op.Hold? || op.Release?
  }

  lemma OnWalletWritesOneRow(bank: Bank, op: Op)
    requires OnWallet(op)
    ensures Apply(bank, op).bank == bank || OneRow(bank, Apply(bank, op).bank, op.user)
  {
  }

  lemma SettleWritesOneRow(bank: Bank, seller: User, net: nat)
    ensures var after := SettlementReleased(bank, seller, net).bank;
            after == bank || OneRow(bank, after, seller)
  {
  }

  lemma DepositWritesOneRow(bank: Bank, user: User, amount: int)
    ensures var after := Deposited(bank, user, amount).bank;
            after == bank || OneRow(Ensured(bank, user, true), after, user)
  {
  }

  /** Every operation on one wallet fails, at most creates the wallet, or writes one row. */
  lemma SingleWritesOneRow(bank: Bank, op: Op)
    requires Single(op)
    ensures var after := Apply(bank, op).bank;
            after == bank || after == Ready(bank, op) || OneRow(Ready(bank, op), after, Owner(op))
  {
    if OnWallet(op) {
      OnWalletWritesOneRow(bank, op);
    } else if op.Settle? {
      SettleWritesOneRow(bank, op.seller, op.net);
    } else if op.Deposit? {
      DepositWritesOneRow(bank, op.user, op.amount);
    }
  }

  lemma ApplyConserves(bank: Bank, op: Op)
    ensures var after := Apply(bank, op).bank;
            Total(after.wallets) - Flows(after.ledger) ==
            Total(bank.wallets) - Flows(bank.ledger) + TieCent(bank, op) + SelfMade(bank, op)
  {
    if op.Capture? {
      CaptureConserves(bank, op.buyer, op.seller, op.price, op.rate);
    } else if op.Reverse? {
      ReversalTotal(bank, op.buyer, op.seller, op.price);
    } else {
      SingleConserves(bank, op);
    }
  }

  lemma ReadyKeepsTotal(bank: Bank, op: Op)
    ensures Total(Ready(bank, op).wallets) == Total(bank.wallets) && Ready(bank, op).ledger == bank.ledger
  {
    if op.Deposit? || op.Look? { EnsuredKeepsTotal(bank, op.user, op.Deposit?); }
  }

  lemma OneRowConserves(ready: Bank, after: Bank, user: User)
    requires OneRow(ready, after, user)
    ensures Total(after.wallets) - Flows(after.ledger) == Total(ready.wallets) - Flows(ready.ledger)
  {
    PutTotal(ready, user, after.wallets[user], after.ledger[|ready.ledger|]);
  }

  lemma SingleConserves(bank: Bank, op: Op)
    requires Single(op)
    ensures var after := Apply(bank, op).bank;
            Total(after.wallets) - Flows(after.ledger) == Total(bank.wallets) - Flows(bank.ledger)
  {
    var ready, after, user := Ready(bank, op), Apply(bank, op).bank, Owner(op);
    SingleWritesOneRow(bank, op);
    ReadyKeepsTotal(bank, op);
    if OneRow(ready, after, user) {
      OneRowConserves(ready, after, user);
    }
  }

  /**
   Over every run, the wallets together hold what the ledger says came in, minus what it says went
   out, plus one cent for each commission that landed on a half cent, plus what reversals of sales
   to oneself made.
   */
  lemma {:induction false} MoneyIsConserved(ops: seq<Op>)
    ensures var bank := Run(EMPTY_BANK, ops);
            Total(bank.wallets) == Flows(bank.ledger) + TieCents(EMPTY_BANK, ops) + SelfMadeIn(EMPTY_BANK, ops)
  {
    if ops != [] {
      MoneyIsConserved(ops[..|ops| - 1]);
      ApplyConserves(Run(EMPTY_BANK, ops[..|ops| - 1]), ops[|ops| - 1]);
    }
  }

  lemma TenPercentOfAHundred()
    ensures Commission(100, 10.0) == 10 && SellerNet(100, 10.0) == 90 && !OnHalfCent(ExactFee(100, 10.0))
  {
    assert ExactFee(100, 10.0) == 10.0;
  }

  lemma RunOfFour(bank: Bank, a: Op, b: Op, c: Op, d: Op)
    ensures Run(bank, [a, b, c, d]) == Apply(Apply(Apply(Apply(bank, a).bank, b).bank, c).bank, d).bank
  {
    assert [] + [a] == [a] && [a] + [b] == [a, b] && [a, b] + [c] == [a, b, c] && [a, b, c] + [d] == [a, b, c, d];
    RunAppend(bank, [], a);
    RunAppend(bank, [a], b);
    RunAppend(bank, [a, b], c);
    RunAppend(bank, [a, b, c], d);
  }

  lemma DepositToNobody()
    ensures var deposited := Deposited(EMPTY_BANK, "s", 100).bank;
            deposited.wallets == map["s" := Wallet(100, 0, 0, true)] && Total(deposited.wallets) == Flows(deposited.ledger)
  {
    SingleConserves(EMPTY_BANK, Op.Deposit("s", 100));
  }

  lemma HoldAll(bank: Bank)
    requires bank.wallets == map["s" := Wallet(100, 0, 0, true)]
    ensures Held(bank, "s", 100).bank.wallets == map["s" := Wallet(0, 100, 0, true)]
  {
  }

  lemma HoldConserves(bank: Bank, user: User, amount: int)
    ensures var held := Held(bank, user, amount).bank;
            Total(held.wallets) - Flows(held.ledger) == Total(bank.wallets) - Flows(bank.ledger)
  {
    var after := Held(bank, user, amount).bank;
    OnWalletWritesOneRow(bank, Hold(user, amount));
    if after != bank { OneRowConserves(bank, after, user); }
  }

  lemma DepositAndHold()
    ensures var held := Held(Deposited(EMPTY_BANK, "s", 100).bank, "s", 100).bank;
            held.wallets == map["s" := Wallet(0, 100, 0, true)] && Total(held.wallets) == Flows(held.ledger)
  {
    var deposited := Deposited(EMPTY_BANK, "s", 100).bank;
    DepositToNobody();
    HoldAll(deposited);
    HoldConserves(deposited, "s", 100);
  }

  lemma CaptureToOneself(bank: Bank)
    requires bank.wallets == map["s" := Wallet(0, 100, 0, true)] && Total(bank.wallets) == Flows(bank.ledger)
    ensures var after := Captured(bank, "s", "s", 100, 10.0).bank;
            after.wallets == map["s" := Wallet(0, 0, 90, true)] && Total(after.wallets) == Flows(after.ledger)
  {
    TenPercentOfAHundred();
    assert BuyerDebited(bank, "s", 100).wallets == map["s" := Wallet(0, 0, 0, true)];
    CaptureConserves(bank, "s", "s", 100, 10.0);
  }

  lemma ReverseToOneself(bank: Bank)
    requires bank.wallets == map["s" := Wallet(0, 0, 90, true)] && Total(bank.wallets) == Flows(bank.ledger)
    ensures var after := SaleReversed(bank, "s", "s", 100);
            after.wallets == map["s" := Wallet(100, 0, 0, true)] && Total(after.wallets) == Flows(after.ledger) + 10
  {
    assert SellerCharged(bank, "s", 100).wallets == map["s" := Wallet(-10, 0, 0, true)];
    ReversalTotal(bank, "s", "s", 100);
  }

  function SelfSold(): Bank {
    SaleReversed(Captured(Held(Deposited(EMPTY_BANK, "s", 100).bank, "s", 100).bank, "s", "s", 100, 10.0).bank, "s", "s", 100)
  }

  lemma SelfSoldMakesMoney()
    ensures SelfSold().wallets == map["s" := Wallet(100, 0, 0, true)]
    ensures Total(SelfSold().wallets) == Flows(SelfSold().ledger) + 10
  {
    var held := Held(Deposited(EMPTY_BANK, "s", 100).bank, "s", 100).bank;
    DepositAndHold();
    CaptureToOneself(held);
    ReverseToOneself(Captured(held, "s", "s", 100, 10.0).bank);
  }

  /** A run that makes money: 100 deposited, 10 of fee taken out, and 100 in the wallet after the reversal. */
  lemma SelfSaleMakesMoney()
    ensures Run(EMPTY_BANK, [Op.Deposit("s", 100), Hold("s", 100), Capture("s", "s", 100, 10.0), Reverse("s", "s", 100)]) == SelfSold()
    ensures SelfSold().wallets == map["s" := Wallet(100, 0, 0, true)]
    ensures Total(SelfSold().wallets) == Flows(SelfSold().ledger) + 10
  {
    RunOfFour(EMPTY_BANK, Op.Deposit("s", 100), Hold("s", 100), Capture("s", "s", 100, 10.0), Reverse("s", "s", 100));
    SelfSoldMakesMoney();
  }

  // ---------- The ledger is a history ----------

  function LastBalance(ledger: seq<Row>, user: User): int {
    if ledger == [] then 0
    else if ledger[|ledger| - 1].user == user then ledger[|ledger| - 1].after
    else LastBalance(ledger[..|ledger| - 1], user)
  }

  /** Each row starts from the balance its wallet's previous row left. */
  predicate Chained(ledger: seq<Row>) {
    ledger == [] ||
    var before, last := ledger[..|ledger| - 1], ledger[|ledger| - 1];
    Chained(before) && last.before == LastBalance(before, last.user)
  }

  /** The same, said of every row at once. */
  lemma {:induction false} ChainedEverywhere(ledger: seq<Row>, i: nat)
    requires Chained(ledger) && i < |ledger|
    ensures ledger[i].before == LastBalance(ledger[..i], ledger[i].user)
  {
    var n := |ledger| - 1;
    if i < n {
      assert ledger[..n][..i] == ledger[..i];
      ChainedEverywhere(ledger[..n], i);
    }
  }

  ghost predicate Audited(bank: Bank) {
    && Chained(bank.ledger)
    && forall user :: LastBalance(bank.ledger, user) == if user in bank.wallets then bank.wallets[user].balance else 0
  }

  /** A broken history is never mended. */
  lemma {:induction false} BrokenStaysBroken(before: seq<Row>, after: seq<Row>)
    requires before <= after && Chained(after)
    ensures Chained(before)
    decreases |after|
  {
    if before != after {
      BrokenStaysBroken(before, after[..|after| - 1]);
    }
  }

  lemma ChainedPut(ledger: seq<Row>, row: Row)
    ensures Chained(ledger + [row]) <==> Chained(ledger) && row.before == LastBalance(ledger, row.user)
  {
    assert (ledger + [row])[..|ledger|] == ledger;
  }

  lemma LastBalancePut(ledger: seq<Row>, row: Row, user: User)
    ensures LastBalance(ledger + [row], user) == if user == row.user then row.after else LastBalance(ledger, user)
  {
    assert (ledger + [row])[..|ledger|] == ledger;
  }

  lemma PutKeepsAudited(bank: Bank, user: User, w: Wallet, row: Row)
    requires Audited(bank) && user in bank.wallets
    requires row.user == user && row.before == bank.wallets[user].balance && row.after == w.balance
    ensures Audited(Put(bank, user, w, [row]))
  {
    ChainedPut(bank.ledger, row);
    var after := Put(bank, user, w, [row]);
    forall u ensures LastBalance(after.ledger, u) == if u in after.wallets then after.wallets[u].balance else 0 {
      LastBalancePut(bank.ledger, row, u);
    }
  }

  lemma EnsuredKeepsAudited(bank: Bank, user: User, active: bool)
    requires Audited(bank)
    ensures Audited(Ensured(bank, user, active))
  {
  }

  lemma CreditedKeepsAudited(bank: Bank, seller: User, price: nat, net: int, fee: int)
    requires Audited(bank) && seller in bank.wallets
    ensures Audited(Credited(bank, seller, price, net, fee))
  {
    var s := bank.wallets[seller];
    var s' := s.(pending := s.pending + net, active := true);
    var sale, due := Row(seller, CreditSale, price, s.balance, s.balance), Row(seller, FeePlatform, fee, s.balance, s.balance);
    PutTwo(bank, seller, s', sale, due);
    PutKeepsAudited(bank, seller, s', sale);
    PutKeepsAudited(Put(bank, seller, s', [sale]), seller, s', due);
  }

  lemma CaptureKeepsAudited(bank: Bank, buyer: User, seller: User, price: nat, rate: Percent)
    requires Audited(bank)
    ensures Audited(Captured(bank, buyer, seller, price, rate).bank)
  {
    var ready := Ensured(bank, seller, true);
    EnsuredKeepsAudited(bank, seller, true);
    if buyer in ready.wallets && ready.wallets[buyer].held >= price {
      var b := ready.wallets[buyer];
      PutKeepsAudited(ready, buyer, b.(held := b.held - price), Row(buyer, DebitOrder, price, b.balance, b.balance));
      CreditedKeepsAudited(BuyerDebited(ready, buyer, price), seller, price, SellerNet(price, rate), Commission(price, rate));
    }
  }

  lemma SellerChargedKeepsAudited(bank: Bank, seller: User, price: nat)
    requires Audited(bank) && seller in bank.wallets
    ensures Audited(SellerCharged(bank, seller, price))
  {
    var s := bank.wallets[seller];
    var fromPending := Min(s.pending, price);
    var left := s.balance - (price - fromPending);
    PutKeepsAudited(bank, seller, s.(balance := left, pending := s.pending - fromPending),
                    Row(seller, SaleReversal, price, s.balance, left));
  }

  lemma BuyerRefundedKeepsAudited(bank: Bank, buyer: User, price: nat)
    requires Audited(bank) && buyer in bank.wallets
    ensures Audited(BuyerRefunded(bank, buyer, bank.wallets[buyer].balance, price))
  {
    var b := bank.wallets[buyer];
    PutKeepsAudited(bank, buyer, b.(balance := b.balance + price, active := true),
                    Row(buyer, DisputeRefund, price, b.balance, b.balance + price));
  }

  lemma ReversalKeepsAudited(bank: Bank, buyer: User, seller: User, price: nat)
    requires Audited(bank) && buyer != seller
    ensures Audited(SaleReversed(bank, buyer, seller, price))
  {
    var ready := BothEnsured(bank, buyer, seller);
    EnsuredKeepsAudited(bank, buyer, true);
    EnsuredKeepsAudited(Ensured(bank, buyer, true), seller, true);
    SellerChargedKeepsAudited(ready, seller, price);
    BuyerRefundedKeepsAudited(SellerCharged(ready, seller, price), buyer, price);
  }

  lemma ReadyKeepsAudited(bank: Bank, op: Op)
    requires Audited(bank)
    ensures Audited(Ready(bank, op))
  {
    if op.Deposit? || op.Look? { EnsuredKeepsAudited(bank, op.user, op.Deposit?); }
  }

  lemma OneRowKeepsAudited(ready: Bank, after: Bank, user: User)
    requires Audited(ready) && OneRow(ready, after, user)
    ensures Audited(after)
  {
    PutKeepsAudited(ready, user, after.wallets[user], after.ledger[|ready.ledger|]);
  }

  lemma SingleKeepsAudited(bank: Bank, op: Op)
    requires Audited(bank) && Single(op)
    ensures Audited(Apply(bank, op).bank)
  {
    var ready, after, user := Ready(bank, op), Apply(bank, op).bank, Owner(op);
    SingleWritesOneRow(bank, op);
    ReadyKeepsAudited(bank, op);
    if OneRow(ready, after, user) {
      OneRowKeepsAudited(ready, after, user);
    }
  }

  lemma CoveredReversalKeepsAudited(bank: Bank, buyer: User, seller: User, price: nat)
    requires Audited(bank) && (buyer == seller ==> price <= PendingOf(bank, seller))
    ensures Audited(SaleReversed(bank, buyer, seller, price))
  {
    if buyer == seller {
      ReversalToOneselfBreaksTheLedger(bank, seller, price);
    } else {
      ReversalKeepsAudited(bank, buyer, seller, price);
    }
  }

  lemma CoveredKeepsAudited(bank: Bank, op: Op)
    requires Audited(bank) && Covered(bank, op)
    ensures Audited(Apply(bank, op).bank)
  {
    if op.Capture? {
      CaptureKeepsAudited(bank, op.buyer, op.seller, op.price, op.rate);
      assert Apply(bank, op) == Captured(bank, op.buyer, op.seller, op.price, op.rate);
    } else if op.Reverse? {
      CoveredReversalKeepsAudited(bank, op.buyer, op.seller, op.price);
      assert Apply(bank, op).bank == SaleReversed(bank, op.buyer, op.seller, op.price);
    } else {
      SingleKeepsAudited(bank, op);
    }
  }

  lemma UncoveredBreaks(bank: Bank, op: Op)
    requires Audited(bank) && !Covered(bank, op)
    ensures !Chained(Apply(bank, op).bank.ledger)
  {
    ReversalToOneselfBreaksTheLedger(bank, op.seller, op.price);
  }

  lemma StaysBroken(bank: Bank, op: Op)
    requires !Chained(bank.ledger)
    ensures !Chained(Apply(bank, op).bank.ledger)
  {
    var after := Apply(bank, op).bank.ledger;
    if Chained(after) { BrokenStaysBroken(bank.ledger, after); }
  }

  /**
   Over every run: when each reversal of a sale to oneself was covered by pending, each ledger row
   continues its wallet's previous one and the last is the balance of today. One that was not covered
   breaks the history for good.
   */
  lemma {:induction false} LedgerTellsEveryBalance(ops: seq<Op>)
    ensures AllCovered(ops) ==> Audited(Run(EMPTY_BANK, ops))
    ensures !AllCovered(ops) ==> !Chained(Run(EMPTY_BANK, ops).ledger)
  {
    if ops != [] {
      var before, op := Run(EMPTY_BANK, ops[..|ops| - 1]), ops[|ops| - 1];
      LedgerTellsEveryBalance(ops[..|ops| - 1]);
      AllCoveredAppend(ops);
      if !AllCovered(ops[..|ops| - 1]) {
        StaysBroken(before, op);
      } else if Covered(before, op) {
        CoveredKeepsAudited(before, op);
      } else {
        UncoveredBreaks(before, op);
      }
    }
  }

  /** A reversal of a sale to oneself breaks the history exactly when pending does not cover it. */
  lemma ReversalToOneselfBreaksTheLedger(bank: Bank, user: User, price: nat)
    requires Audited(bank)
    ensures var after := SaleReversed(bank, user, user, price);
            if price <= PendingOf(bank, user) then Audited(after) else !Chained(after.ledger)
  {
    var ready := Ensured(bank, user, true);
    EnsuredKeepsAudited(bank, user, true);
    ChargedAndRefunded(ready, user, price);
  }

  lemma ChargedAndRefunded(ready: Bank, user: User, price: nat)
    requires Audited(ready) && user in ready.wallets
    ensures var after := BuyerRefunded(SellerCharged(ready, user, price), user, ready.wallets[user].balance, price);
            if price <= ready.wallets[user].pending then Audited(after) else !Chained(after.ledger)
  {
    var charged := SellerCharged(ready, user, price);
    var after := BuyerRefunded(charged, user, ready.wallets[user].balance, price);
    var refund := after.ledger[|charged.ledger|];
    SellerChargedKeepsAudited(ready, user, price);
    if price <= ready.wallets[user].pending {
      PutKeepsAudited(charged, user, after.wallets[user], refund);
    } else {
      assert LastBalance(charged.ledger, user) == charged.wallets[user].balance;
      ChainedPut(charged.ledger, refund);
      assert after.ledger == charged.ledger + [refund];
    }
  }

  // ---------- Debt, in any state ----------

  ghost predicate FundsStand(bank: Bank) {
    forall user | user in bank.wallets :: bank.wallets[user].held >= 0 && bank.wallets[user].pending >= 0
  }

  lemma CaptureKeepsFunds(bank: Bank, buyer: User, seller: User, price: nat, net: nat, fee: nat)
    requires FundsStand(bank) && buyer in bank.wallets && seller in bank.wallets && price <= bank.wallets[buyer].held
    ensures FundsStand(Credited(BuyerDebited(bank, buyer, price), seller, price, net, fee))
  {
    var debited := BuyerDebited(bank, buyer, price);
    assert FundsStand(debited);
  }

  lemma ReversalKeepsFunds(ready: Bank, buyer: User, seller: User, price: nat, balance: int)
    requires FundsStand(ready) && buyer in ready.wallets && seller in ready.wallets
    ensures FundsStand(BuyerRefunded(SellerCharged(ready, seller, price), buyer, balance, price))
  {
    assert FundsStand(SellerCharged(ready, seller, price));
  }

  lemma ApplyKeepsFunds(bank: Bank, op: Op)
    requires FundsStand(bank)
    ensures FundsStand(Apply(bank, op).bank)
  {
    if op.Capture? {
      var ready := Ensured(bank, op.seller, true);
      assert FundsStand(ready);
      CommissionAndNet(op.price, op.rate);
      if op.buyer in ready.wallets && op.price <= ready.wallets[op.buyer].held {
        CaptureKeepsFunds(ready, op.buyer, op.seller, op.price, SellerNet(op.price, op.rate), Commission(op.price, op.rate));
      }
    } else if op.Reverse? {
      var ready := BothEnsured(bank, op.buyer, op.seller);
      assert FundsStand(Ensured(bank, op.buyer, true));
      assert FundsStand(ready);
      ReversalKeepsFunds(ready, op.buyer, op.seller, op.price, ready.wallets[op.buyer].balance);
    }
  }

  /** Over every run, held and pending funds never go below zero, debts or not. */
  lemma {:induction false} FundsNeverNegative(ops: seq<Op>)
    ensures FundsStand(Run(EMPTY_BANK, ops))
  {
    if ops != [] {
      FundsNeverNegative(ops[..|ops| - 1]);
      ApplyKeepsFunds(Run(EMPTY_BANK, ops[..|ops| - 1]), ops[|ops| - 1]);
    }
  }

  function BalanceOf(bank: Bank, user: User): int {
    if user in bank.wallets then bank.wallets[user].balance else 0
  }

  /** The balance ends below zero, and lower than it was. */
  predicate Indebts(bank: Bank, op: Op, user: User) {
    BalanceOf(Apply(bank, op).bank, user) < 0 && BalanceOf(Apply(bank, op).bank, user) < BalanceOf(bank, user)
  }

  lemma CaptureKeepsBalances(bank: Bank, buyer: User, seller: User, price: nat, rate: Percent, user: User)
    ensures BalanceOf(Captured(bank, buyer, seller, price, rate).bank, user) == BalanceOf(bank, user)
  {
  }

  lemma ReversedBalances(bank: Bank, buyer: User, seller: User, price: nat, user: User)
    ensures BalanceOf(SaleReversed(bank, buyer, seller, price), user) ==
            if user == buyer then BalanceOf(bank, user) + price
            else if user == seller then BalanceOf(bank, user) - (price - Min(PendingOf(bank, seller), price))
            else BalanceOf(bank, user)
  {
    var ready := BothEnsured(bank, buyer, seller);
    assert BalanceOf(ready, user) == BalanceOf(bank, user) && PendingOf(ready, seller) == PendingOf(bank, seller);
  }

  /**
   In any state, debts included, an operation makes or deepens a debt exactly when it reverses a sale
   between two people, the debt is the seller's, and a part of the price is left uncovered.
   */
  lemma WhenAnOperationMakesDebt(bank: Bank, op: Op, user: User)
    ensures Indebts(bank, op, user) <==>
            && op.Reverse? && op.buyer != op.seller && user == op.seller
            && ReversalSources(BothEnsured(bank, op.buyer, op.seller).wallets[op.seller], op.price).uncovered > 0
  {
    if Single(op) {
    } else if op.Capture? {
      CaptureKeepsBalances(bank, op.buyer, op.seller, op.price, op.rate, user);
    } else {
      ReversedBalances(bank, op.buyer, op.seller, op.price, user);
      var s := BothEnsured(bank, op.buyer, op.seller).wallets[op.seller];
      assert s.balance == BalanceOf(bank, op.seller) && s.pending == PendingOf(bank, op.seller);
    }
  }

  ghost predicate Solvent(bank: Bank) {
    forall user | user in bank.wallets ::
      bank.wallets[user].balance >= 0 && bank.wallets[user].held >= 0 && bank.wallets[user].pending >= 0
  }

  lemma SolventMeans(bank: Bank)
    ensures Solvent(bank) <==> FundsStand(bank) && forall user :: BalanceOf(bank, user) >= 0
  {
    if FundsStand(bank) && forall user :: BalanceOf(bank, user) >= 0 {
      forall user | user in bank.wallets ensures bank.wallets[user].balance >= 0 {
        assert BalanceOf(bank, user) >= 0;
      }
    }
  }

  /** The operation leaves a part of a reversal between two people uncovered, at this user's expense. */
  predicate LeavesUncovered(bank: Bank, op: Op, user: User) {
    && op.Reverse? && op.buyer != op.seller && user == op.seller
    && ReversalSources(BothEnsured(bank, op.buyer, op.seller).wallets[op.seller], op.price).uncovered > 0
  }

  lemma DebtFromNothing(bank: Bank, op: Op, user: User)
    requires BalanceOf(bank, user) >= 0
    ensures BalanceOf(Apply(bank, op).bank, user) < 0 <==> LeavesUncovered(bank, op, user)
  {
    WhenAnOperationMakesDebt(bank, op, user);
  }

  /** So a bank in which nothing is negative stays so exactly when no reversal leaves a part uncovered. */
  lemma ApplyKeepsSolvent(bank: Bank, op: Op)
    requires Solvent(bank)
    ensures Solvent(Apply(bank, op).bank) <==> forall user :: !LeavesUncovered(bank, op, user)
  {
    SolventMeans(bank);
    SolventMeans(Apply(bank, op).bank);
    ApplyKeepsFunds(bank, op);
    forall user ensures BalanceOf(Apply(bank, op).bank, user) < 0 <==> LeavesUncovered(bank, op, user) {
      DebtFromNothing(bank, op, user);
    }
  }
}
