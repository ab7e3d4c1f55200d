/**
 Wallets and their ledger. Every operation locks the rows it touches, so operations on the model
 happen one at a time. Amounts are whole cents; only the commission has fractions, and those are
 rounded when they are stored.
 */
module Wallets {
  import opened Wrappers
  import opened Commissions

  type User = string

  /** Spendable balance, funds held by bids, and sale proceeds not yet released. */
  datatype Wallet = Wallet(balance: int, held: int, pending: int, active: bool)

  datatype Kind =
    | Deposit | Withdrawal | WithdrawalRefund
    | HoldBid | ReleaseBid
    | DebitOrder | CreditSale | FeePlatform | SettlementRelease
    | SaleReversal | DisputeRefund

  /** A ledger row: the spendable balance before and after the operation. */
  datatype Row = Row(user: User, kind: Kind, amount: int, before: int, after: int)

  datatype Bank = Bank(wallets: map<User, Wallet>, ledger: seq<Row>)

  datatype WalletError = NotPositive | NoWallet | Inactive | InsufficientBalance | NotHeld

  datatype Effect = Effect(bank: Bank, error: Option<WalletError>)

  const EMPTY_BANK := Bank(map[], [])

  function PendingOf(bank: Bank, user: User): int {
    if user in bank.wallets then bank.wallets[user].pending else 0
  }

  // ---------- Operations ----------

  function Fail(bank: Bank, error: WalletError): Effect {
    Effect(bank, Some(error))
  }

  /** Creates an empty wallet unless there is one; outside the operation's own transaction. */
  function Ensured(bank: Bank, user: User, active: bool): Bank {
    if user in bank.wallets then bank else bank.(wallets := bank.wallets[user := Wallet(0, 0, 0, active)])
  }

  function Put(bank: Bank, user: User, wallet: Wallet, rows: seq<Row>): Bank {
    Bank(bank.wallets[user := wallet], bank.ledger + rows)
  }

  function Deposited(bank: Bank, user: User, amount: int): Effect {
    if amount <= 0 then Fail(bank, NotPositive)
    else
      var ready := Ensured(bank, user, true);
      var w := ready.wallets[user];
      var after := w.balance + amount;
      Effect(Put(ready, user, w.(balance := after, active := true), [Row(user, Deposit, amount, w.balance, after)]), None)
  }

  function Withdrawn(bank: Bank, user: User, amount: int): Effect {
    if amount <= 0 then Fail(bank, NotPositive)
    else if user !in bank.wallets then Fail(bank, NoWallet)
    else
      var w := bank.wallets[user];
      var after := w.balance - amount;
      if w.balance < amount then Fail(bank, InsufficientBalance)
      else Effect(Put(bank, user, w.(balance := after), [Row(user, Withdrawal, amount, w.balance, after)]), None)
  }

  function RefundedWithdrawal(bank: Bank, user: User, amount: nat): Effect {
    if user !in bank.wallets then Fail(bank, NoWallet)
    else
      var w := bank.wallets[user];
      var after := w.balance + amount;
      Effect(Put(bank, user, w.(balance := after), [Row(user, WithdrawalRefund, amount, w.balance, after)]), None)
  }

  function Held(bank: Bank, user: User, amount: int): Effect {
    if amount <= 0 then Fail(bank, NotPositive)
    else if user !in bank.wallets then Fail(bank, NoWallet)
    else
      var w := bank.wallets[user];
      var after := w.balance - amount;
      if !w.active then Fail(bank, Inactive)
      else if w.balance < amount then Fail(bank, InsufficientBalance)
      else
        Effect(Put(bank, user, w.(balance := after, held := w.held + amount),
                   [Row(user, HoldBid, amount, w.balance, after)]), None)
  }

  function Released(bank: Bank, user: User, amount: int): Effect {
    if amount <= 0 then Fail(bank, NotPositive)
    else if user !in bank.wallets then Fail(bank, NoWallet)
    else
      var w := bank.wallets[user];
      var after := w.balance + amount;
      if w.held < amount then Fail(bank, NotHeld)
      else
        Effect(Put(bank, user, w.(balance := after, held := w.held - amount),
                   [Row(user, ReleaseBid, amount, w.balance, after)]), None)
  }

  /** The buyer's side of a sale: held funds are spent, the balance stays. */
  function BuyerDebited(bank: Bank, buyer: User, amount: nat): Bank
    requires buyer in bank.wallets
  {
    var b := bank.wallets[buyer];
    Put(bank, buyer, b.(held := b.held - amount), [Row(buyer, DebitOrder, amount, b.balance, b.balance)])
  }

  /** The seller's side: the net is pending. It is stored rounded, and what was pending is whole. */
  function SellerCredited(bank: Bank, seller: User, amount: nat, rate: Percent): Bank
    requires seller in bank.wallets
  {
    Credited(bank, seller, amount, SellerNet(amount, rate), Commission(amount, rate))
  }

  function Credited(bank: Bank, seller: User, amount: nat, net: int, fee: int): Bank
    requires seller in bank.wallets
  {
    var s := bank.wallets[seller];
    Put(bank, seller, s.(pending := s.pending + net, active := true),
        [Row(seller, CreditSale, amount, s.balance, s.balance), Row(seller, FeePlatform, fee, s.balance, s.balance)])
  }

  /** The buyer's held funds become the seller's pending net; the fee leaves the wallets. */
  function Captured(bank: Bank, buyer: User, seller: User, amount: nat, rate: Percent): Effect {
    var ready := Ensured(bank, seller, true);
    if buyer !in ready.wallets then Fail(ready, NoWallet)
    else if ready.wallets[buyer].held < amount then Fail(ready, InsufficientBalance)
    else Effect(SellerCredited(BuyerDebited(ready, buyer, amount), seller, amount, rate), None)
  }

  /** Moves a sale's net from pending to spendable; says nothing when too little is pending. */
  function SettlementReleased(bank: Bank, seller: User, amount: nat): Effect {
    if seller !in bank.wallets then Fail(bank, NoWallet)
    else
      var w := bank.wallets[seller];
      var after := w.balance + amount;
      if w.pending < amount then Effect(bank, None)
      else
        Effect(Put(bank, seller, w.(balance := after, pending := w.pending - amount, active := true),
                   [Row(seller, SettlementRelease, amount, w.balance, after)]), None)
  }

  function Min(a: int, b: int): int { if a < b then a else b }

  function Max(a: int, b: int): int { if a < b then b else a }

  /** Where the money of a reversed sale came from. */
  datatype Sources = Sources(fromPending: int, fromBalance: int, uncovered: int)

  /** What the seller has is taken in order, as far as it goes; the debt is whatever that leaves. */
  function ReversalSources(seller: Wallet, amount: nat): (r: Sources)
    ensures r.fromPending + r.fromBalance + r.uncovered == amount
    ensures 0 <= r.fromBalance <= Max(0, seller.balance) && 0 <= r.uncovered
    ensures seller.pending >= 0 ==> 0 <= r.fromPending <= seller.pending
    ensures r.fromBalance > 0 ==> r.fromPending == seller.pending
    ensures r.uncovered > 0 ==> r.fromPending == seller.pending && r.fromBalance == Max(0, seller.balance)
    ensures seller.pending >= 0 ==> (r.uncovered == 0 <==> amount <= seller.pending + Max(0, seller.balance))
  {
    var fromPending := Min(seller.pending, amount);
    var rest := amount - fromPending;
    var fromBalance := Max(0, Min(seller.balance, rest));
    Sources(fromPending, fromBalance, rest - fromBalance)
  }

  /** The seller's side of a reversal: pending first, and the rest from the balance, into debt if need be. */
  function SellerCharged(bank: Bank, seller: User, amount: nat): Bank
    requires seller in bank.wallets
  {
    var s := bank.wallets[seller];
    var fromPending := Min(s.pending, amount);
    var after := s.balance - (amount - fromPending);
    Put(bank, seller, s.(balance := after, pending := s.pending - fromPending),
        [Row(seller, SaleReversal, amount, s.balance, after)])
  }

  /** The buyer's side, over a balance that was read before the seller was charged. */
  function BuyerRefunded(bank: Bank, buyer: User, balance: int, amount: nat): Bank
    requires buyer in bank.wallets
  {
    Put(bank, buyer, bank.wallets[buyer].(balance := balance + amount, active := true),
        [Row(buyer, DisputeRefund, amount, balance, balance + amount)])
  }

  function BothEnsured(bank: Bank, buyer: User, seller: User): (ready: Bank)
    ensures buyer in ready.wallets && seller in ready.wallets
  {
    Ensured(Ensured(bank, buyer, true), seller, true)
  }

  /** Takes the amount from the seller and gives it to the buyer. */
  function SaleReversed(bank: Bank, buyer: User, seller: User, amount: nat): Bank {
    var ready := BothEnsured(bank, buyer, seller);
    BuyerRefunded(SellerCharged(ready, seller, amount), buyer, ready.wallets[buyer].balance, amount)
  }

  // ---------- The service ----------

  class WalletService {
    var wallets: map<User, Wallet>
    var ledger: seq<Row>

    constructor ()
      ensures View() == EMPTY_BANK
    {
      wallets, ledger := map[], [];
    }

    ghost function View(): Bank
      reads this
    {
      Bank(wallets, ledger)
    }

    method EnsureWallet(user: User, active: bool) returns (w: Wallet)
      modifies this`wallets
      ensures View() == Ensured(old(View()), user, active)
      ensures user in wallets && w == wallets[user]
    {
      if user !in wallets {
        wallets := wallets[user := Wallet(0, 0, 0, active)];
      }
      w := wallets[user];
    }

    /** Reading a wallet creates it, inactive, where there is none. */
    method GetWallet(user: User) returns (w: Wallet)
      modifies this`wallets
      ensures View() == Ensured(old(View()), user, false)
      ensures user in wallets && w == wallets[user]
    {
      w := EnsureWallet(user, false);
    }

    method Deposit(user: User, amount: int) returns (error: Option<WalletError>)
      modifies this
      ensures Effect(View(), error) == Deposited(old(View()), user, amount)
    {
      if amount <= 0 {
        return Some(NotPositive);
      }
      var w := EnsureWallet(user, true);
      var after := w.balance + amount;
      ledger := ledger + [Row(user, Kind.Deposit, amount, w.balance, after)];
      wallets := wallets[user := w.(balance := after, active := true)];
      error := None;
    }

    method Withdraw(user: User, amount: int) returns (error: Option<WalletError>)
      modifies this
      ensures Effect(View(), error) == Withdrawn(old(View()), user, amount)
    {
      if amount <= 0 {
        return Some(NotPositive);
      }
      if user !in wallets {
        return Some(NoWallet);
      }
      var w := wallets[user];
      if w.balance < amount {
        return Some(InsufficientBalance);
      }
      var after := w.balance - amount;
      ledger := ledger + [Row(user, Withdrawal, amount, w.balance, after)];
      wallets := wallets[user := w.(balance := after)];
      error := None;
    }

    method RefundWithdrawal(user: User, amount: nat) returns (error: Option<WalletError>)
      modifies this
      ensures Effect(View(), error) == RefundedWithdrawal(old(View()), user, amount)
    {
      if user !in wallets {
        return Some(NoWallet);
      }
      var w := wallets[user];
      var after := w.balance + amount;
      ledger := ledger + [Row(user, WithdrawalRefund, amount, w.balance, after)];
      wallets := wallets[user := w.(balance := after)];
      error := None;
    }

    method HoldFunds(user: User, amount: int) returns (error: Option<WalletError>)
      modifies this
      ensures Effect(View(), error) == Held(old(View()), user, amount)
    {
      if amount <= 0 {
        return Some(NotPositive);
      }
      if user !in wallets {
        return Some(NoWallet);
      }
      var w := wallets[user];
      if !w.active {
        return Some(Inactive);
      }
      if w.balance < amount {
        return Some(InsufficientBalance);
      }
      var after := w.balance - amount;
      ledger := ledger + [Row(user, HoldBid, amount, w.balance, after)];
      wallets := wallets[user := w.(balance := after, held := w.held + amount)];
      error := None;
    }

    method ReleaseFunds(user: User, amount: int) returns (error: Option<WalletError>)
      modifies this
      ensures Effect(View(), error) == Released(old(View()), user, amount)
    {
      if amount <= 0 {
        return Some(NotPositive);
      }
      if user !in wallets {
        return Some(NoWallet);
      }
      var w := wallets[user];
      if w.held < amount {
        return Some(NotHeld);
      }
      var after := w.balance + amount;
      ledger := ledger + [Row(user, ReleaseBid, amount, w.balance, after)];
      wallets := wallets[user := w.(balance := after, held := w.held - amount)];
      error := None;
    }

    method CaptureHeldFunds(buyer: User, seller: User, amount: nat, rate: Percent) returns (error: Option<WalletError>)
      modifies this
      ensures Effect(View(), error) == Captured(old(View()), buyer, seller, amount, rate)
    {
      var _ := EnsureWallet(seller, true);
      if buyer !in wallets {
        return Some(NoWallet);
      }
      var b := wallets[buyer];
      if b.held < amount {
        return Some(InsufficientBalance);
      }
      ledger := ledger + [Row(buyer, DebitOrder, amount, b.balance, b.balance)];
      wallets := wallets[buyer := b.(held := b.held - amount)];

      var s := wallets[seller];
      ledger := ledger + [Row(seller, CreditSale, amount, s.balance, s.balance)];
      ledger := ledger + [Row(seller, FeePlatform, Commission(amount, rate), s.balance, s.balance)];
      wallets := wallets[seller := s.(pending := s.pending + SellerNet(amount, rate), active := true)];
      error := None;
      assert ledger == old(ledger) + [Row(buyer, DebitOrder, amount, b.balance, b.balance)] +
                       [Row(seller, CreditSale, amount, s.balance, s.balance),
                        Row(seller, FeePlatform, Commission(amount, rate), s.balance, s.balance)];
    }

    method ReleaseSettlement(seller: User, amount: nat) returns (error: Option<WalletError>)
      modifies this
      ensures Effect(View(), error) == SettlementReleased(old(View()), seller, amount)
    {
      if seller !in wallets {
        return Some(NoWallet);
      }
      var w := wallets[seller];
      if w.pending < amount {
        return None;
      }
      var after := w.balance + amount;
      ledger := ledger + [Row(seller, SettlementRelease, amount, w.balance, after)];
      wallets := wallets[seller := w.(balance := after, pending := w.pending - amount, active := true)];
      error := None;
    }

    method ReverseSale(buyer: User, seller: User, amount: nat) returns (sources: Sources)
      modifies this
      ensures View() == SaleReversed(old(View()), buyer, seller, amount)
      ensures sources == ReversalSources(BothEnsured(old(View()), buyer, seller).wallets[seller], amount)
    {
      var _ := EnsureWallet(buyer, true);
      var s := EnsureWallet(seller, true);
      var b := wallets[buyer];

      var fromPending := Min(s.pending, amount);
      var rest := amount - fromPending;
      var fromBalance := Max(0, Min(s.balance, rest));
      ledger := ledger + [Row(seller, SaleReversal, amount, s.balance, s.balance - rest)];
      wallets := wallets[seller := s.(balance := s.balance - rest, pending := s.pending - fromPending)];

      ledger := ledger + [Row(buyer, DisputeRefund, amount, b.balance, b.balance + amount)];
      wallets := wallets[buyer := wallets[buyer].(balance := b.balance + amount, active := true)];
      sources := Sources(fromPending, fromBalance, rest - fromBalance);
    }
  }
}
