/**
 The single point through which every provider answer passes: the cycle decides, then the wallet
 is credited behind a unique reservation of `(provider, paymentId)`. The credit is not one
 transaction: the reservation is inserted first and taken back if the deposit fails.

 What the database and the wallet do with each call is a parameter (`Faults`).
 */
module Payments {
  import opened Wrappers
  import opened PaymentCycle
  import PaymentReference

  datatype PaymentKey = PaymentKey(provider: Provider, paymentId: string)

  /** A deposit the wallet made, with the payment it was reserved under, if it had an id. */
  datatype Deposit = Deposit(userId: string, amount: real, reference: string, payment: Option<PaymentKey>)

  /** Which of the outside calls of one answer fail. A failed deposit moves no money. */
  datatype Faults = Faults(insertFails: bool, depositFails: bool, deleteFails: bool)

  datatype Db = Db(t: Tables, reservations: set<PaymentKey>, deposits: seq<Deposit>)

  datatype Credit = Credit(userId: string, amount: real)

  datatype CreditError = CreditError

  const EMPTY := Db(Tables(map[], [], map[], [], []), {}, [])

  // ---------- What one answer does, one call after another ----------

  /** The credit an answer asks for: none without COMPLETED, a parsable reference and a positive amount. */
  function CreditPlan(result: WebhookResult): Option<Credit> {
    if !result.status.Completed? then None
    else
      var user := PaymentReference.Parse(result.externalId);
      if user.None? || result.amount.None? || result.amount.value <= 0.0 then None
      else Some(Credit(user.value, result.amount.value))
  }

  /** The key to reserve; an absent or empty payment id cannot be reserved. */
  function KeyOf(provider: Provider, result: WebhookResult): Option<PaymentKey> {
    if result.paymentId.None? || result.paymentId.value == "" then None
    else Some(PaymentKey(provider, result.paymentId.value))
  }

  function Deposited(db: Db, credit: Credit, reference: string, payment: Option<PaymentKey>): Db {
    db.(deposits := db.deposits + [Deposit(credit.userId, credit.amount, reference, payment)])
  }

  /** The state after `creditOnce`, and whether it threw. */
  function CreditedOnce(db: Db, provider: Provider, result: WebhookResult, credit: Credit, f: Faults): (Db, bool) {
    var key := KeyOf(provider, result);
    if key.None? then
      // Without an id there is nothing to reserve, and a failure is swallowed.
      (if f.depositFails then db else Deposited(db, credit, result.externalId, None), false)
    else if f.insertFails then (db, true)
    else if key.value in db.reservations then (db, false)
    else
      var reserved := db.(reservations := db.reservations + {key.value});
      if !f.depositFails then (Deposited(reserved, credit, result.externalId, key), false)
      else if f.deleteFails then (reserved, true)
      else (db, true)
  }

  /** The state after `applyProviderResult`, and whether it threw. */
  function Applied(db: Db, provider: Provider, result: WebhookResult, now: Time, f: Faults): (Db, bool) {
    var evaluated := db.(t := Evaluated(db.t, provider, result, now));
    if !Decide(Row(db.t, result.externalId), result).Processed? then (evaluated, false)
    else
      var plan := CreditPlan(result);
      if plan.None? then (evaluated, false)
      else
        var (credited, threw) := CreditedOnce(evaluated, provider, result, plan.value, f);
        if threw then (credited.(t := Reopened(credited.t, result.externalId, now)), true)
        else (credited, false)
  }

  // ---------- The service ----------

  class PaymentsService {
    const paymentCycle: PaymentCycleService
    var reservations: set<PaymentKey>
    var deposits: seq<Deposit>

    constructor (paymentCycle: PaymentCycleService)
      ensures this.paymentCycle == paymentCycle
      ensures View() == Db(paymentCycle.View(), {}, [])
    {
      this.paymentCycle := paymentCycle;
      reservations, deposits := {}, [];
    }

    ghost function View(): Db
      reads this, paymentCycle
    {
      Db(paymentCycle.View(), reservations, deposits)
    }

    /** Opens the cycle before talking to the provider; an unusable provider is refused afterwards. */
    method InitiatePayment(userId: string, amount: real, provider: Provider, now: nat, adapterReady: bool)
      returns (reference: Option<string>)
      modifies paymentCycle
      ensures View() == old(View()).(t := Opened(old(View()).t, PaymentReference.Print(userId, now),
                                                 NewCycle(provider, userId, amount, PLATFORM_CURRENCY, now)))
      ensures reference == if adapterReady && PaymentReference.Print(userId, now) !in old(paymentCycle.cycles)
                           then Some(PaymentReference.Print(userId, now)) else None
    {
      var printed := PaymentReference.Print(userId, now);
      var created := paymentCycle.Open(provider, printed, userId, amount, Some(PLATFORM_CURRENCY), now);
      reference := if created && adapterReady then Some(printed) else None;
    }

    method ApplyProviderResult(provider: Provider, result: WebhookResult, now: Time, f: Faults)
      returns (r: Result<CycleDecision, CreditError>)
      modifies this, paymentCycle
      ensures View() == Applied(old(View()), provider, result, now, f).0
      ensures r.Failure? == Applied(old(View()), provider, result, now, f).1
      ensures r.Success? ==> r.value.outcome == Decide(Row(old(View()).t, result.externalId), result)
    {
      var decision := paymentCycle.Evaluate(provider, result, now);
      if !decision.shouldCredit {
        return Success(decision);
      }
      var threw := CreditFromResult(provider, result, f);
      if threw {
        paymentCycle.ReopenForRetry(result.externalId, now);
        return Failure(CreditError);
      }
      return Success(decision);
    }

    method CreditFromResult(provider: Provider, result: WebhookResult, f: Faults) returns (threw: bool)
      modifies this
      ensures var plan := CreditPlan(result);
              (View(), threw) == if plan.None? then (old(View()), false)
                                 else CreditedOnce(old(View()), provider, result, plan.value, f)
    {
      threw := false;
      if result.status == Completed {
        var user := PaymentReference.Parse(result.externalId);
        if user.Some? {
          var amount := if result.amount.Some? then result.amount.value else 0.0;
          if amount > 0.0 {
            threw := CreditOnce(provider, result, Credit(user.value, amount), f);
          }
        }
      }
    }

    method CreditOnce(provider: Provider, result: WebhookResult, credit: Credit, f: Faults) returns (threw: bool)
      modifies this
      ensures (View(), threw) == CreditedOnce(old(View()), provider, result, credit, f)
    {
      if result.paymentId.None? || result.paymentId.value == "" {
        var _ := CreditWallet(credit, result.externalId, None, f.depositFails);
        return false;
      }
      var key := PaymentKey(provider, result.paymentId.value);

      if f.insertFails {
        return true;
      }
      if key in reservations {
        return false;
      }
      reservations := reservations + {key};

      threw := CreditWallet(credit, result.externalId, Some(key), f.depositFails);
      if threw && !f.deleteFails {
        reservations := reservations - {key};
        assert reservations == old(reservations);
      }
    }

    method CreditWallet(credit: Credit, reference: string, payment: Option<PaymentKey>, depositFails: bool)
      returns (threw: bool)
      modifies this`deposits
      ensures threw == depositFails
      ensures View() == if depositFails then old(View()) else Deposited(old(View()), credit, reference, payment)
    {
      if depositFails {
        return true;
      }
      deposits := deposits + [Deposit(credit.userId, credit.amount, reference, payment)];
      threw := false;
    }
  }
}
