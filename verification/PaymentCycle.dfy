/**
 The life of one deposit: REQUEST, CONFIRMATION by the provider, CLOSE. Only the first answer
 decides; later ones are recorded and change nothing but the anomaly flag.

 Amounts are exact, times are milliseconds, and every read of the clock is a parameter.
 */
module PaymentCycle {
  import opened Wrappers
  import PaymentReference

  type Provider = string
  type Time = int

  const PLATFORM_CURRENCY := "MXN"

  const FIRST_CHECK_MS: Time := 60_000
  const CHECK_BACKOFF_MS: seq<Time> := [60_000, 300_000, 900_000, 3_600_000, 21_600_000]
  const CHECK_BACKOFF_TAIL_MS: Time := 43_200_000
  const EXPIRATION_MS: Time := 72 * 3_600_000

  datatype Status = Requested | Confirmed | Settled | Failed | Anomaly | Expired

  datatype Answer = Pending | Completed | Failed | Refunded

  /** What a provider said about a payment. A missing payment id is `None`; it may also be empty. */
  datatype WebhookResult =
    WebhookResult(paymentId: Option<string>, externalId: string, status: Answer, amount: Option<real>)

  /** A row of the cycle table. The table is keyed by the row's unique reference. */
  datatype Cycle = Cycle(
    provider: Provider,
    userId: string,
    amount: real,
    currency: string,
    status: Status,
    canonicalPaymentId: Option<string>,
    requestedAt: Time,
    respondedAt: Option<Time>,
    settledAt: Option<Time>,
    nextCheckAt: Option<Time>,
    checkCount: nat)
  {
    predicate IsOpen() {
      status.Requested? || status.Confirmed?
    }
  }

  datatype Outcome = Processed | Duplicate | Cancelled | Rejected | Anomaly | Orphan

  datatype CycleEvent = CycleEvent(reference: string, provider: Provider, paymentId: string, outcome: Outcome)

  /** An accounting row, one per reference. */
  datatype PaymentRow =
    PaymentRow(provider: Provider, completed: bool, amount: real, currency: string, externalId: Option<string>)

  datatype RefundRequest = RefundRequest(reference: string, amount: real, currency: string)

  datatype Tables = Tables(
    cycles: map<string, Cycle>,
    events: seq<CycleEvent>,
    payments: map<string, PaymentRow>,
    refunds: seq<RefundRequest>,
    reopenings: seq<string>)

  datatype CycleDecision = CycleDecision(shouldCredit: bool, outcome: Outcome)

  datatype Mismatch = WrongCurrency | WrongAmount | WrongUser

  // ---------- Decisions ----------

  /** Compares the request with the confirmation; any difference keeps the money out. */
  function CheckInvariant(cycle: Cycle, reference: string, result: WebhookResult): Option<Mismatch> {
    if cycle.currency != PLATFORM_CURRENCY then Some(WrongCurrency)
    else if result.amount.Some? && cycle.amount != result.amount.value then Some(WrongAmount)
    else
      var group := PaymentReference.Parse(reference);
      if group.Some? && group.value != cycle.userId then Some(WrongUser) else None
  }

  /** A stored id that is absent never equals an answer's id, not even an absent one. */
  predicate SamePayment(cycle: Cycle, result: WebhookResult) {
    result.paymentId.Some? && cycle.canonicalPaymentId == result.paymentId
  }

  function Decide(row: Option<Cycle>, result: WebhookResult): Outcome {
    match row
    case None => Orphan
    case Some(cycle) =>
      if !cycle.IsOpen() then
        if SamePayment(cycle, result) then Duplicate else Cancelled
      else if !result.status.Completed? then Rejected
      else if CheckInvariant(cycle, result.externalId, result).Some? then Outcome.Anomaly
      else Processed
  }

  // ---------- Effects on the tables ----------

  function Row(t: Tables, reference: string): Option<Cycle> {
    if reference in t.cycles then Some(t.cycles[reference]) else None
  }

  /** An update with an absent payment id leaves the stored one as it was. */
  function NotedPaymentId(cycle: Cycle, result: WebhookResult): Option<string> {
    if result.paymentId.Some? then result.paymentId else cycle.canonicalPaymentId
  }

  function Flagged(cycle: Cycle, now: Time): Cycle {
    cycle.(status := Status.Anomaly, respondedAt := Some(now), nextCheckAt := None)
  }

  function Answered(cycle: Cycle, outcome: Outcome, result: WebhookResult, now: Time): Cycle {
    match outcome
    case Rejected =>
      cycle.(status := Status.Failed, respondedAt := Some(now),
             canonicalPaymentId := NotedPaymentId(cycle, result), nextCheckAt := None)
    case Processed =>
      cycle.(status := Settled, respondedAt := Some(now), settledAt := Some(now),
             canonicalPaymentId := NotedPaymentId(cycle, result), nextCheckAt := None)
    case Cancelled => Flagged(cycle, now)
    case Anomaly => Flagged(cycle, now)
    case _ => cycle
  }

  function PaymentOf(provider: Provider, currency: string, result: WebhookResult, completed: bool): PaymentRow {
    PaymentRow(provider, completed, if result.amount.Some? then result.amount.value else 0.0, currency,
               result.paymentId)
  }

  /** Idempotent by reference: a second write keeps provider, amount and currency of the first. */
  function Upserted(payments: map<string, PaymentRow>, reference: string, row: PaymentRow): map<string, PaymentRow> {
    if reference in payments then
      var old' := payments[reference];
      payments[reference := old'.(completed := row.completed,
                                  externalId := if row.externalId.Some? then row.externalId else old'.externalId)]
    else
      payments[reference := row]
  }

  function EventOf(provider: Provider, result: WebhookResult, outcome: Outcome): CycleEvent {
    CycleEvent(result.externalId, provider, if result.paymentId.Some? then result.paymentId.value else "", outcome)
  }

  /** Everything one decision writes, over the tables as they are when it is written. */
  function Decided(t: Tables, provider: Provider, result: WebhookResult, outcome: Outcome, now: Time): Tables {
    var logged := t.(events := t.events + [EventOf(provider, result, outcome)]);
    var reference := result.externalId;
    if reference !in t.cycles then logged
    else
      var cycle := t.cycles[reference];
      var updated := logged.(cycles := t.cycles[reference := Answered(cycle, outcome, result, now)]);
      match outcome
      case Processed =>
        updated.(payments := Upserted(t.payments, reference, PaymentOf(provider, cycle.currency, result, true)))
      case Rejected =>
        updated.(payments := Upserted(t.payments, reference, PaymentOf(provider, cycle.currency, result, false)))
      case Cancelled =>
        updated.(refunds := t.refunds + [RefundRequest(reference, if result.amount.Some? then result.amount.value else 0.0,
                                                       cycle.currency)])
      case _ => updated
  }

  function Evaluated(t: Tables, provider: Provider, result: WebhookResult, now: Time): Tables {
    Decided(t, provider, result, Decide(Row(t, result.externalId), result), now)
  }

  function NewCycle(provider: Provider, userId: string, amount: real, currency: string, now: Time): Cycle {
    Cycle(provider, userId, amount, currency, Requested, None, now, None, None, Some(now + FIRST_CHECK_MS), 0)
  }

  /** References are unique: a second request under the same one is refused. */
  function Opened(t: Tables, reference: string, cycle: Cycle): Tables {
    if reference in t.cycles then t else t.(cycles := t.cycles[reference := cycle])
  }

  function Reopened(t: Tables, reference: string, now: Time): Tables {
    if reference !in t.cycles then t
    else
      t.(cycles := t.cycles[reference := t.cycles[reference].(status := Requested,
                                                              nextCheckAt := Some(now + FIRST_CHECK_MS))],
         reopenings := t.reopenings + [reference])
  }

  function ExpiredIn(t: Tables, reference: string): Tables {
    if reference !in t.cycles then t
    else t.(cycles := t.cycles[reference := t.cycles[reference].(status := Status.Expired, nextCheckAt := None)])
  }

  function CheckDelay(checkCount: nat): (delay: Time)
    ensures FIRST_CHECK_MS <= delay <= CHECK_BACKOFF_TAIL_MS
  {
    if checkCount < |CHECK_BACKOFF_MS| then CHECK_BACKOFF_MS[checkCount] else CHECK_BACKOFF_TAIL_MS
  }

  /** The delay is chosen by the count the caller read; the stored count is what is incremented. */
  function Rescheduled(t: Tables, reference: string, checkCount: nat, now: Time): Tables {
    if reference !in t.cycles then t
    else
      var cycle := t.cycles[reference];
      t.(cycles := t.cycles[reference := cycle.(checkCount := cycle.checkCount + 1,
                                                nextCheckAt := Some(now + CheckDelay(checkCount)))])
  }

  predicate IsExpired(cycle: Cycle, now: Time) {
    now - cycle.requestedAt > EXPIRATION_MS
  }

  predicate IsDue(cycle: Cycle, now: Time) {
    cycle.status.Requested? && cycle.nextCheckAt.Some? && cycle.nextCheckAt.value <= now
  }

  // ---------- The service ----------

  class PaymentCycleService {
    var cycles: map<string, Cycle>
    var events: seq<CycleEvent>
    var payments: map<string, PaymentRow>
    var refunds: seq<RefundRequest>
    var reopenings: seq<string>

    constructor ()
      ensures View() == Tables(map[], [], map[], [], [])
    {
      cycles, events, payments, refunds, reopenings := map[], [], map[], [], [];
    }

    ghost function View(): Tables
      reads this
    {
      Tables(cycles, events, payments, refunds, reopenings)
    }

    method Open(provider: Provider, reference: string, userId: string, amount: real, currency: Option<string>, now: Time)
      returns (created: bool)
      modifies this
      ensures created == (reference !in old(cycles))
      ensures View() == Opened(old(View()), reference,
                               NewCycle(provider, userId, amount,
                                        if currency.Some? then currency.value else PLATFORM_CURRENCY, now))
    {
      if reference in cycles {
        return false;
      }
      var unit := if currency.Some? then currency.value else PLATFORM_CURRENCY;
      cycles := cycles[reference := NewCycle(provider, userId, amount, unit, now)];
      created := true;
    }

    method Evaluate(provider: Provider, result: WebhookResult, now: Time) returns (decision: CycleDecision)
      modifies this
      ensures View() == Evaluated(old(View()), provider, result, now)
      ensures decision.outcome == Decide(Row(old(View()), result.externalId), result)
      ensures decision.shouldCredit == decision.outcome.Processed?
    {
      var reference := result.externalId;
      if reference !in cycles {
        Record(provider, result, Orphan);
        return CycleDecision(false, Orphan);
      }
      var cycle := cycles[reference];

      if cycle.status != Requested && cycle.status != Confirmed {
        if SamePayment(cycle, result) {
          Record(provider, result, Duplicate);
          return CycleDecision(false, Duplicate);
        }
        FlagAnomaly(reference, now);
        Record(provider, result, Cancelled);
        RaiseRefund(reference, cycle.currency, result);
        return CycleDecision(false, Cancelled);
      }

      if result.status != Completed {
        cycles := cycles[reference := cycle.(status := Status.Failed, respondedAt := Some(now),
                                             canonicalPaymentId := NotedPaymentId(cycle, result),
                                             nextCheckAt := None)];
        Record(provider, result, Rejected);
        WritePaymentRow(reference, cycle.currency, provider, result, false);
        return CycleDecision(false, Rejected);
      }

      var mismatch := CheckInvariant(cycle, reference, result);
      if mismatch.Some? {
        FlagAnomaly(reference, now);
        Record(provider, result, Outcome.Anomaly);
        return CycleDecision(false, Outcome.Anomaly);
      }

      cycles := cycles[reference := cycle.(status := Settled, canonicalPaymentId := NotedPaymentId(cycle, result),
                                           respondedAt := Some(now), settledAt := Some(now), nextCheckAt := None)];
      Record(provider, result, Processed);
      WritePaymentRow(reference, cycle.currency, provider, result, true);
      return CycleDecision(true, Processed);
    }

    method ReopenForRetry(reference: string, now: Time)
      modifies this
      ensures View() == Reopened(old(View()), reference, now)
    {
      if reference in cycles {
        cycles := cycles[reference := cycles[reference].(status := Requested,
                                                         nextCheckAt := Some(now + FIRST_CHECK_MS))];
        reopenings := reopenings + [reference];
      }
    }

    method Expire(reference: string)
      modifies this`cycles
      ensures View() == ExpiredIn(old(View()), reference)
    {
      if reference in cycles {
        cycles := cycles[reference := cycles[reference].(status := Status.Expired, nextCheckAt := None)];
      }
    }

    method ScheduleNextCheck(reference: string, checkCount: nat, now: Time)
      modifies this`cycles
      ensures View() == Rescheduled(old(View()), reference, checkCount, now)
    {
      var delay := if checkCount < |CHECK_BACKOFF_MS| then CHECK_BACKOFF_MS[checkCount] else CHECK_BACKOFF_TAIL_MS;
      if reference in cycles {
        var cycle := cycles[reference];
        cycles := cycles[reference := cycle.(checkCount := cycle.checkCount + 1, nextCheckAt := Some(now + delay))];
      }
    }

    method FlagAnomaly(reference: string, now: Time)
      requires reference in cycles
      modifies this`cycles
      ensures cycles == old(cycles)[reference := Flagged(old(cycles)[reference], now)]
    {
      cycles := cycles[reference := cycles[reference].(status := Status.Anomaly, respondedAt := Some(now),
                                                       nextCheckAt := None)];
    }

    method Record(provider: Provider, result: WebhookResult, outcome: Outcome)
      modifies this`events
      ensures events == old(events) + [EventOf(provider, result, outcome)]
    {
      events := events + [EventOf(provider, result, outcome)];
    }

    method WritePaymentRow(reference: string, currency: string, provider: Provider, result: WebhookResult, completed: bool)
      modifies this`payments
      ensures payments == Upserted(old(payments), reference, PaymentOf(provider, currency, result, completed))
    {
      var row := PaymentOf(provider, currency, result, completed);
      if reference in payments {
        var stored := payments[reference];
        payments := payments[reference := stored.(completed := completed,
                                                  externalId := if row.externalId.Some? then row.externalId
                                                                else stored.externalId)];
      } else {
        payments := payments[reference := row];
      }
    }

    method RaiseRefund(reference: string, currency: string, result: WebhookResult)
      modifies this`refunds
      ensures refunds == old(refunds) +
                         [RefundRequest(reference, if result.amount.Some? then result.amount.value else 0.0, currency)]
    {
      var amount := if result.amount.Some? then result.amount.value else 0.0;
      refunds := refunds + [RefundRequest(reference, amount, currency)];
    }
  }
}
