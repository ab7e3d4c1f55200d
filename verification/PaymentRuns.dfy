/**
 Every run in which answers are applied one at a time, with any mixture of providers, payment ids,
 amounts, failures, retries and expirations. `Expire` and `Reschedule` may come at any moment, as
 they do when the polling loop acts on rows it read earlier.
 */
module PaymentRuns {
  import opened Wrappers
  import opened PaymentCycle
  import opened Payments
  import opened Tally
  import PaymentReference

  datatype Step =
    | Open(reference: string, provider: Provider, userId: string, amount: real, currency: string, at: Time)
    | Apply(from: Provider, result: WebhookResult, now: Time, faults: Faults)
    | Expire(expired: string)
    | Reschedule(checked: string, checkCount: nat, when: Time)

  function Next(db: Db, step: Step): Db {
    match step
    case Open(reference, provider, userId, amount, currency, at) =>
      db.(t := Opened(db.t, reference, NewCycle(provider, userId, amount, currency, at)))
    case Apply(provider, result, now, f) => Applied(db, provider, result, now, f).0
    case Expire(reference) => db.(t := ExpiredIn(db.t, reference))
    case Reschedule(reference, checkCount, when) => db.(t := Rescheduled(db.t, reference, checkCount, when))
  }

  function Run(db: Db, steps: seq<Step>): Db {
    if steps == [] then db else Next(Run(db, steps[..|steps| - 1]), steps[|steps| - 1])
  }

  lemma RunAppend(db: Db, steps: seq<Step>, step: Step)
    ensures Run(db, steps + [step]) == Next(Run(db, steps), step)
  {
    assert (steps + [step])[..|steps|] == steps;
  }

  // ---------- What is counted, per reference ----------

  function DepositsTo(db: Db, reference: string): nat {
    Count(db.deposits, (d: Deposit) => d.reference == reference)
  }

  function EventsOf(t: Tables, reference: string, outcome: Outcome): nat {
    Count(t.events, (e: CycleEvent) => e.reference == reference && e.outcome == outcome)
  }

  function ReopeningsOf(t: Tables, reference: string): nat {
    Count(t.reopenings, (r: string) => r == reference)
  }

  function RefundsOf(t: Tables, reference: string): nat {
    Count(t.refunds, (r: RefundRequest) => r.reference == reference)
  }

  // ---------- The invariant ----------

  /** A deposit went to the cycle's own user, named by the reference, for exactly what was requested. */
  predicate Rightful(d: Deposit, reference: string, cycle: Cycle) {
    && d.reference == reference
    && d.userId == cycle.userId
    && PaymentReference.Parse(reference) == Some(d.userId)
    && d.amount == cycle.amount && d.amount > 0.0
    && cycle.currency == PLATFORM_CURRENCY
  }

  ghost predicate DepositsRightful(db: Db, reference: string)
    requires reference in db.t.cycles
  {
    forall i | 0 <= i < |db.deposits| && db.deposits[i].reference == reference ::
      Rightful(db.deposits[i], reference, db.t.cycles[reference])
  }

  /** An accounting row of an unpaid or paid deposit carries the requested amount. */
  predicate BooksAgree(db: Db, reference: string)
    requires reference in db.t.cycles
  {
    var cycle := db.t.cycles[reference];
    && (cycle.IsOpen() && reference in db.t.payments ==> db.t.payments[reference].amount == cycle.amount)
    && (DepositsTo(db, reference) == 1 ==>
          && reference in db.t.payments
          && db.t.payments[reference].completed
          && db.t.payments[reference].amount == cycle.amount)
  }

  ghost predicate Consistent(db: Db, reference: string) {
    var deposits := DepositsTo(db, reference);
    var processed := EventsOf(db.t, reference, Processed);
    var reopened := ReopeningsOf(db.t, reference);
    && RefundsOf(db.t, reference) == EventsOf(db.t, reference, Cancelled)
    && if reference !in db.t.cycles then
         deposits == processed == reopened == 0 && reference !in db.t.payments
       else
         var cycle := db.t.cycles[reference];
         && reopened <= processed <= reopened + 1
         && (cycle.IsOpen() ==> processed == reopened)
         && (cycle.status.Settled? ==> processed == reopened + 1)
         && reopened + deposits <= processed
         && DepositsRightful(db, reference)
         && BooksAgree(db, reference)
  }

  lemma LoggedEvents(t: Tables, e: CycleEvent, t': Tables, reference: string, kind: Outcome)
    requires t'.events == t.events + [e]
    ensures EventsOf(t', reference, kind) ==
            EventsOf(t, reference, kind) + if e.reference == reference && e.outcome == kind then 1 else 0
  {
    CountAppend(t.events, e, (e: CycleEvent) => e.reference == reference && e.outcome == kind);
  }

  lemma EvaluatedLogs(t: Tables, provider: Provider, result: WebhookResult, now: Time)
    ensures var outcome, t' := Decide(Row(t, result.externalId), result), Evaluated(t, provider, result, now);
            t'.events == t.events + [EventOf(provider, result, outcome)] && t'.reopenings == t.reopenings
  {
  }

  lemma EvaluatedEvents(t: Tables, provider: Provider, result: WebhookResult, now: Time, reference: string, kind: Outcome)
    ensures var outcome := Decide(Row(t, result.externalId), result);
            EventsOf(Evaluated(t, provider, result, now), reference, kind) ==
            EventsOf(t, reference, kind) + if reference == result.externalId && kind == outcome then 1 else 0
  {
    EvaluatedLogs(t, provider, result, now);
    LoggedEvents(t, EventOf(provider, result, Decide(Row(t, result.externalId), result)), Evaluated(t, provider, result, now),
                 reference, kind);
  }

  lemma EvaluatedRefunds(t: Tables, provider: Provider, result: WebhookResult, now: Time, reference: string)
    ensures var outcome := Decide(Row(t, result.externalId), result);
            RefundsOf(Evaluated(t, provider, result, now), reference) ==
            RefundsOf(t, reference) + if reference == result.externalId && outcome == Cancelled then 1 else 0
  {
    var refunds := Evaluated(t, provider, result, now).refunds;
    if refunds != t.refunds {
      CountAppend(t.refunds, refunds[|t.refunds|], (r: RefundRequest) => r.reference == reference);
    }
  }

  lemma EvaluatedCounts(t: Tables, provider: Provider, result: WebhookResult, now: Time, reference: string, kind: Outcome)
    ensures var outcome := Decide(Row(t, result.externalId), result);
            var t' := Evaluated(t, provider, result, now);
            && EventsOf(t', reference, kind) ==
               EventsOf(t, reference, kind) + (if reference == result.externalId && kind == outcome then 1 else 0)
            && RefundsOf(t', reference) ==
               RefundsOf(t, reference) + (if reference == result.externalId && outcome == Cancelled then 1 else 0)
            && t'.reopenings == t.reopenings
  {
    EvaluatedEvents(t, provider, result, now, reference, kind);
    EvaluatedRefunds(t, provider, result, now, reference);
  }

  lemma DepositedCounts(db: Db, credit: Credit, to: string, payment: Option<PaymentKey>, reference: string)
    ensures DepositsTo(Deposited(db, credit, to, payment), reference) ==
            DepositsTo(db, reference) + if to == reference then 1 else 0
  {
    CountAppend(db.deposits, Deposit(credit.userId, credit.amount, to, payment), (d: Deposit) => d.reference == reference);
  }

  lemma ReopenedCounts(t: Tables, reopened: string, now: Time, reference: string)
    ensures ReopeningsOf(Reopened(t, reopened, now), reference) ==
            ReopeningsOf(t, reference) + if reopened in t.cycles && reopened == reference then 1 else 0
  {
    CountAppend(t.reopenings, reopened, (r: string) => r == reference);
  }

  /** A credit appends at most one deposit, and only when it does not throw. */
  lemma CreditedOnceShape(db: Db, provider: Provider, result: WebhookResult, credit: Credit, f: Faults)
    ensures var (db', threw) := CreditedOnce(db, provider, result, credit, f);
            && db'.t == db.t
            && (db'.deposits == db.deposits || (!threw && db'.deposits == db.deposits +
                 [Deposit(credit.userId, credit.amount, result.externalId, KeyOf(provider, result))]))
  {
  }

  lemma NextKeepsConsistent(db: Db, step: Step, reference: string)
    requires Consistent(db, reference)
    ensures Consistent(Next(db, step), reference)
  {
    if step.Apply? {
      AppliedKeepsConsistent(db, step.from, step.result, step.now, step.faults, reference);
    } else {
      NoDeposits(db, reference);
    }
  }

  lemma AppliedKeepsConsistent(db: Db, provider: Provider, result: WebhookResult, now: Time, f: Faults, reference: string)
    requires Consistent(db, reference)
    ensures Consistent(Applied(db, provider, result, now, f).0, reference)
  {
    if !Decide(Row(db.t, result.externalId), result).Processed? || CreditPlan(result).None? {
      EvaluationKeepsConsistent(db, provider, result, now, reference);
    } else if result.externalId == reference {
      CreditKeepsConsistent(db, provider, result, now, f);
    } else {
      CreditElsewhereKeepsConsistent(db, provider, result, now, f, reference);
    }
  }

  lemma NoDeposits(db: Db, reference: string)
    ensures DepositsTo(db, reference) == 0 ==>
              forall i | 0 <= i < |db.deposits| :: db.deposits[i].reference != reference
  {
    CountPositive(db.deposits, (d: Deposit) => d.reference == reference);
  }

  /** The rows and counts of one reference are as they were. */
  predicate SameRows(t: Tables, t': Tables, reference: string) {
    && Row(t', reference) == Row(t, reference)
    && (reference in t.payments <==> reference in t'.payments)
    && (reference in t.payments ==> t'.payments[reference] == t.payments[reference])
    && EventsOf(t', reference, Processed) == EventsOf(t, reference, Processed)
    && EventsOf(t', reference, Cancelled) == EventsOf(t, reference, Cancelled)
    && ReopeningsOf(t', reference) == ReopeningsOf(t, reference)
    && RefundsOf(t', reference) == RefundsOf(t, reference)
  }

  predicate SameDeposits(before: seq<Deposit>, after: seq<Deposit>, reference: string) {
    after == before ||
    (|after| == |before| + 1 && after[..|before|] == before && after[|before|].reference != reference)
  }

  /** What happens to other references does not matter. */
  lemma ConsistentIsLocal(db: Db, db': Db, reference: string)
    requires Consistent(db, reference)
    requires SameRows(db.t, db'.t, reference) && SameDeposits(db.deposits, db'.deposits, reference)
    ensures Consistent(db', reference)
  {
    if db'.deposits != db.deposits {
      var n := |db.deposits|;
      assert db'.deposits == db.deposits + [db'.deposits[n]];
      CountAppend(db.deposits, db'.deposits[n], (d: Deposit) => d.reference == reference);
    }
    assert DepositsTo(db', reference) == DepositsTo(db, reference);
    if reference in db.t.cycles {
      forall i | 0 <= i < |db'.deposits| && db'.deposits[i].reference == reference
        ensures Rightful(db'.deposits[i], reference, db.t.cycles[reference])
      {
        assert db'.deposits[i] == db.deposits[i];
      }
    }
  }

  lemma EvaluatedRowsElsewhere(t: Tables, provider: Provider, result: WebhookResult, now: Time, reference: string)
    requires reference != result.externalId
    ensures var t' := Evaluated(t, provider, result, now);
            && Row(t', reference) == Row(t, reference)
            && (reference in t.payments <==> reference in t'.payments)
            && (reference in t.payments ==> t'.payments[reference] == t.payments[reference])
  {
  }

  lemma EvaluatedElsewhere(t: Tables, provider: Provider, result: WebhookResult, now: Time, reference: string)
    requires reference != result.externalId
    ensures SameRows(t, Evaluated(t, provider, result, now), reference)
  {
    var t' := Evaluated(t, provider, result, now);
    EvaluatedRowsElsewhere(t, provider, result, now, reference);
    EvaluatedCounts(t, provider, result, now, reference, Processed);
    EvaluatedCounts(t, provider, result, now, reference, Cancelled);
    assert ReopeningsOf(t', reference) == ReopeningsOf(t, reference);
  }

  lemma EvaluatedHere(db: Db, provider: Provider, result: WebhookResult, now: Time)
    ensures var reference, outcome := result.externalId, Decide(Row(db.t, result.externalId), result);
            var after := db.(t := Evaluated(db.t, provider, result, now));
            && DepositsTo(after, reference) == DepositsTo(db, reference)
            && ReopeningsOf(after.t, reference) == ReopeningsOf(db.t, reference)
            && EventsOf(after.t, reference, Processed) == EventsOf(db.t, reference, Processed) + (if outcome.Processed? then 1 else 0)
            && EventsOf(after.t, reference, Cancelled) == EventsOf(db.t, reference, Cancelled) + (if outcome.Cancelled? then 1 else 0)
            && RefundsOf(after.t, reference) == RefundsOf(db.t, reference) + (if outcome.Cancelled? then 1 else 0)
  {
    EvaluatedCounts(db.t, provider, result, now, result.externalId, Processed);
    EvaluatedCounts(db.t, provider, result, now, result.externalId, Cancelled);
  }

  /** What the decision leaves of the row and the books of its own reference. */
  lemma EvaluatedRow(t: Tables, provider: Provider, result: WebhookResult, now: Time)
    requires result.externalId in t.cycles
    ensures var reference, t' := result.externalId, Evaluated(t, provider, result, now);
            var outcome, cycle := Decide(Row(t, reference), result), t.cycles[reference];
            && reference in t'.cycles
            && t'.cycles[reference] == Answered(cycle, outcome, result, now)
            && (!outcome.Processed? && !outcome.Rejected? ==> t'.payments == t.payments)
            && (reference in t.payments ==> reference in t'.payments && t'.payments[reference].amount == t.payments[reference].amount)
  {
  }

  lemma ClosedAnswerKeepsConsistent(db: Db, provider: Provider, result: WebhookResult, now: Time)
    requires Consistent(db, result.externalId) && result.externalId in db.t.cycles
    requires !db.t.cycles[result.externalId].IsOpen()
    ensures Consistent(db.(t := Evaluated(db.t, provider, result, now)), result.externalId)
  {
    EvaluatedHere(db, provider, result, now);
    EvaluatedRow(db.t, provider, result, now);
  }

  lemma OpenAnswerKeepsConsistent(db: Db, provider: Provider, result: WebhookResult, now: Time)
    requires Consistent(db, result.externalId) && result.externalId in db.t.cycles
    requires db.t.cycles[result.externalId].IsOpen()
    requires Decide(Row(db.t, result.externalId), result).Processed? ==> CreditPlan(result).None?
    ensures Consistent(db.(t := Evaluated(db.t, provider, result, now)), result.externalId)
  {
    EvaluatedHere(db, provider, result, now);
    EvaluatedRow(db.t, provider, result, now);
    NoDeposits(db, result.externalId);
  }

  lemma OrphanKeepsConsistent(db: Db, provider: Provider, result: WebhookResult, now: Time)
    requires Consistent(db, result.externalId) && result.externalId !in db.t.cycles
    ensures Consistent(db.(t := Evaluated(db.t, provider, result, now)), result.externalId)
  {
    EvaluatedHere(db, provider, result, now);
  }

  /** An answer that asks for no credit. */
  lemma EvaluationKeepsConsistent(db: Db, provider: Provider, result: WebhookResult, now: Time, reference: string)
    requires Consistent(db, reference)
    requires Decide(Row(db.t, result.externalId), result).Processed? ==> CreditPlan(result).None?
    ensures Consistent(db.(t := Evaluated(db.t, provider, result, now)), reference)
  {
    if reference != result.externalId {
      EvaluatedElsewhere(db.t, provider, result, now, reference);
      ConsistentIsLocal(db, db.(t := Evaluated(db.t, provider, result, now)), reference);
    } else if reference !in db.t.cycles {
      OrphanKeepsConsistent(db, provider, result, now);
    } else if db.t.cycles[reference].IsOpen() {
      OpenAnswerKeepsConsistent(db, provider, result, now);
    } else {
      ClosedAnswerKeepsConsistent(db, provider, result, now);
    }
  }

  /** What the evaluation leaves when a credit follows: one PROCESSED event ahead, the books in order. */
  ghost predicate Evaluating(db: Db, reference: string) {
    && reference in db.t.cycles && reference in db.t.payments
    && db.t.cycles[reference].status.Settled?
    && EventsOf(db.t, reference, Processed) == ReopeningsOf(db.t, reference) + 1
    && RefundsOf(db.t, reference) == EventsOf(db.t, reference, Cancelled)
    && DepositsTo(db, reference) == 0
    && db.t.payments[reference].completed
    && db.t.payments[reference].amount == db.t.cycles[reference].amount
  }

  lemma EvaluationBeforeCredit(db: Db, provider: Provider, result: WebhookResult, now: Time)
    requires Consistent(db, result.externalId)
    requires Decide(Row(db.t, result.externalId), result).Processed? && CreditPlan(result).Some?
    ensures var evaluated := db.(t := Evaluated(db.t, provider, result, now));
            var credit := CreditPlan(result).value;
            && Evaluating(evaluated, result.externalId)
            && Rightful(Deposit(credit.userId, credit.amount, result.externalId, KeyOf(provider, result)),
                        result.externalId, evaluated.t.cycles[result.externalId])
  {
    var reference := result.externalId;
    EvaluatedCounts(db.t, provider, result, now, reference, Processed);
    EvaluatedCounts(db.t, provider, result, now, reference, Cancelled);
    assert DepositsTo(db.(t := Evaluated(db.t, provider, result, now)), reference) == DepositsTo(db, reference);
  }

  lemma SuccessfulCredit(db: Db, credit: Credit, reference: string, payment: Option<PaymentKey>)
    requires Evaluating(db, reference)
    requires Rightful(Deposit(credit.userId, credit.amount, reference, payment), reference, db.t.cycles[reference])
    ensures Consistent(Deposited(db, credit, reference, payment), reference)
  {
    DepositedCounts(db, credit, reference, payment, reference);
    NoDeposits(db, reference);
  }

  lemma FailedCredit(db: Db, reference: string, now: Time)
    requires Evaluating(db, reference)
    ensures Consistent(db, reference)
    ensures Consistent(db.(t := Reopened(db.t, reference, now)), reference)
  {
    ReopenedCounts(db.t, reference, now, reference);
    NoDeposits(db, reference);
    assert DepositsTo(db.(t := Reopened(db.t, reference, now)), reference) == DepositsTo(db, reference);
  }

  /** Reservations play no part in the counts. */
  lemma ConsistentIgnoresReservations(db: Db, reserved: Db, reference: string)
    requires reserved.t == db.t && reserved.deposits == db.deposits
    ensures Consistent(reserved, reference) == Consistent(db, reference)
  {
    assert DepositsTo(db, reference) == DepositsTo(reserved, reference);
  }

  lemma CreditKeepsConsistent(db: Db, provider: Provider, result: WebhookResult, now: Time, f: Faults)
    requires Consistent(db, result.externalId)
    requires Decide(Row(db.t, result.externalId), result).Processed? && CreditPlan(result).Some?
    ensures Consistent(Applied(db, provider, result, now, f).0, result.externalId)
  {
    var reference := result.externalId;
    var credit := CreditPlan(result).value;
    var key := KeyOf(provider, result);
    var evaluated := db.(t := Evaluated(db.t, provider, result, now));
    EvaluationBeforeCredit(db, provider, result, now);
    SuccessfulCredit(evaluated, credit, reference, key);
    FailedCredit(evaluated, reference, now);
    var (credited, threw) := CreditedOnce(evaluated, provider, result, credit, f);
    CreditedOnceShape(evaluated, provider, result, credit, f);
    var plain := if credited.deposits == evaluated.deposits then evaluated
                 else Deposited(evaluated, credit, reference, key);
    ConsistentIgnoresReservations(plain, credited, reference);
    ConsistentIgnoresReservations(plain.(t := Reopened(plain.t, reference, now)),
                                  credited.(t := Reopened(credited.t, reference, now)), reference);
  }

  lemma CreditElsewhereKeepsConsistent(db: Db, provider: Provider, result: WebhookResult, now: Time, f: Faults,
                                       reference: string)
    requires Consistent(db, reference) && reference != result.externalId
    requires Decide(Row(db.t, result.externalId), result).Processed? && CreditPlan(result).Some?
    ensures Consistent(Applied(db, provider, result, now, f).0, reference)
  {
    var evaluated := db.(t := Evaluated(db.t, provider, result, now));
    EvaluatedElsewhere(db.t, provider, result, now, reference);
    ConsistentIsLocal(db, evaluated, reference);
    CreditedElsewhere(evaluated, provider, result, f, reference);
    ReopenedElsewhere(CreditedOnce(evaluated, provider, result, CreditPlan(result).value, f).0, result.externalId, now, reference);
  }

  lemma CreditedElsewhere(db: Db, provider: Provider, result: WebhookResult, f: Faults, reference: string)
    requires Consistent(db, reference) && reference != result.externalId && CreditPlan(result).Some?
    ensures Consistent(CreditedOnce(db, provider, result, CreditPlan(result).value, f).0, reference)
  {
    CreditedOnceShape(db, provider, result, CreditPlan(result).value, f);
    ConsistentIsLocal(db, CreditedOnce(db, provider, result, CreditPlan(result).value, f).0, reference);
  }

  lemma ReopenedElsewhere(db: Db, reopened: string, now: Time, reference: string)
    requires Consistent(db, reference) && reference != reopened
    ensures Consistent(db.(t := Reopened(db.t, reopened, now)), reference)
  {
    ReopenedCounts(db.t, reopened, now, reference);
    ConsistentIsLocal(db, db.(t := Reopened(db.t, reopened, now)), reference);
  }

  lemma {:induction false} RunIsConsistent(steps: seq<Step>, reference: string)
    ensures Consistent(Run(EMPTY, steps), reference)
  {
    if steps != [] {
      RunIsConsistent(steps[..|steps| - 1], reference);
      NextKeepsConsistent(Run(EMPTY, steps[..|steps| - 1]), steps[|steps| - 1], reference);
    }
  }

  // ---------- Main results ----------

  /**
   However answers are retried, repeated, or sent under other payment ids or none, a reference is
   credited at most once, and then to the user it names, for exactly the amount requested.
   */
  lemma AtMostOneDepositPerReference(steps: seq<Step>, reference: string)
    ensures var db := Run(EMPTY, steps);
            && DepositsTo(db, reference) <= 1
            && forall i | 0 <= i < |db.deposits| && db.deposits[i].reference == reference ::
                 && reference in db.t.cycles
                 && Rightful(db.deposits[i], reference, db.t.cycles[reference])
                 && reference in db.t.payments && db.t.payments[reference].completed
                 && db.t.payments[reference].amount == db.deposits[i].amount
  {
    RunIsConsistent(steps, reference);
    NoDeposits(Run(EMPTY, steps), reference);
    CountPositive(Run(EMPTY, steps).deposits, (d: Deposit) => d.reference == reference);
  }

  /** A deposit under a reference printed for a user reaches that user, whatever the id looks like. */
  lemma DepositReachesTheRequester(steps: seq<Step>, userId: string, timestamp: nat, i: nat)
    requires i < |Run(EMPTY, steps).deposits|
    requires Run(EMPTY, steps).deposits[i].reference == PaymentReference.Print(userId, timestamp)
    ensures Run(EMPTY, steps).deposits[i].userId == userId
  {
    var reference := PaymentReference.Print(userId, timestamp);
    AtMostOneDepositPerReference(steps, reference);
    PaymentReference.ParseOfPrint(userId, timestamp);
    assert Rightful(Run(EMPTY, steps).deposits[i], reference, Run(EMPTY, steps).t.cycles[reference]);
  }

  /** PROCESSED decisions run ahead of reopenings by nothing while open, and by at most one when closed. */
  lemma ProcessedMinusReopenings(steps: seq<Step>, reference: string)
    ensures var db := Run(EMPTY, steps);
            var ahead := EventsOf(db.t, reference, Processed) as int - ReopeningsOf(db.t, reference);
            && 0 <= ahead <= 1
            && DepositsTo(db, reference) <= ahead
            && (reference in db.t.cycles && db.t.cycles[reference].status.Requested? ==> ahead == 0)
            && (reference in db.t.cycles && db.t.cycles[reference].status.Settled? ==> ahead == 1)
            && RefundsOf(db.t, reference) == EventsOf(db.t, reference, Cancelled)
  {
    RunIsConsistent(steps, reference);
  }

  /** Every answer leaves exactly one decision event, even when the credit throws. */
  lemma OneDecisionPerAnswer(db: Db, provider: Provider, result: WebhookResult, now: Time, f: Faults)
    ensures var after := Applied(db, provider, result, now, f).0;
            && |after.t.events| == |db.t.events| + 1
            && after.t.events[..|db.t.events|] == db.t.events
            && after.t.events[|db.t.events|].reference == result.externalId
            && after.t.events[|db.t.events|].outcome == Decide(Row(db.t, result.externalId), result)
  {
    if Decide(Row(db.t, result.externalId), result).Processed? && CreditPlan(result).Some? {
      CreditedOnceShape(db.(t := Evaluated(db.t, provider, result, now)), provider, result, CreditPlan(result).value, f);
    }
  }

  /** On a closed cycle an answer moves no money, and can only raise the anomaly flag, for another payment. */
  lemma AnswerOnClosedCycle(db: Db, provider: Provider, result: WebhookResult, now: Time, f: Faults)
    requires result.externalId in db.t.cycles && !db.t.cycles[result.externalId].IsOpen()
    ensures var (after, threw) := Applied(db, provider, result, now, f);
            var before := db.t.cycles[result.externalId];
            && !threw
            && after.deposits == db.deposits && after.reservations == db.reservations
            && after.t.cycles == db.t.cycles[result.externalId := after.t.cycles[result.externalId]]
            && after.t.cycles[result.externalId].canonicalPaymentId == before.canonicalPaymentId
            && (after.t.cycles[result.externalId].status == before.status || after.t.cycles[result.externalId].status.Anomaly?)
            && (after.t.cycles[result.externalId] == before <==>
                  SamePayment(before, result) || before == Flagged(before, now))
            && (SamePayment(before, result) ==> after.t.refunds == db.t.refunds)
            && (!SamePayment(before, result) ==> RefundsOf(after.t, result.externalId) ==
                                                 RefundsOf(db.t, result.externalId) + 1)
  {
    EvaluatedCounts(db.t, provider, result, now, result.externalId, Cancelled);
  }

  ghost predicate Frozen(before: Db, after: Db, reference: string) {
    && reference in before.t.cycles && reference in after.t.cycles
    && !before.t.cycles[reference].IsOpen() && !after.t.cycles[reference].IsOpen()
    && after.t.cycles[reference].canonicalPaymentId == before.t.cycles[reference].canonicalPaymentId
    && after.t.cycles[reference].userId == before.t.cycles[reference].userId
    && after.t.cycles[reference].amount == before.t.cycles[reference].amount
    && DepositsTo(after, reference) == DepositsTo(before, reference)
  }

  lemma AppliedKeepsFrozen(db: Db, provider: Provider, result: WebhookResult, now: Time, f: Faults, reference: string)
    requires reference in db.t.cycles && !db.t.cycles[reference].IsOpen()
    ensures Frozen(db, Applied(db, provider, result, now, f).0, reference)
  {
    var evaluated := db.(t := Evaluated(db.t, provider, result, now));
    assert Frozen(db, evaluated, reference) by {
      assert DepositsTo(evaluated, reference) == DepositsTo(db, reference);
    }
    if Decide(Row(db.t, result.externalId), result).Processed? && CreditPlan(result).Some? {
      CreditedOnceShape(evaluated, provider, result, CreditPlan(result).value, f);
      DepositedCounts(evaluated, CreditPlan(result).value, result.externalId, KeyOf(provider, result), reference);
    }
  }

  lemma NextKeepsFrozen(db: Db, step: Step, reference: string)
    requires reference in db.t.cycles && !db.t.cycles[reference].IsOpen()
    ensures Frozen(db, Next(db, step), reference)
  {
    if step.Apply? {
      AppliedKeepsFrozen(db, step.from, step.result, step.now, step.faults, reference);
    } else {
      assert DepositsTo(Next(db, step), reference) == DepositsTo(db, reference);
    }
  }

  /**
   The first answer is final, positive or not: once an answer has left a cycle closed, no later run
   reopens it, changes its payment, or moves money under its reference.
   */
  lemma {:induction false} ClosedIsFinal(db: Db, steps: seq<Step>, reference: string)
    requires reference in db.t.cycles && !db.t.cycles[reference].IsOpen()
    ensures Frozen(db, Run(db, steps), reference)
  {
    if steps != [] {
      var before := Run(db, steps[..|steps| - 1]);
      ClosedIsFinal(db, steps[..|steps| - 1], reference);
      NextKeepsFrozen(before, steps[|steps| - 1], reference);
    }
  }

  /**
   SETTLED alone does not mean paid. An answer that settles an open cycle pays it exactly when it
   reports a positive amount under a parsable reference, its payment is not reserved already, and,
   when it has no payment id, the unguarded deposit goes through.
   */
  lemma WhenSettledMeansPaid(db: Db, provider: Provider, result: WebhookResult, now: Time, f: Faults)
    requires Consistent(db, result.externalId)
    requires result.externalId in db.t.cycles && db.t.cycles[result.externalId].IsOpen()
    requires Applied(db, provider, result, now, f).0.t.cycles[result.externalId].status.Settled?
    ensures var key := KeyOf(provider, result);
            DepositsTo(Applied(db, provider, result, now, f).0, result.externalId) ==
            if && result.amount.Some? && result.amount.value > 0.0
               && PaymentReference.Parse(result.externalId).Some?
               && (if key.Some? then key.value !in db.reservations else !f.depositFails)
            then 1 else 0
  {
    DepositsAfterAnswer(db, provider, result, now, f);
  }

  /** The calls that an answer's credit needs go through. */
  predicate GoesThrough(db: Db, provider: Provider, result: WebhookResult, f: Faults) {
    var key := KeyOf(provider, result);
    !f.depositFails && (key.Some? ==> !f.insertFails && key.value !in db.reservations)
  }

  lemma DepositsAfterCredit(db: Db, provider: Provider, result: WebhookResult, credit: Credit, f: Faults)
    ensures DepositsTo(CreditedOnce(db, provider, result, credit, f).0, result.externalId) ==
            DepositsTo(db, result.externalId) + if GoesThrough(db, provider, result, f) then 1 else 0
  {
    CreditedOnceShape(db, provider, result, credit, f);
    DepositedCounts(db, credit, result.externalId, KeyOf(provider, result), result.externalId);
  }

  lemma SameDepositsSameCount(db: Db, db': Db, reference: string)
    requires db'.deposits == db.deposits
    ensures DepositsTo(db', reference) == DepositsTo(db, reference)
  {
  }

  /** What one answer adds under its reference, whatever came before it. */
  lemma DepositsAfterAnswer(db: Db, provider: Provider, result: WebhookResult, now: Time, f: Faults)
    ensures DepositsTo(Applied(db, provider, result, now, f).0, result.externalId) ==
            DepositsTo(db, result.externalId) +
            if && Decide(Row(db.t, result.externalId), result).Processed? && CreditPlan(result).Some?
               && GoesThrough(db, provider, result, f)
            then 1 else 0
  {
    var reference, after := result.externalId, Applied(db, provider, result, now, f).0;
    var evaluated := db.(t := Evaluated(db.t, provider, result, now));
    SameDepositsSameCount(db, evaluated, reference);
    if Decide(Row(db.t, reference), result).Processed? && CreditPlan(result).Some? {
      var credited := CreditedOnce(evaluated, provider, result, CreditPlan(result).value, f).0;
      DepositsAfterCredit(evaluated, provider, result, CreditPlan(result).value, f);
      SameDepositsSameCount(credited, after, reference);
    } else {
      SameDepositsSameCount(evaluated, after, reference);
    }
  }

  /**
   When a payment the provider reports ends paid. After any run, an answer that asks for a credit leaves
   its reference credited exactly when it was already, or the decision finds the cycle open and matching
   and the calls go through.
   */
  lemma WhenAnAnswerEndsPaid(steps: seq<Step>, provider: Provider, result: WebhookResult, now: Time, f: Faults)
    requires CreditPlan(result).Some?
    ensures var db := Run(EMPTY, steps);
            var reference := result.externalId;
            DepositsTo(Applied(db, provider, result, now, f).0, reference) == 1 <==>
            || DepositsTo(db, reference) == 1
            || (Decide(Row(db.t, reference), result).Processed? && GoesThrough(db, provider, result, f))
  {
    var apply := Apply(provider, result, now, f);
    DepositsAfterAnswer(Run(EMPTY, steps), provider, result, now, f);
    RunAppend(EMPTY, steps, apply);
    RunIsConsistent(steps, result.externalId);
    RunIsConsistent(steps + [apply], result.externalId);
  }

  /**
   An answer that is not COMPLETED takes the only chance: on an open cycle it leaves the reference
   without a deposit in every later run, whatever is then reported of the payment.
   */
  lemma NotCompletedIsNeverPaid(steps: seq<Step>, provider: Provider, result: WebhookResult, now: Time, f: Faults,
                                later: seq<Step>)
    requires !result.status.Completed?
    requires var db := Run(EMPTY, steps);
             result.externalId in db.t.cycles && db.t.cycles[result.externalId].IsOpen()
    ensures var closed := Applied(Run(EMPTY, steps), provider, result, now, f).0;
            && closed.t.cycles[result.externalId].status.Failed?
            && DepositsTo(Run(closed, later), result.externalId) == 0
  {
    RunIsConsistent(steps, result.externalId);
    DepositsAfterAnswer(Run(EMPTY, steps), provider, result, now, f);
    ClosedIsFinal(Applied(Run(EMPTY, steps), provider, result, now, f).0, later, result.externalId);
  }

  lemma RequestThenAnswer(asked: Step, answer: Step)
    requires asked.Open? && answer.Apply?
    ensures Run(EMPTY, [asked, answer]) == Next(Next(EMPTY, asked), answer)
  {
    RunAppend(EMPTY, [], asked);
    RunAppend(EMPTY, [asked], answer);
    assert [] + [asked] == [asked] && [asked] + [answer] == [asked, answer];
  }

  function Pesos50(status: Answer): Step {
    Apply("MERCADO_PAGO", WebhookResult(Some("p1"), "DEP-ana-1", status, Some(50.0)), 5, Faults(false, false, false))
  }

  /** The run: a payment notified first as pending and then as completed is neither credited nor refunded. */
  lemma PendingThenCompletedIsLost()
    ensures var asked := Open("DEP-ana-1", "MERCADO_PAGO", "ana", 50.0, PLATFORM_CURRENCY, 0);
            var db := Run(EMPTY, [asked, Pesos50(Answer.Pending), Pesos50(Answer.Completed)]);
            && "DEP-ana-1" in db.t.cycles && db.t.cycles["DEP-ana-1"].status.Failed?
            && db.deposits == [] && db.t.refunds == []
  {
    var asked := Open("DEP-ana-1", "MERCADO_PAGO", "ana", 50.0, PLATFORM_CURRENCY, 0);
    var pending, completed := Pesos50(Answer.Pending), Pesos50(Answer.Completed);
    RequestThenAnswer(asked, pending);
    RunAppend(EMPTY, [asked, pending], completed);
    assert [asked, pending] + [completed] == [asked, pending, completed];
    var open := Next(EMPTY, asked);
    assert open.t.cycles["DEP-ana-1"] == NewCycle("MERCADO_PAGO", "ana", 50.0, PLATFORM_CURRENCY, 0);
    var closed := Next(open, pending);
    assert Decide(Row(open.t, "DEP-ana-1"), pending.result).Rejected?;
    assert SamePayment(closed.t.cycles["DEP-ana-1"], completed.result);
  }

  /** A completed answer without an amount settles the cycle and pays nothing. */
  lemma SettledButUnpaid()
    ensures var asked := Open("DEP-ana-1", "MERCADO_PAGO", "ana", 50.0, PLATFORM_CURRENCY, 0);
            var answer := WebhookResult(Some("p1"), "DEP-ana-1", Completed, None);
            var db := Run(EMPTY, [asked, Apply("MERCADO_PAGO", answer, 5, Faults(false, false, false))]);
            && "DEP-ana-1" in db.t.cycles && db.t.cycles["DEP-ana-1"].status.Settled?
            && db.deposits == []
  {
    var asked := Open("DEP-ana-1", "MERCADO_PAGO", "ana", 50.0, PLATFORM_CURRENCY, 0);
    var answer := WebhookResult(Some("p1"), "DEP-ana-1", Completed, None);
    var answered := Apply("MERCADO_PAGO", answer, 5, Faults(false, false, false));
    assert PaymentReference.Print("ana", 1) == "DEP-ana-1";
    PaymentReference.ParseOfPrint("ana", 1);
    RequestThenAnswer(asked, answered);
    assert Next(EMPTY, asked).t.cycles["DEP-ana-1"] == NewCycle("MERCADO_PAGO", "ana", 50.0, PLATFORM_CURRENCY, 0);
  }
}
