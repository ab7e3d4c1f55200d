/**
 What an answer leaves behind, row by row, and what follows from it over whole runs: a repeated answer
 changes nothing, and an open request always has a next check, so that a credit that failed is retried.
 */
module PaymentOutcomes {
  import opened Wrappers
  import opened PaymentCycle
  import opened Payments
  import PaymentReference
  import PaymentRuns
  import PaymentPolling
  import PaymentInterleaving

  // ---------- One answer, by its case ----------

  predicate StillOpen(cycle: Cycle) {
    cycle.status.Requested? || cycle.status.Confirmed?
  }

  /** The confirmation agrees with the request: the currency, the amount if one is given, the user if one is named. */
  predicate Agrees(cycle: Cycle, result: WebhookResult) {
    && cycle.currency == "MXN"
    && (result.amount.Some? ==> result.amount.value == cycle.amount)
    && (PaymentReference.Parse(result.externalId).Some? ==> PaymentReference.Parse(result.externalId).value == cycle.userId)
  }

  function Amount(result: WebhookResult): real {
    if result.amount.Some? then result.amount.value else 0.0
  }

  /** The id that stays on record: the answer's, or what was there before an answer without one. */
  function IdAfter(cycle: Cycle, result: WebhookResult): Option<string> {
    if result.paymentId.Some? then result.paymentId else cycle.canonicalPaymentId
  }

  predicate SameMoney(db: Db, db': Db) {
    db'.deposits == db.deposits && db'.reservations == db.reservations
  }

  /** After the close: the payment on record changes nothing; any other is flagged, and its refund asked for. */
  lemma AnswerAfterClose(db: Db, provider: Provider, result: WebhookResult, now: Time, f: Faults)
    requires result.externalId in db.t.cycles
    requires !StillOpen(db.t.cycles[result.externalId])
    ensures var reference, after := result.externalId, Applied(db, provider, result, now, f).0;
            var cycle := db.t.cycles[reference];
            && SameMoney(db, after) && after.t.payments == db.t.payments && after.t.reopenings == db.t.reopenings
            && if result.paymentId.Some? && cycle.canonicalPaymentId == result.paymentId then
                 after.t.cycles == db.t.cycles && after.t.refunds == db.t.refunds
               else
                 && after.t.cycles == db.t.cycles[reference := cycle.(status := Status.Anomaly, respondedAt := Some(now), nextCheckAt := None)]
                 && after.t.refunds == db.t.refunds + [RefundRequest(reference, Amount(result), cycle.currency)]
  {
    assert db.t.cycles[result.externalId := db.t.cycles[result.externalId]] == db.t.cycles;
  }

  /** An answer that is not COMPLETED closes an open cycle as failed, on the payment it names. */
  lemma AnswerNotCompleted(db: Db, provider: Provider, result: WebhookResult, now: Time, f: Faults)
    requires result.externalId in db.t.cycles && StillOpen(db.t.cycles[result.externalId]) && !result.status.Completed?
    ensures var reference, after := result.externalId, Applied(db, provider, result, now, f).0;
            var cycle := db.t.cycles[reference];
            && SameMoney(db, after) && after.t.refunds == db.t.refunds
            && after.t.cycles == db.t.cycles[reference := cycle.(status := Status.Failed, respondedAt := Some(now),
                                                                 canonicalPaymentId := IdAfter(cycle, result), nextCheckAt := None)]
            && reference in after.t.payments && !after.t.payments[reference].completed
  {
  }

  /** A COMPLETED answer that disagrees with its request is flagged and pays nothing. */
  lemma AnswerThatDisagrees(db: Db, provider: Provider, result: WebhookResult, now: Time, f: Faults)
    requires result.externalId in db.t.cycles && StillOpen(db.t.cycles[result.externalId])
    requires result.status.Completed? && !Agrees(db.t.cycles[result.externalId], result)
    ensures var reference, after := result.externalId, Applied(db, provider, result, now, f).0;
            && SameMoney(db, after) && after.t.refunds == db.t.refunds && after.t.payments == db.t.payments
            && after.t.cycles == db.t.cycles[reference := db.t.cycles[reference].(status := Status.Anomaly,
                                                                                  respondedAt := Some(now), nextCheckAt := None)]
  {
  }

  /** The row that a COMPLETED answer in agreement leaves settled. */
  function SettledRow(cycle: Cycle, result: WebhookResult, now: Time): Cycle {
    cycle.(status := Status.Settled, respondedAt := Some(now), settledAt := Some(now),
           canonicalPaymentId := IdAfter(cycle, result), nextCheckAt := None)
  }

  predicate Confirms(db: Db, result: WebhookResult) {
    && result.externalId in db.t.cycles && StillOpen(db.t.cycles[result.externalId])
    && result.status.Completed? && Agrees(db.t.cycles[result.externalId], result)
  }

  /** It confirms, and reports a positive amount under a reference that names a user. */
  predicate Pays(db: Db, result: WebhookResult) {
    Confirms(db, result) && Amount(result) > 0.0 && PaymentReference.Parse(result.externalId).Some?
  }

  predicate HasId(result: WebhookResult) {
    result.paymentId.Some? && result.paymentId.value != ""
  }

  /** The deposit that a paying answer asks for: to the requester, of the amount requested. */
  function DepositOf(db: Db, result: WebhookResult, payment: Option<PaymentKey>): Deposit
    requires Pays(db, result)
  {
    Deposit(db.t.cycles[result.externalId].userId, db.t.cycles[result.externalId].amount, result.externalId, payment)
  }

  lemma EvaluatedConfirms(db: Db, provider: Provider, result: WebhookResult, now: Time)
    requires Confirms(db, result)
    ensures var reference, t := result.externalId, Evaluated(db.t, provider, result, now);
            && Decide(Row(db.t, reference), result).Processed?
            && t.cycles == db.t.cycles[reference := SettledRow(db.t.cycles[reference], result, now)]
            && t.refunds == db.t.refunds && t.reopenings == db.t.reopenings
            && reference in t.payments && t.payments[reference].completed
  {
  }

  lemma PlanOf(db: Db, result: WebhookResult)
    requires Confirms(db, result)
    ensures CreditPlan(result) ==
            if Pays(db, result) then Some(Credit(db.t.cycles[result.externalId].userId, db.t.cycles[result.externalId].amount))
            else None
  {
  }

  /** It confirms, but there is nothing to pay: the cycle is settled all the same. */
  lemma AnswerWithNothingToPay(db: Db, provider: Provider, result: WebhookResult, now: Time, f: Faults)
    requires Confirms(db, result) && !Pays(db, result)
    ensures var reference, after := result.externalId, Applied(db, provider, result, now, f).0;
            && SameMoney(db, after) && after.t.refunds == db.t.refunds
            && after.t.cycles == db.t.cycles[reference := SettledRow(db.t.cycles[reference], result, now)]
  {
    EvaluatedConfirms(db, provider, result, now);
    PlanOf(db, result);
  }

  /**
   It pays: the cycle is settled on its payment, the payment of that provider reserved unless it was, and
   one deposit made. A payment reserved before is not deposited again.
   */
  lemma AnswerThatPays(db: Db, provider: Provider, result: WebhookResult, now: Time)
    requires Pays(db, result) && HasId(result)
    ensures var reference, key := result.externalId, PaymentKey(provider, result.paymentId.value);
            var (after, threw) := Applied(db, provider, result, now, Faults(false, false, false));
            && !threw && after.t.refunds == db.t.refunds
            && after.t.cycles == db.t.cycles[reference := SettledRow(db.t.cycles[reference], result, now)]
            && reference in after.t.payments && after.t.payments[reference].completed
            && after.reservations == db.reservations + {key}
            && after.deposits == db.deposits + if key in db.reservations then [] else [DepositOf(db, result, Some(key))]
  {
    EvaluatedConfirms(db, provider, result, now);
    PlanOf(db, result);
  }

  /** It pays without an id: nothing is reserved, and a deposit that fails is not retried. */
  lemma AnswerWithoutId(db: Db, provider: Provider, result: WebhookResult, now: Time, f: Faults)
    requires Pays(db, result) && !HasId(result)
    ensures var reference, (after, threw) := result.externalId, Applied(db, provider, result, now, f);
            && !threw && after.reservations == db.reservations
            && after.t.cycles == db.t.cycles[reference := SettledRow(db.t.cycles[reference], result, now)]
            && after.deposits == db.deposits + if f.depositFails then [] else [DepositOf(db, result, None)]
  {
    EvaluatedConfirms(db, provider, result, now);
    PlanOf(db, result);
  }

  /** The credit throws: the reservation cannot be written, or it is new and the deposit fails. */
  predicate Throws(db: Db, provider: Provider, result: WebhookResult, f: Faults) {
    && Pays(db, result) && HasId(result)
    && (f.insertFails || (PaymentKey(provider, result.paymentId.value) !in db.reservations && f.depositFails))
  }

  /** The cycle is open again, to be checked in a minute; no money moved, and no reservation stays if it can be deleted. */
  lemma AnswerThatThrows(db: Db, provider: Provider, result: WebhookResult, now: Time, f: Faults)
    requires Throws(db, provider, result, f)
    ensures var reference, (after, threw) := result.externalId, Applied(db, provider, result, now, f);
            && threw && after.deposits == db.deposits && after.t.refunds == db.t.refunds
            && (!f.deleteFails || f.insertFails ==> after.reservations == db.reservations)
            && after.t.cycles == db.t.cycles[reference := SettledRow(db.t.cycles[reference], result, now).(
                                               status := Status.Requested, nextCheckAt := Some(now + 60_000))]
  {
    EvaluatedConfirms(db, provider, result, now);
    PlanOf(db, result);
  }

  // ---------- Repeated answers ----------

  /** The step says nothing else of the reference: neither another payment, nor the polling job acting on its row. */
  predicate Repeats(step: PaymentRuns.Step, reference: string, paymentId: string) {
    match step
    case Open(_, _, _, _, _, _) => true
    case Apply(_, result, _, _) => result.externalId == reference ==> result.paymentId == Some(paymentId)
    case Expire(expired) => expired != reference
    case Reschedule(checked, _, _) => checked != reference
  }

  /** The cycle is closed on the payment, and what is said of it is as it was. */
  ghost predicate Undisturbed(before: Db, after: Db, reference: string, paymentId: string) {
    && reference in before.t.cycles && reference in after.t.cycles
    && !before.t.cycles[reference].IsOpen() && before.t.cycles[reference].canonicalPaymentId == Some(paymentId)
    && after.t.cycles[reference] == before.t.cycles[reference]
    && PaymentRuns.DepositsTo(after, reference) == PaymentRuns.DepositsTo(before, reference)
    && PaymentRuns.RefundsOf(after.t, reference) == PaymentRuns.RefundsOf(before.t, reference)
  }

  lemma RepeatDisturbsNothing(db: Db, step: PaymentRuns.Step, reference: string, paymentId: string)
    requires Undisturbed(db, db, reference, paymentId) && Repeats(step, reference, paymentId)
    ensures Undisturbed(db, PaymentRuns.Next(db, step), reference, paymentId)
  {
    PaymentRuns.NextKeepsFrozen(db, step, reference);
    if step.Apply? {
      if step.result.externalId == reference {
        AnswerAfterClose(db, step.from, step.result, step.now, step.faults);
      } else {
        AppliedElsewhere(db, step.from, step.result, step.now, step.faults, reference);
      }
    }
  }

  lemma AppliedElsewhere(db: Db, provider: Provider, result: WebhookResult, now: Time, f: Faults, reference: string)
    requires reference != result.externalId
    ensures var after := Applied(db, provider, result, now, f).0;
            && Row(after.t, reference) == Row(db.t, reference)
            && PaymentRuns.RefundsOf(after.t, reference) == PaymentRuns.RefundsOf(db.t, reference)
  {
    PaymentRuns.EvaluatedElsewhere(db.t, provider, result, now, reference);
    var evaluated := db.(t := Evaluated(db.t, provider, result, now));
    if CreditPlan(result).Some? {
      PaymentRuns.CreditedOnceShape(evaluated, provider, result, CreditPlan(result).value, f);
    }
  }

  /**
   Once closed on a payment, a cycle, its deposits and its refund requests stay as they are however often
   that payment is reported again, by any provider, with any status and amount, under any failures, and
   whatever happens to other references.
   */
  lemma {:induction false} RepeatsChangeNothing(db: Db, steps: seq<PaymentRuns.Step>, reference: string, paymentId: string)
    requires reference in db.t.cycles && !db.t.cycles[reference].IsOpen()
    requires db.t.cycles[reference].canonicalPaymentId == Some(paymentId)
    requires forall i | 0 <= i < |steps| :: Repeats(steps[i], reference, paymentId)
    ensures Undisturbed(db, PaymentRuns.Run(db, steps), reference, paymentId)
  {
    if steps != [] {
      var before := PaymentRuns.Run(db, steps[..|steps| - 1]);
      RepeatsChangeNothing(db, steps[..|steps| - 1], reference, paymentId);
      RepeatDisturbsNothing(before, steps[|steps| - 1], reference, paymentId);
    }
  }

  /** In particular the very answer that settled a cycle asks for nothing when it comes again. */
  lemma SettlingAnswerAgain(db: Db, provider: Provider, result: WebhookResult, now: Time, f: Faults,
                            again: Provider, later: Time, f': Faults)
    requires Confirms(db, result) && result.paymentId.Some?
    requires Applied(db, provider, result, now, f).0.t.cycles[result.externalId].status.Settled?
    ensures var after := Applied(db, provider, result, now, f).0;
            var repeated := Applied(after, again, result, later, f').0;
            && after.t.cycles[result.externalId].canonicalPaymentId == result.paymentId
            && repeated.t.cycles == after.t.cycles && repeated.t.refunds == after.t.refunds && SameMoney(after, repeated)
  {
    EvaluatedConfirms(db, provider, result, now);
    if CreditPlan(result).Some? {
      PaymentRuns.CreditedOnceShape(db.(t := Evaluated(db.t, provider, result, now)), provider, result, CreditPlan(result).value, f);
    }
    AnswerAfterClose(Applied(db, provider, result, now, f).0, again, result, later, f');
  }

  // ---------- Deposits and the payment on record ----------

  predicate OnRecord(db: Db, d: Deposit) {
    && d.reference in db.t.cycles
    && (d.payment.Some? ==> db.t.cycles[d.reference].canonicalPaymentId == Some(d.payment.value.paymentId))
  }

  ghost predicate AllOnRecord(db: Db) {
    forall i | 0 <= i < |db.deposits| :: OnRecord(db, db.deposits[i])
  }

  lemma DepositedIsClosed(db: Db, i: nat)
    requires i < |db.deposits| && PaymentRuns.Consistent(db, db.deposits[i].reference)
    ensures db.deposits[i].reference in db.t.cycles && !db.t.cycles[db.deposits[i].reference].IsOpen()
  {
    PaymentRuns.NoDeposits(db, db.deposits[i].reference);
  }

  lemma StaysOnRecord(db: Db, step: PaymentRuns.Step, i: nat)
    requires AllOnRecord(db) && i < |db.deposits| && PaymentRuns.Consistent(db, db.deposits[i].reference)
    ensures OnRecord(PaymentRuns.Next(db, step), db.deposits[i])
  {
    assert OnRecord(db, db.deposits[i]);
    DepositedIsClosed(db, i);
    PaymentRuns.NextKeepsFrozen(db, step, db.deposits[i].reference);
  }

  /** A step makes no deposit, or one, under the id it has put on record. */
  lemma NewIsOnRecord(db: Db, step: PaymentRuns.Step)
    ensures var after, n := PaymentRuns.Next(db, step), |db.deposits|;
            after.deposits == db.deposits ||
            (|after.deposits| == n + 1 && after.deposits[..n] == db.deposits && OnRecord(after, after.deposits[n]))
  {
    if step.Apply? {
      var result := step.result;
      var evaluated := db.(t := Evaluated(db.t, step.from, result, step.now));
      if Decide(Row(db.t, result.externalId), result).Processed? && CreditPlan(result).Some? {
        PaymentRuns.CreditedOnceShape(evaluated, step.from, result, CreditPlan(result).value, step.faults);
      }
    }
  }

  /** Over every run, a cycle with a deposit under a payment id has that very id on record. */
  lemma {:induction false} DepositsBearTheirId(steps: seq<PaymentRuns.Step>)
    ensures AllOnRecord(PaymentRuns.Run(EMPTY, steps))
  {
    if steps != [] {
      var before, step := PaymentRuns.Run(EMPTY, steps[..|steps| - 1]), steps[|steps| - 1];
      var after := PaymentRuns.Next(before, step);
      DepositsBearTheirId(steps[..|steps| - 1]);
      NewIsOnRecord(before, step);
      forall i | 0 <= i < |after.deposits| ensures OnRecord(after, after.deposits[i]) {
        if i < |before.deposits| {
          assert after.deposits[i] == before.deposits[i];
          PaymentRuns.RunIsConsistent(steps[..|steps| - 1], before.deposits[i].reference);
          StaysOnRecord(before, step, i);
        }
      }
    }
  }

  // ---------- No request is forgotten ----------

  /** Every open request has a next check. */
  ghost predicate NoneForgotten(t: Tables) {
    forall r | r in t.cycles :: t.cycles[r].status.Requested? ==> t.cycles[r].nextCheckAt.Some?
  }

  lemma EvaluatedForgetsNone(t: Tables, provider: Provider, result: WebhookResult, outcome: Outcome, now: Time)
    requires NoneForgotten(t)
    ensures NoneForgotten(Decided(t, provider, result, outcome, now))
  {
  }

  lemma ReopenedForgetsNone(t: Tables, reference: string, now: Time)
    requires NoneForgotten(t)
    ensures NoneForgotten(Reopened(t, reference, now))
  {
  }

  lemma NextForgetsNone(db: Db, step: PaymentRuns.Step)
    requires NoneForgotten(db.t)
    ensures NoneForgotten(PaymentRuns.Next(db, step).t)
  {
    if step.Apply? {
      var result := step.result;
      var evaluated := db.(t := Evaluated(db.t, step.from, result, step.now));
      EvaluatedForgetsNone(db.t, step.from, result, Decide(Row(db.t, result.externalId), result), step.now);
      ReopenedForgetsNone(evaluated.t, result.externalId, step.now);
      if CreditPlan(result).Some? {
        PaymentRuns.CreditedOnceShape(evaluated, step.from, result, CreditPlan(result).value, step.faults);
      }
    }
  }

  /** Over every run, every open request has a next check. */
  lemma {:induction false} RunForgetsNone(steps: seq<PaymentRuns.Step>)
    ensures NoneForgotten(PaymentRuns.Run(EMPTY, steps).t)
  {
    if steps != [] {
      RunForgetsNone(steps[..|steps| - 1]);
      NextForgetsNone(PaymentRuns.Run(EMPTY, steps[..|steps| - 1]), steps[|steps| - 1]);
    }
  }

  lemma CallForgetsNone(db: Db, h: PaymentInterleaving.Handler, env: PaymentInterleaving.Env)
    requires NoneForgotten(db.t)
    ensures NoneForgotten(PaymentInterleaving.Call(db, h, env).0.t)
  {
    if h.pc.Deciding? {
      EvaluatedForgetsNone(db.t, h.provider, h.result, Decide(h.pc.snapshot, h.result), env.now);
    } else if h.pc.Reopening? {
      ReopenedForgetsNone(db.t, h.result.externalId, env.now);
    }
  }

  /** And so in every interleaving, whatever fails and whoever stops midway. */
  lemma {:induction false} InterleavingForgetsNone(steps: seq<PaymentInterleaving.Step>)
    ensures NoneForgotten(PaymentInterleaving.Run(PaymentInterleaving.START, steps).db.t)
  {
    if steps != [] {
      var s, step := PaymentInterleaving.Run(PaymentInterleaving.START, steps[..|steps| - 1]), steps[|steps| - 1];
      InterleavingForgetsNone(steps[..|steps| - 1]);
      if step.Advance? && step.id in s.handlers {
        CallForgetsNone(s.db, s.handlers[step.id], step.env);
      } else if step.Background? {
        NextForgetsNone(s.db, step.step);
      }
    }
  }

  /** A request whose check has come is in the next batch, unless fifty others came no later. */
  lemma DueIsVisited(cycles: map<string, Cycle>, now: Time, batch: seq<PaymentPolling.PendingCycle>, reference: string)
    requires PaymentPolling.IsBatch(cycles, now, PaymentPolling.BATCH, batch)
    requires reference in cycles && cycles[reference].status.Requested?
    requires cycles[reference].nextCheckAt.Some? && cycles[reference].nextCheckAt.value <= now
    ensures (exists i :: 0 <= i < |batch| && batch[i].reference == reference && batch[i].row == cycles[reference]) ||
            (|batch| == 50 && forall i | 0 <= i < |batch| ::
               && batch[i].reference in cycles && cycles[batch[i].reference].nextCheckAt.Some?
               && cycles[batch[i].reference].nextCheckAt.value <= cycles[reference].nextCheckAt.value)
  {
    assert PaymentPolling.DueIn(cycles, now, reference);
    if !PaymentPolling.Omitted(batch, reference) {
      var i :| 0 <= i < |batch| && batch[i].reference == reference;
      assert batch[i].row == cycles[reference];
    } else {
      forall i | 0 <= i < |batch|
        ensures batch[i].reference in cycles && cycles[batch[i].reference].nextCheckAt.Some?
        ensures cycles[batch[i].reference].nextCheckAt.value <= cycles[reference].nextCheckAt.value
      {
        assert PaymentPolling.DueIn(cycles, now, batch[i].reference);
        assert PaymentPolling.NoLater(cycles, now, batch[i].reference, reference);
      }
    }
  }

  /**
   A credit that throws is not lost: a minute later, and ever after until something else happens to the
   cycle, a polling pass visits it unless fifty others come no later.
   */
  lemma FailedCreditIsVisited(db: Db, provider: Provider, result: WebhookResult, at: Time, f: Faults, now: Time,
                              batch: seq<PaymentPolling.PendingCycle>)
    requires Throws(db, provider, result, f) && at + 60_000 <= now
    requires PaymentPolling.IsBatch(Applied(db, provider, result, at, f).0.t.cycles, now, PaymentPolling.BATCH, batch)
    ensures (exists i :: 0 <= i < |batch| && batch[i].reference == result.externalId) ||
            (|batch| == 50 && forall i | 0 <= i < |batch| :: batch[i].row.nextCheckAt.Some? && batch[i].row.nextCheckAt.value <= at + 60_000)
  {
    AnswerThatThrows(db, provider, result, at, f);
    DueIsVisited(Applied(db, provider, result, at, f).0.t.cycles, now, batch, result.externalId);
    assert PaymentPolling.AreDue(Applied(db, provider, result, at, f).0.t.cycles, now, batch);
  }

  // ---------- The rest of a row ----------

  /** A request starts open, unanswered and on nobody's record, with its first check a minute away. */
  lemma FreshRequest(db: Db, reference: string, provider: Provider, userId: string, amount: real, currency: string, at: Time)
    ensures var after := PaymentRuns.Next(db, PaymentRuns.Open(reference, provider, userId, amount, currency, at));
            if reference in db.t.cycles then after == db
            else after == db.(t := db.t.(cycles := db.t.cycles[reference :=
                   Cycle(provider, userId, amount, currency, Status.Requested, None, at, None, None, Some(at + 60_000), 0)]))
  {
  }

  /** A stale reschedule counts on from the row's own count, and waits as long as the count it read says. */
  lemma StaleReschedule(db: Db, reference: string, read: nat, now: Time)
    requires reference in db.t.cycles
    ensures var cycle := db.t.cycles[reference];
            var after := PaymentRuns.Next(db, PaymentRuns.Reschedule(reference, read, now));
            var delay := if read == 0 then 60_000 else if read == 1 then 300_000 else if read == 2 then 900_000
                         else if read == 3 then 3_600_000 else if read == 4 then 21_600_000 else 43_200_000;
            after.t.cycles == db.t.cycles[reference := cycle.(checkCount := cycle.checkCount + 1, nextCheckAt := Some(now + delay))]
  {
  }

  /** A visit expires a cycle exactly when more than 72 hours have gone since its request. */
  lemma WhenAVisitExpires(cycle: Cycle, visit: PaymentPolling.Visit)
    requires cycle.status.Requested?
    ensures PaymentPolling.Visited(cycle, visit).status.Expired? <==> visit.at > cycle.requestedAt + 72 * 60 * 60 * 1000
    ensures PaymentPolling.Visited(cycle, visit).status.Expired? ==> PaymentPolling.Visited(cycle, visit).nextCheckAt.None?
  {
  }

  /** The event of an answer bears the reference, the provider and the payment id, empty where there is none. */
  lemma EventBears(db: Db, provider: Provider, result: WebhookResult, now: Time, f: Faults)
    ensures var events := Applied(db, provider, result, now, f).0.t.events;
            && |events| == |db.t.events| + 1
            && var e := events[|db.t.events|];
               && e.reference == result.externalId && e.provider == provider
               && e.paymentId == (if result.paymentId.Some? then result.paymentId.value else "")
  {
    PaymentRuns.OneDecisionPerAnswer(db, provider, result, now, f);
    var evaluated := db.(t := Evaluated(db.t, provider, result, now));
    PaymentRuns.EvaluatedLogs(db.t, provider, result, now);
    if CreditPlan(result).Some? {
      PaymentRuns.CreditedOnceShape(evaluated, provider, result, CreditPlan(result).value, f);
    }
  }

  /** The books: the first answer's provider, amount and currency stay; its completion and id follow the last. */
  lemma BooksAfterAnswer(db: Db, provider: Provider, result: WebhookResult, now: Time)
    requires result.externalId in db.t.cycles && StillOpen(db.t.cycles[result.externalId])
    requires !result.status.Completed? || Agrees(db.t.cycles[result.externalId], result)
    ensures var reference, before := result.externalId, db.t.payments;
            var row := Evaluated(db.t, provider, result, now).payments;
            && reference in row && row == before[reference := row[reference]]
            && row[reference].completed == result.status.Completed?
            && (result.paymentId.Some? ==> row[reference].externalId == result.paymentId)
            && if reference in before then
                 && row[reference].provider == before[reference].provider && row[reference].amount == before[reference].amount
                 && row[reference].currency == before[reference].currency
                 && (result.paymentId.None? ==> row[reference].externalId == before[reference].externalId)
               else
                 row[reference] == PaymentRow(provider, result.status.Completed?, Amount(result),
                                              db.t.cycles[reference].currency, result.paymentId)
  {
  }
}
