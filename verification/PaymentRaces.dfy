/**
 What handlers in flight together may do, whatever fails and whoever stops midway: every deposit is the
 requester's and of the amount requested, yet two payments under one reference may both be deposited.
 */
module PaymentRaces {
  import opened Wrappers
  import opened PaymentCycle
  import opened Payments
  import opened PaymentInterleaving
  import opened Tally
  import PaymentReference
  import PaymentRuns

  // ---------- Every deposit is rightful ----------

  /** The terms of a request, which nothing changes. */
  predicate SameTerms(a: Cycle, b: Cycle) {
    a.userId == b.userId && a.amount == b.amount && a.currency == b.currency
  }

  predicate TermsKept(t: Tables, t': Tables) {
    forall r | r in t.cycles :: r in t'.cycles && SameTerms(t.cycles[r], t'.cycles[r])
  }

  predicate RightfulDeposit(t: Tables, d: Deposit) {
    d.reference in t.cycles && PaymentRuns.Rightful(d, d.reference, t.cycles[d.reference])
  }

  predicate RightfulCredit(t: Tables, credit: Credit, reference: string) {
    RightfulDeposit(t, Deposit(credit.userId, credit.amount, reference, None))
  }

  /** A decision pending was read on the terms there are; a credit pending is rightful. */
  predicate RightfulHandler(t: Tables, h: Handler) {
    var reference := h.result.externalId;
    match h.pc
    case Deciding(snapshot) => snapshot.Some? ==> reference in t.cycles && SameTerms(snapshot.value, t.cycles[reference])
    case Reserving(credit, _) => RightfulCredit(t, credit, reference)
    case Depositing(credit, _) => RightfulCredit(t, credit, reference)
    case DepositingUnreserved(credit) => RightfulCredit(t, credit, reference)
    case _ => true
  }

  ghost predicate AllRightful(s: System) {
    && (forall i | 0 <= i < |s.db.deposits| :: RightfulDeposit(s.db.t, s.db.deposits[i]))
    && (forall i | i in s.handlers :: RightfulHandler(s.db.t, s.handlers[i]))
  }

  lemma DecidedKeepsTerms(t: Tables, provider: Provider, result: WebhookResult, outcome: Outcome, now: Time)
    ensures TermsKept(t, Decided(t, provider, result, outcome, now))
  {
  }

  lemma CallKeepsTerms(db: Db, h: Handler, env: Env)
    ensures TermsKept(db.t, Call(db, h, env).0.t)
  {
    if h.pc.Deciding? {
      DecidedKeepsTerms(db.t, h.provider, h.result, Decide(h.pc.snapshot, h.result), env.now);
    }
  }

  lemma BackgroundKeepsTerms(db: Db, step: PaymentRuns.Step)
    requires !step.Apply?
    ensures TermsKept(db.t, PaymentRuns.Next(db, step).t) && PaymentRuns.Next(db, step).deposits == db.deposits
  {
  }

  lemma RightfulStays(t: Tables, t': Tables, h: Handler)
    requires TermsKept(t, t') && RightfulHandler(t, h)
    ensures RightfulHandler(t', h)
  {
  }

  /** A credit is asked for only of an open cycle whose terms the answer matches. */
  lemma ProcessedIsRightful(t: Tables, snapshot: Cycle, result: WebhookResult)
    requires result.externalId in t.cycles && SameTerms(snapshot, t.cycles[result.externalId])
    requires Decide(Some(snapshot), result).Processed? && CreditPlan(result).Some?
    ensures RightfulCredit(t, CreditPlan(result).value, result.externalId)
  {
  }

  lemma CallIsRightful(db: Db, h: Handler, env: Env)
    requires RightfulHandler(db.t, h)
    ensures RightfulHandler(Call(db, h, env).0.t, Call(db, h, env).1)
  {
    CallKeepsTerms(db, h, env);
    var (db', h') := Call(db, h, env);
    if h.pc.Deciding? && h.pc.snapshot.Some? && Decide(h.pc.snapshot, h.result).Processed? && CreditPlan(h.result).Some? {
      ProcessedIsRightful(db'.t, h.pc.snapshot.value, h.result);
    }
  }

  lemma DepositsStayRightful(before: Db, after: Db)
    requires TermsKept(before.t, after.t)
    requires forall i | 0 <= i < |before.deposits| :: RightfulDeposit(before.t, before.deposits[i])
    requires after.deposits == before.deposits ||
             (|after.deposits| == |before.deposits| + 1 && after.deposits[..|before.deposits|] == before.deposits &&
              RightfulDeposit(after.t, after.deposits[|before.deposits|]))
    ensures forall i | 0 <= i < |after.deposits| :: RightfulDeposit(after.t, after.deposits[i])
  {
    forall i | 0 <= i < |after.deposits| ensures RightfulDeposit(after.t, after.deposits[i]) {
      if i < |before.deposits| {
        assert after.deposits[i] == before.deposits[i];
        assert RightfulDeposit(before.t, before.deposits[i]);
      }
    }
  }

  lemma AdvanceKeepsRightful(s: System, id: nat, env: Env)
    requires AllRightful(s) && id in s.handlers
    ensures AllRightful(PaymentInterleaving.Next(s, Advance(id, env)))
  {
    var h := s.handlers[id];
    var (db', h') := Call(s.db, h, env);
    CallKeepsTerms(s.db, h, env);
    DepositsStayRightful(s.db, db');
    var after := s.handlers[id := h'];
    forall i | i in after ensures RightfulHandler(db'.t, after[i]) {
      if i == id { CallIsRightful(s.db, h, env); } else { RightfulStays(s.db.t, db'.t, s.handlers[i]); }
    }
    assert PaymentInterleaving.Next(s, Advance(id, env)) == System(db', after);
  }

  lemma NextKeepsRightful(s: System, step: Step)
    requires AllRightful(s)
    ensures AllRightful(PaymentInterleaving.Next(s, step))
  {
    if step.Advance? && step.id in s.handlers {
      AdvanceKeepsRightful(s, step.id, step.env);
    } else if step.Background? && !step.step.Apply? {
      var db' := PaymentRuns.Next(s.db, step.step);
      BackgroundKeepsTerms(s.db, step.step);
      DepositsStayRightful(s.db, db');
      forall i | i in s.handlers ensures RightfulHandler(db'.t, s.handlers[i]) {
        RightfulStays(s.db.t, db'.t, s.handlers[i]);
      }
    }
  }

  /**
   Whatever the interleaving, the failures and the crashes, every deposit went to the user its reference
   names and its cycle was opened by, for exactly the amount requested.
   */
  lemma {:induction false} EveryDepositIsRightful(steps: seq<Step>)
    ensures AllRightful(PaymentInterleaving.Run(START, steps))
  {
    if steps != [] {
      EveryDepositIsRightful(steps[..|steps| - 1]);
      NextKeepsRightful(PaymentInterleaving.Run(START, steps[..|steps| - 1]), steps[|steps| - 1]);
    }
  }

  // ---------- One payment under one reference ----------

  /** Every COMPLETED answer about the reference or the payment of `result` is this one; anything may fail. */
  predicate OnePayment(step: Step, provider: Provider, result: WebhookResult) {
    step.Spawn? ==> Complies(Handler(step.provider, step.result, Reading), provider, result)
  }

  ghost predicate Fits(s: System, provider: Provider, result: WebhookResult)
    requires Payable(provider, result)
  {
    HandlersFit(s, provider, result) && DepositsFit(s.db, provider, result)
  }

  lemma NextKeepsFit(s: System, step: Step, provider: Provider, result: WebhookResult)
    requires Payable(provider, result) && Fits(s, provider, result) && OnePayment(step, provider, result)
    ensures Fits(PaymentInterleaving.Next(s, step), provider, result)
  {
    if step.Advance? && step.id in s.handlers {
      AdvanceKeepsFit(s, step.id, step.env, provider, result);
    } else if step.Background? && !step.step.Apply? {
      BackgroundKeepsTerms(s.db, step.step);
    }
  }

  lemma {:induction false} RunFits(steps: seq<Step>, provider: Provider, result: WebhookResult)
    requires Payable(provider, result) && forall i | 0 <= i < |steps| :: OnePayment(steps[i], provider, result)
    ensures Fits(PaymentInterleaving.Run(START, steps), provider, result)
  {
    if steps != [] {
      RunFits(steps[..|steps| - 1], provider, result);
      NextKeepsFit(PaymentInterleaving.Run(START, steps[..|steps| - 1]), steps[|steps| - 1], provider, result);
    }
  }

  /** With one completed payment per reference, the reference is credited at most once, whatever fails or stops. */
  lemma OnePaymentIsPaidOnce(steps: seq<Step>, provider: Provider, result: WebhookResult)
    requires Payable(provider, result) && forall i | 0 <= i < |steps| :: OnePayment(steps[i], provider, result)
    ensures PaymentRuns.DepositsTo(PaymentInterleaving.Run(START, steps).db, result.externalId) <= 1
  {
    RunFits(steps, provider, result);
    SameCounts(PaymentInterleaving.Run(START, steps).db, provider, result);
    AtMostOneDepositPerPayment(steps, KeyOf(provider, result).value);
  }

  // ---------- Two payments under one reference ----------

  const UNHINDERED := Env(5, Faults(false, false, false))

  lemma RunAppend(s: System, steps: seq<Step>, step: Step)
    ensures PaymentInterleaving.Run(s, steps + [step]) == PaymentInterleaving.Next(PaymentInterleaving.Run(s, steps), step)
  {
    assert (steps + [step])[..|steps|] == steps;
  }

  /** A handler about to decide on an open cycle that its answer matches, its payment not reserved. */
  predicate AboutToPay(s: System, id: nat) {
    && id in s.handlers
    && var h := s.handlers[id];
       && h.pc.Deciding? && Decide(h.pc.snapshot, h.result).Processed? && CreditPlan(h.result).Some?
       && KeyOf(h.provider, h.result).Some? && KeyOf(h.provider, h.result).value !in s.db.reservations
  }

  /** Its next three calls deposit, whatever has become of the cycle in the meantime. */
  lemma ThreeCallsDeposit(s: System, id: nat)
    requires AboutToPay(s, id)
    ensures var call := Advance(id, UNHINDERED);
            var after := PaymentInterleaving.Next(PaymentInterleaving.Next(PaymentInterleaving.Next(s, call), call), call);
            var h := s.handlers[id];
            && PaymentRuns.DepositsTo(after.db, h.result.externalId) == PaymentRuns.DepositsTo(s.db, h.result.externalId) + 1
            && after.db.reservations == s.db.reservations + {KeyOf(h.provider, h.result).value}
            && after.handlers == s.handlers[id := h.(pc := Finished(false))]
  {
    var h, call := s.handlers[id], Advance(id, UNHINDERED);
    var credit, key := CreditPlan(h.result).value, KeyOf(h.provider, h.result).value;
    var s1 := PaymentInterleaving.Next(s, call);
    assert s1.handlers == s.handlers[id := h.(pc := Reserving(credit, key))] && s1.db.reservations == s.db.reservations;
    var s2 := PaymentInterleaving.Next(s1, call);
    assert s2.handlers == s.handlers[id := h.(pc := Depositing(credit, key))] && s2.db.deposits == s.db.deposits;
    PaymentRuns.SameDepositsSameCount(s.db, s2.db, h.result.externalId);
    PaymentRuns.DepositedCounts(s2.db, credit, h.result.externalId, Some(key), h.result.externalId);
  }

  function Answered50(paymentId: string): WebhookResult {
    WebhookResult(Some(paymentId), "DEP-ana-1", Completed, Some(50.0))
  }

  lemma AnswerMatches(paymentId: string)
    ensures Decide(Some(ASKED), Answered50(paymentId)).Processed? && CreditPlan(Answered50(paymentId)).Some?
  {
    assert PaymentReference.Print("ana", 1) == "DEP-ana-1";
    PaymentReference.ParseOfPrint("ana", 1);
  }

  const ASKED := NewCycle("MERCADO_PAGO", "ana", 50.0, PLATFORM_CURRENCY, 0)

  /** One request, and two answers about different payments of it, both read before either decides. */
  const REQUESTED: seq<Step> :=
    [] + [Background(PaymentRuns.Open("DEP-ana-1", "MERCADO_PAGO", "ana", 50.0, PLATFORM_CURRENCY, 0))]
  const BOTH_HERE := REQUESTED + [Spawn(1, "MERCADO_PAGO", Answered50("p1"))] + [Spawn(2, "MERCADO_PAGO", Answered50("p2"))]
  const BOTH_READ := BOTH_HERE + [Advance(1, UNHINDERED)] + [Advance(2, UNHINDERED)]

  function ThreeCalls(id: nat): seq<Step> {
    [Advance(id, UNHINDERED)] + [Advance(id, UNHINDERED)] + [Advance(id, UNHINDERED)]
  }

  function About(paymentId: string, pc: Pc): Handler {
    Handler("MERCADO_PAGO", Answered50(paymentId), pc)
  }

  const OPEN_CYCLE := EMPTY.(t := EMPTY.t.(cycles := map["DEP-ana-1" := ASKED]))

  lemma AfterRequest()
    ensures PaymentInterleaving.Run(START, REQUESTED) == System(OPEN_CYCLE, map[])
  {
    RunAppend(START, [], REQUESTED[0]);
  }

  lemma AfterBothHere()
    ensures PaymentInterleaving.Run(START, BOTH_HERE) ==
            System(OPEN_CYCLE, map[1 := About("p1", Reading), 2 := About("p2", Reading)])
  {
    AfterRequest();
    RunAppend(START, REQUESTED, Spawn(1, "MERCADO_PAGO", Answered50("p1")));
    RunAppend(START, REQUESTED + [Spawn(1, "MERCADO_PAGO", Answered50("p1"))], Spawn(2, "MERCADO_PAGO", Answered50("p2")));
  }

  lemma AfterBothRead()
    ensures PaymentInterleaving.Run(START, BOTH_READ) ==
            System(OPEN_CYCLE, map[1 := About("p1", Deciding(Some(ASKED))), 2 := About("p2", Deciding(Some(ASKED)))])
  {
    AfterBothHere();
    RunAppend(START, BOTH_HERE, Advance(1, UNHINDERED));
    RunAppend(START, BOTH_HERE + [Advance(1, UNHINDERED)], Advance(2, UNHINDERED));
  }

  lemma RunThreeCalls(steps: seq<Step>, id: nat)
    requires AboutToPay(PaymentInterleaving.Run(START, steps), id)
    ensures var s, after := PaymentInterleaving.Run(START, steps), PaymentInterleaving.Run(START, steps + ThreeCalls(id));
            var h := s.handlers[id];
            && PaymentRuns.DepositsTo(after.db, h.result.externalId) == PaymentRuns.DepositsTo(s.db, h.result.externalId) + 1
            && after.db.reservations == s.db.reservations + {KeyOf(h.provider, h.result).value}
            && after.handlers == s.handlers[id := h.(pc := Finished(false))]
  {
    var call := Advance(id, UNHINDERED);
    ThreeCallsDeposit(PaymentInterleaving.Run(START, steps), id);
    RunAppend(START, steps, call);
    RunAppend(START, steps + [call], call);
    RunAppend(START, steps + [call] + [call], call);
    assert steps + ThreeCalls(id) == steps + [call] + [call] + [call];
  }

  /** Two different payments of one request, both read while it is open, are both deposited. */
  lemma TwoPaymentsMayBothBePaid()
    ensures PaymentRuns.DepositsTo(PaymentInterleaving.Run(START, BOTH_READ + ThreeCalls(1) + ThreeCalls(2)).db, "DEP-ana-1") == 2
  {
    AnswerMatches("p1");
    AnswerMatches("p2");
    AfterBothRead();
    RunThreeCalls(BOTH_READ, 1);
    RunThreeCalls(BOTH_READ + ThreeCalls(1), 2);
  }
}
