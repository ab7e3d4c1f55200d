/**
 Webhook and polling handlers in flight together. Nothing spans their calls: each handler reads the
 cycle, writes its decision, inserts the reservation, deposits, and on failure deletes the
 reservation and reopens the cycle, with any number of other handlers in between.

 Every step of a handler is one call. A call may fail as `Env.faults` says, and a handler may stop
 for good at any point (`Crash`). The decision's row, event and accounting writes count as one call.
 */
module PaymentInterleaving {
  import opened Wrappers
  import opened PaymentCycle
  import opened Payments
  import opened Tally
  import PaymentRuns

  datatype Pc =
    | Reading
    | Deciding(snapshot: Option<Cycle>)
    | Reserving(credit: Credit, key: PaymentKey)
    | Depositing(credit: Credit, key: PaymentKey)
    | DepositingUnreserved(credit: Credit)
    | Unreserving(key: PaymentKey)
    | Reopening
    | Finished(threw: bool)

  datatype Handler = Handler(provider: Provider, result: WebhookResult, pc: Pc)

  datatype Env = Env(now: Time, faults: Faults)

  datatype System = System(db: Db, handlers: map<nat, Handler>)

  datatype Step =
    | Spawn(id: nat, provider: Provider, result: WebhookResult)
    | Advance(id: nat, env: Env)
    | Crash(id: nat)
    | Background(step: PaymentRuns.Step)

  /** One call of one handler on the shared tables. */
  function Call(db: Db, h: Handler, env: Env): (Db, Handler) {
    var reference := h.result.externalId;
    match h.pc
    case Reading => (db, h.(pc := Deciding(Row(db.t, reference))))
    case Deciding(snapshot) =>
      var outcome := Decide(snapshot, h.result);
      var decided := db.(t := Decided(db.t, h.provider, h.result, outcome, env.now));
      var plan := CreditPlan(h.result);
      if !outcome.Processed? || plan.None? then (decided, h.(pc := Finished(false)))
      else
        var key := KeyOf(h.provider, h.result);
        (decided, h.(pc := if key.Some? then Reserving(plan.value, key.value) else DepositingUnreserved(plan.value)))
    case Reserving(credit, key) =>
      if env.faults.insertFails then (db, h.(pc := Reopening))
      else if key in db.reservations then (db, h.(pc := Finished(false)))
      else (db.(reservations := db.reservations + {key}), h.(pc := Depositing(credit, key)))
    case Depositing(credit, key) =>
      if env.faults.depositFails then (db, h.(pc := Unreserving(key)))
      else (Deposited(db, credit, reference, Some(key)), h.(pc := Finished(false)))
    case DepositingUnreserved(credit) =>
      (if env.faults.depositFails then db else Deposited(db, credit, reference, None), h.(pc := Finished(false)))
    case Unreserving(key) =>
      (if env.faults.deleteFails then db else db.(reservations := db.reservations - {key}), h.(pc := Reopening))
    case Reopening => (db.(t := Reopened(db.t, reference, env.now)), h.(pc := Finished(true)))
    case Finished(_) => (db, h)
  }

  function Next(s: System, step: Step): System {
    match step
    case Spawn(id, provider, result) =>
      if id in s.handlers then s else s.(handlers := s.handlers[id := Handler(provider, result, Reading)])
    case Advance(id, env) =>
      if id !in s.handlers then s
      else
        var (db, h) := Call(s.db, s.handlers[id], env);
        System(db, s.handlers[id := h])
    case Crash(id) => s.(handlers := s.handlers - {id})
    case Background(step) => if step.Apply? then s else s.(db := PaymentRuns.Next(s.db, step))
  }

  function Run(s: System, steps: seq<Step>): System {
    if steps == [] then s else Next(Run(s, steps[..|steps| - 1]), steps[|steps| - 1])
  }

  const START := System(EMPTY, map[])

  // ---------- One handler alone is the sequential service ----------

  function Alone(db: Db, h: Handler, env: Env, calls: nat): (Db, Handler)
    decreases calls
  {
    if calls == 0 then (db, h)
    else
      var (db', h') := Call(db, h, env);
      Alone(db', h', env, calls - 1)
  }

  lemma AloneFinished(db: Db, h: Handler, env: Env, calls: nat)
    requires h.pc.Finished?
    ensures Alone(db, h, env, calls) == (db, h)
    decreases calls
  {
    if calls > 0 {
      AloneFinished(db, h, env, calls - 1);
    }
  }

  /** From its reservation on, a handler alone is `creditOnce` followed by the reopening if that threw. */
  lemma CreditAlone(db: Db, h: Handler, env: Env)
    requires CreditPlan(h.result).Some?
    requires var key := KeyOf(h.provider, h.result);
             h.pc == if key.Some? then Reserving(CreditPlan(h.result).value, key.value)
                     else DepositingUnreserved(CreditPlan(h.result).value)
    ensures var (credited, threw) := CreditedOnce(db, h.provider, h.result, CreditPlan(h.result).value, env.faults);
            Alone(db, h, env, 4) ==
            (if threw then credited.(t := Reopened(credited.t, h.result.externalId, env.now)) else credited,
             h.(pc := Finished(threw)))
  {
    var (db1, h1) := Call(db, h, env);
    var (db2, h2) := Call(db1, h1, env);
    var (db3, h3) := Call(db2, h2, env);
    var (db4, h4) := Call(db3, h3, env);
    assert Alone(db, h, env, 4) == Alone(db1, h1, env, 3) == Alone(db2, h2, env, 2) == Alone(db3, h3, env, 1);
    assert Alone(db3, h3, env, 1) == Alone(db4, h4, env, 0);
    if h1.pc.Depositing? {
      assert db.reservations + {h1.pc.key} - {h1.pc.key} == db.reservations;
    }
  }

  /** Without interference, six calls of a handler are exactly one `applyProviderResult`. */
  lemma AloneIsSequential(db: Db, provider: Provider, result: WebhookResult, env: Env)
    ensures Alone(db, Handler(provider, result, Reading), env, 6) ==
            (Applied(db, provider, result, env.now, env.faults).0,
             Handler(provider, result, Finished(Applied(db, provider, result, env.now, env.faults).1)))
  {
    var h0 := Handler(provider, result, Reading);
    var (db1, h1) := Call(db, h0, env);
    var (db2, h2) := Call(db1, h1, env);
    assert Alone(db, h0, env, 6) == Alone(db1, h1, env, 5) == Alone(db2, h2, env, 4);
    assert db2 == db.(t := Evaluated(db.t, provider, result, env.now));
    if h2.pc.Finished? {
      AloneFinished(db2, h2, env, 4);
    } else {
      CreditAlone(db2, h2, env);
    }
  }

  // ---------- At most one deposit per payment, in every interleaving ----------

  function DepositsUnder(db: Db, key: PaymentKey): nat {
    Count(db.deposits, (d: Deposit) => d.payment == Some(key))
  }

  /** A handler between its reservation and the end of its deposit, or about to take it back. */
  predicate Holds(h: Handler, key: PaymentKey) {
    (h.pc.Depositing? || h.pc.Unreserving?) && h.pc.key == key
  }

  ghost predicate KeySafe(s: System, key: PaymentKey) {
    && (forall i, j | i in s.handlers && j in s.handlers && Holds(s.handlers[i], key) && Holds(s.handlers[j], key) :: i == j)
    && (forall i | i in s.handlers && Holds(s.handlers[i], key) :: key in s.db.reservations && DepositsUnder(s.db, key) == 0)
    && DepositsUnder(s.db, key) <= 1
    && (DepositsUnder(s.db, key) == 1 ==> key in s.db.reservations)
  }

  lemma DepositedUnder(db: Db, credit: Credit, reference: string, payment: Option<PaymentKey>, key: PaymentKey)
    ensures DepositsUnder(Deposited(db, credit, reference, payment), key) ==
            DepositsUnder(db, key) + if payment == Some(key) then 1 else 0
  {
    CountAppend(db.deposits, Deposit(credit.userId, credit.amount, reference, payment),
                (d: Deposit) => d.payment == Some(key));
  }

  /** What one call does to the reservation of `key` and to the deposits under it. */
  lemma CallOnKey(db: Db, h: Handler, env: Env, key: PaymentKey)
    ensures var (db', h') := Call(db, h, env);
            if Holds(h, key) then
              if Holds(h', key) then key in db.reservations ==> key in db'.reservations && DepositsUnder(db', key) == DepositsUnder(db, key)
              else if h.pc.Depositing? then
                db'.reservations == db.reservations && DepositsUnder(db', key) == DepositsUnder(db, key) + 1
              else DepositsUnder(db', key) == DepositsUnder(db, key)
            else
              && DepositsUnder(db', key) == DepositsUnder(db, key)
              && (key in db.reservations ==> key in db'.reservations)
              && (Holds(h', key) ==> key !in db.reservations && key in db'.reservations)
  {
    match h.pc
    case Depositing(credit, k) => DepositedUnder(db, credit, h.result.externalId, Some(k), key);
    case DepositingUnreserved(credit) => DepositedUnder(db, credit, h.result.externalId, None, key);
    case _ => assert Call(db, h, env).0.deposits == db.deposits;
  }

  lemma BackgroundOnKey(db: Db, step: PaymentRuns.Step, key: PaymentKey)
    requires !step.Apply?
    ensures DepositsUnder(PaymentRuns.Next(db, step), key) == DepositsUnder(db, key)
    ensures PaymentRuns.Next(db, step).reservations == db.reservations
  {
    assert PaymentRuns.Next(db, step).deposits == db.deposits;
  }

  lemma NextKeepsKeySafe(s: System, step: Step, key: PaymentKey)
    requires KeySafe(s, key)
    ensures KeySafe(Next(s, step), key)
  {
    match step
    case Spawn(_, _, _) =>
    case Advance(id, env) =>
      if id in s.handlers {
        CallOnKey(s.db, s.handlers[id], env, key);
      }
    case Crash(_) =>
    case Background(step) =>
      if !step.Apply? {
        BackgroundOnKey(s.db, step, key);
      }
  }

  /**
   Whatever the interleaving, the failures and the crashes, every payment with an id is deposited at
   most once, and one that was deposited stays reserved.
   */
  lemma {:induction false} AtMostOneDepositPerPayment(steps: seq<Step>, key: PaymentKey)
    ensures KeySafe(Run(START, steps), key)
    ensures DepositsUnder(Run(START, steps).db, key) <= 1
    ensures DepositsUnder(Run(START, steps).db, key) == 1 ==> key in Run(START, steps).db.reservations
  {
    if steps != [] {
      AtMostOneDepositPerPayment(steps[..|steps| - 1], key);
      NextKeepsKeySafe(Run(START, steps[..|steps| - 1]), steps[|steps| - 1], key);
    }
  }

  // ---------- Nothing is lost at rest ----------

  /**
   One completed payment per reference: every COMPLETED answer about the reference of `result`, or about
   its payment, is this one; any other answers may come with it. No handler stops midway and no
   reservation fails to be deleted.
   */
  predicate Disciplined(step: Step, provider: Provider, result: WebhookResult) {
    match step
    case Spawn(_, p, r) =>
      r.status.Completed? && (r.externalId == result.externalId || KeyOf(p, r) == KeyOf(provider, result)) ==>
        p == provider && r == result
    case Advance(_, env) => !env.faults.deleteFails
    case Crash(_) => false
    case Background(_) => true
  }

  /** Still to reserve, deposit, take back or reopen. */
  predicate Engaged(h: Handler, reference: string) {
    && h.result.externalId == reference
    && (h.pc.Reserving? || h.pc.Depositing? || h.pc.Unreserving? || h.pc.Reopening?)
  }

  /** A handler carries the key and the credit of its own answer. */
  predicate Coherent(h: Handler) {
    match h.pc
    case Reserving(credit, key) => KeyOf(h.provider, h.result) == Some(key) && CreditPlan(h.result) == Some(credit)
    case Depositing(credit, key) => KeyOf(h.provider, h.result) == Some(key) && CreditPlan(h.result) == Some(credit)
    case DepositingUnreserved(credit) => KeyOf(h.provider, h.result).None? && h.result.status.Completed?
    case Unreserving(key) => KeyOf(h.provider, h.result) == Some(key) && h.result.status.Completed?
    case Reopening => h.result.status.Completed?
    case _ => true
  }

  predicate Payable(provider: Provider, result: WebhookResult) {
    CreditPlan(result).Some? && KeyOf(provider, result).Some?
  }

  function PaidDeposit(provider: Provider, result: WebhookResult): Deposit
    requires Payable(provider, result)
  {
    var credit := CreditPlan(result).value;
    Deposit(credit.userId, credit.amount, result.externalId, KeyOf(provider, result))
  }

  /** A handler of a COMPLETED answer about the reference or the payment of `result` has that very answer. */
  predicate Complies(h: Handler, provider: Provider, result: WebhookResult) {
    h.result.status.Completed? && (h.result.externalId == result.externalId || KeyOf(h.provider, h.result) == KeyOf(provider, result))
    ==> h.provider == provider && h.result == result
  }

  ghost predicate HandlersFit(s: System, provider: Provider, result: WebhookResult) {
    forall i | i in s.handlers ::
      && Coherent(s.handlers[i])
      && Complies(s.handlers[i], provider, result)
  }

  ghost predicate DepositsFit(db: Db, provider: Provider, result: WebhookResult)
    requires Payable(provider, result)
  {
    forall i | 0 <= i < |db.deposits| &&
               (db.deposits[i].reference == result.externalId || db.deposits[i].payment == KeyOf(provider, result)) ::
      db.deposits[i] == PaidDeposit(provider, result)
  }

  ghost predicate SomeoneHolds(s: System, key: PaymentKey) {
    exists i :: i in s.handlers && Holds(s.handlers[i], key)
  }

  ghost predicate SomeoneEngaged(s: System, reference: string) {
    exists i :: i in s.handlers && Engaged(s.handlers[i], reference)
  }

  predicate SettledIn(db: Db, reference: string) {
    reference in db.t.cycles && db.t.cycles[reference].status.Settled?
  }

  ghost predicate Tracked(s: System, provider: Provider, result: WebhookResult)
    requires Payable(provider, result)
  {
    var key := KeyOf(provider, result).value;
    && KeySafe(s, key)
    && HandlersFit(s, provider, result)
    && DepositsFit(s.db, provider, result)
    && (key in s.db.reservations && DepositsUnder(s.db, key) == 0 ==> SomeoneHolds(s, key))
    && (SettledIn(s.db, result.externalId) && DepositsUnder(s.db, key) == 0 ==> SomeoneEngaged(s, result.externalId))
  }

  lemma CallFits(db: Db, h: Handler, env: Env, provider: Provider, result: WebhookResult)
    requires Payable(provider, result) && DepositsFit(db, provider, result) && Coherent(h)
    requires Complies(h, provider, result)
    ensures DepositsFit(Call(db, h, env).0, provider, result)
    ensures Coherent(Call(db, h, env).1)
  {
  }

  /** A call that leaves the cycle settled found it so, or belongs to a handler that goes on to pay. */
  lemma CallSettles(db: Db, h: Handler, env: Env, reference: string)
    requires SettledIn(Call(db, h, env).0, reference)
    requires h.result.status.Completed? && h.result.externalId == reference ==> CreditPlan(h.result).Some? && KeyOf(h.provider, h.result).Some?
    ensures SettledIn(db, reference) || Engaged(Call(db, h, env).1, reference)
  {
  }

  /** An engagement ends unpaid, the cycle still settled, only where another handler reserved first. */
  lemma CallEndsEngagement(db: Db, h: Handler, env: Env, provider: Provider, result: WebhookResult)
    requires Payable(provider, result) && Coherent(h) && h.provider == provider && h.result == result
    requires Engaged(h, result.externalId) && !Engaged(Call(db, h, env).1, result.externalId)
    requires SettledIn(Call(db, h, env).0, result.externalId)
    requires DepositsUnder(Call(db, h, env).0, KeyOf(provider, result).value) == 0
    ensures KeyOf(provider, result).value in db.reservations && DepositsUnder(db, KeyOf(provider, result).value) == 0
    ensures h.pc.Reserving?
  {
    CallOnKey(db, h, env, KeyOf(provider, result).value);
  }

  lemma CarriedOver(s: System, s': System, key: PaymentKey, reference: string)
    requires forall i | i in s.handlers :: i in s'.handlers && s'.handlers[i] == s.handlers[i]
    ensures SomeoneHolds(s, key) ==> SomeoneHolds(s', key)
    ensures SomeoneEngaged(s, reference) ==> SomeoneEngaged(s', reference)
  {
  }

  lemma AdvanceKeepsReserved(s: System, id: nat, env: Env, provider: Provider, result: WebhookResult)
    requires Payable(provider, result) && Tracked(s, provider, result) && id in s.handlers && !env.faults.deleteFails
    ensures var s' := Next(s, Advance(id, env));
            var key := KeyOf(provider, result).value;
            key in s'.db.reservations && DepositsUnder(s'.db, key) == 0 ==> SomeoneHolds(s', key)
  {
    var key := KeyOf(provider, result).value;
    var s' := Next(s, Advance(id, env));
    CallOnKey(s.db, s.handlers[id], env, key);
    if key in s'.db.reservations && DepositsUnder(s'.db, key) == 0 {
      if key in s.db.reservations {
        var i :| i in s.handlers && Holds(s.handlers[i], key);
        assert i in s'.handlers && Holds(s'.handlers[i], key);
      } else {
        assert Holds(s'.handlers[id], key);
      }
    }
  }

  /** When the one engaged handler lets go unpaid, the one that reserved first is still engaged. */
  lemma AnotherIsEngaged(s: System, id: nat, env: Env, provider: Provider, result: WebhookResult)
    requires Payable(provider, result) && Tracked(s, provider, result) && id in s.handlers && !env.faults.deleteFails
    requires Engaged(s.handlers[id], result.externalId) && !Engaged(Call(s.db, s.handlers[id], env).1, result.externalId)
    requires SettledIn(Call(s.db, s.handlers[id], env).0, result.externalId)
    requires DepositsUnder(Call(s.db, s.handlers[id], env).0, KeyOf(provider, result).value) == 0
    ensures exists j :: j in s.handlers && j != id && Engaged(s.handlers[j], result.externalId)
  {
    var key := KeyOf(provider, result).value;
    CallEndsEngagement(s.db, s.handlers[id], env, provider, result);
    var j :| j in s.handlers && Holds(s.handlers[j], key);
    assert j != id && Engaged(s.handlers[j], result.externalId);
  }

  lemma AdvanceKeepsEngaged(s: System, id: nat, env: Env, provider: Provider, result: WebhookResult)
    requires Payable(provider, result) && Tracked(s, provider, result) && id in s.handlers && !env.faults.deleteFails
    requires SettledIn(Next(s, Advance(id, env)).db, result.externalId)
    requires DepositsUnder(Next(s, Advance(id, env)).db, KeyOf(provider, result).value) == 0
    ensures SomeoneEngaged(Next(s, Advance(id, env)), result.externalId)
  {
    var reference := result.externalId;
    var (db', h') := Call(s.db, s.handlers[id], env);
    var s' := Next(s, Advance(id, env));
    assert s' == System(db', s.handlers[id := h']);
    CallSettles(s.db, s.handlers[id], env, reference);
    if Engaged(h', reference) {
      assert Engaged(s'.handlers[id], reference);
    } else {
      CallOnKey(s.db, s.handlers[id], env, KeyOf(provider, result).value);
      var i :| i in s.handlers && Engaged(s.handlers[i], reference);
      if i == id {
        AnotherIsEngaged(s, id, env, provider, result);
        var j :| j in s.handlers && j != id && Engaged(s.handlers[j], reference);
        assert Engaged(s'.handlers[j], reference);
      } else {
        assert Engaged(s'.handlers[i], reference);
      }
    }
  }

  lemma AdvanceKeepsFit(s: System, id: nat, env: Env, provider: Provider, result: WebhookResult)
    requires Payable(provider, result) && id in s.handlers
    requires HandlersFit(s, provider, result) && DepositsFit(s.db, provider, result)
    ensures HandlersFit(Next(s, Advance(id, env)), provider, result)
    ensures DepositsFit(Next(s, Advance(id, env)).db, provider, result)
  {
    var (db, h) := Call(s.db, s.handlers[id], env);
    CallFits(s.db, s.handlers[id], env, provider, result);
    assert h.provider == s.handlers[id].provider && h.result == s.handlers[id].result;
    assert Next(s, Advance(id, env)) == System(db, s.handlers[id := h]);
  }

  lemma AdvanceKeepsTracked(s: System, id: nat, env: Env, provider: Provider, result: WebhookResult)
    requires Payable(provider, result) && Tracked(s, provider, result) && id in s.handlers && !env.faults.deleteFails
    ensures Tracked(Next(s, Advance(id, env)), provider, result)
  {
    var key := KeyOf(provider, result).value;
    var s' := Next(s, Advance(id, env));
    NextKeepsKeySafe(s, Advance(id, env), key);
    AdvanceKeepsFit(s, id, env, provider, result);
    AdvanceKeepsReserved(s, id, env, provider, result);
    if SettledIn(s'.db, result.externalId) && DepositsUnder(s'.db, key) == 0 {
      AdvanceKeepsEngaged(s, id, env, provider, result);
    }
  }

  lemma SpawnKeepsTracked(s: System, step: Step, provider: Provider, result: WebhookResult)
    requires Payable(provider, result) && Tracked(s, provider, result) && Disciplined(step, provider, result)
    requires step.Spawn?
    ensures Tracked(Next(s, step), provider, result)
  {
    NextKeepsKeySafe(s, step, KeyOf(provider, result).value);
    CarriedOver(s, Next(s, step), KeyOf(provider, result).value, result.externalId);
  }

  lemma BackgroundKeepsTracked(s: System, step: PaymentRuns.Step, provider: Provider, result: WebhookResult)
    requires Payable(provider, result) && Tracked(s, provider, result) && !step.Apply?
    ensures Tracked(Next(s, Background(step)), provider, result)
  {
    var key := KeyOf(provider, result).value;
    var s' := Next(s, Background(step));
    NextKeepsKeySafe(s, Background(step), key);
    BackgroundOnKey(s.db, step, key);
    CarriedOver(s, s', key, result.externalId);
    assert s'.db.deposits == s.db.deposits;
    assert SettledIn(s'.db, result.externalId) ==> SettledIn(s.db, result.externalId);
  }

  lemma NextKeepsTracked(s: System, step: Step, provider: Provider, result: WebhookResult)
    requires Payable(provider, result) && Tracked(s, provider, result) && Disciplined(step, provider, result)
    ensures Tracked(Next(s, step), provider, result)
  {
    match step
    case Advance(id, env) =>
      if id in s.handlers {
        AdvanceKeepsTracked(s, id, env, provider, result);
      }
    case Spawn(_, _, _) => SpawnKeepsTracked(s, step, provider, result);
    case Background(inner) =>
      if !inner.Apply? {
        BackgroundKeepsTracked(s, inner, provider, result);
      }
  }

  lemma {:induction false} RunIsTracked(steps: seq<Step>, provider: Provider, result: WebhookResult)
    requires Payable(provider, result)
    requires forall i | 0 <= i < |steps| :: Disciplined(steps[i], provider, result)
    ensures Tracked(Run(START, steps), provider, result)
  {
    if steps != [] {
      RunIsTracked(steps[..|steps| - 1], provider, result);
      NextKeepsTracked(Run(START, steps[..|steps| - 1]), steps[|steps| - 1], provider, result);
    }
  }

  ghost predicate AtRest(s: System) {
    forall i | i in s.handlers :: s.handlers[i].pc.Finished?
  }

  /**
   Whenever no handler is in flight, a cycle that says SETTLED has been paid, once, what its payment
   carries, and nothing else was ever deposited under its reference.
   */
  lemma SettledAtRestIsPaid(steps: seq<Step>, provider: Provider, result: WebhookResult)
    requires Payable(provider, result)
    requires forall i | 0 <= i < |steps| :: Disciplined(steps[i], provider, result)
    requires var s := Run(START, steps);
             AtRest(s) && SettledIn(s.db, result.externalId)
    ensures var db := Run(START, steps).db;
            && PaymentRuns.DepositsTo(db, result.externalId) == 1
            && PaidDeposit(provider, result) in db.deposits
            && DepositsFit(db, provider, result)
  {
    RunIsTracked(steps, provider, result);
    var db, key := Run(START, steps).db, KeyOf(provider, result).value;
    SameCounts(db, provider, result);
    CountPositive(db.deposits, (d: Deposit) => d.payment == Some(key));
  }

  /** What is deposited under the payment is what is deposited under its reference. */
  lemma SameCounts(db: Db, provider: Provider, result: WebhookResult)
    requires Payable(provider, result) && DepositsFit(db, provider, result)
    ensures PaymentRuns.DepositsTo(db, result.externalId) == DepositsUnder(db, KeyOf(provider, result).value)
  {
    var key := KeyOf(provider, result).value;
    CountSame(db.deposits, (d: Deposit) => d.payment == Some(key), (d: Deposit) => d.reference == result.externalId);
  }

  /**
   And nothing is stuck: at rest, one more delivery of the answer that meets no failure leaves the
   reference credited exactly when it was already or its cycle is still open and matching; it is then
   that a reopened cycle gets paid.
   */
  lemma RetryAtRestPays(steps: seq<Step>, provider: Provider, result: WebhookResult, now: Time)
    requires Payable(provider, result)
    requires forall i | 0 <= i < |steps| :: Disciplined(steps[i], provider, result)
    requires AtRest(Run(START, steps))
    ensures var db, reference := Run(START, steps).db, result.externalId;
            var (after, _) := Alone(db, Handler(provider, result, Reading), Env(now, Faults(false, false, false)), 6);
            && (PaymentRuns.DepositsTo(after, reference) == 1 <==>
                PaymentRuns.DepositsTo(db, reference) == 1 || Decide(Row(db.t, reference), result).Processed?)
            && (SettledIn(db, reference) ==> PaymentRuns.DepositsTo(after, reference) == 1)
            && PaymentRuns.DepositsTo(after, reference) <= 1
  {
    var none := Faults(false, false, false);
    var db := Run(START, steps).db;
    RunIsTracked(steps, provider, result);
    SameCounts(db, provider, result);
    AloneIsSequential(db, provider, result, Env(now, none));
    PaymentRuns.DepositsAfterAnswer(db, provider, result, now, none);
  }
}
