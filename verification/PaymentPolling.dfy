/**
 The guaranteed path: every minute the cycles whose next check is due are looked up at their
 provider, expired after 72 hours, or scheduled again with a growing delay.

 What a provider answers to a lookup, and which outside calls then fail, are parameters.
 */
module PaymentPolling {
  import opened Wrappers
  import opened PaymentCycle
  import opened Payments
  import PaymentRuns

  const BATCH: nat := 50

  datatype Lookup = Found(result: WebhookResult) | NotYet | Throws

  /** A cycle as it was read when the batch was selected. */
  datatype PendingCycle = PendingCycle(reference: string, row: Cycle)

  // ---------- One visit ----------

  function Reconciled(db: Db, p: PendingCycle, now: Time, lookup: Lookup, f: Faults): Db {
    if IsExpired(p.row, now) then db.(t := ExpiredIn(db.t, p.reference))
    else
      match lookup
      case Throws => db
      case NotYet => db.(t := Rescheduled(db.t, p.reference, p.row.checkCount, now))
      case Found(result) => Applied(db, p.row.provider, result, now, f).0
  }

  function ReconciledAll(db: Db, batch: seq<PendingCycle>, now: Time, lookups: string -> Lookup, faults: string -> Faults): Db {
    if batch == [] then db
    else
      var p := batch[|batch| - 1];
      Reconciled(ReconciledAll(db, batch[..|batch| - 1], now, lookups, faults), p, now,
                 lookups(p.reference), faults(p.reference))
  }

  // ---------- The batch ----------

  predicate DueIn(cycles: map<string, Cycle>, now: Time, reference: string) {
    reference in cycles && IsDue(cycles[reference], now)
  }

  predicate NoLater(cycles: map<string, Cycle>, now: Time, r: string, q: string)
    requires DueIn(cycles, now, r) && DueIn(cycles, now, q)
  {
    cycles[r].nextCheckAt.value <= cycles[q].nextCheckAt.value
  }

  predicate AreDue(cycles: map<string, Cycle>, now: Time, batch: seq<PendingCycle>) {
    forall i | 0 <= i < |batch| :: DueIn(cycles, now, batch[i].reference) && batch[i].row == cycles[batch[i].reference]
  }

  /** Distinct cycles, the oldest check first. */
  predicate OldestFirst(cycles: map<string, Cycle>, now: Time, batch: seq<PendingCycle>)
    requires AreDue(cycles, now, batch)
  {
    forall i, j | 0 <= i < j < |batch| ::
      batch[i].reference != batch[j].reference && NoLater(cycles, now, batch[i].reference, batch[j].reference)
  }

  predicate Omitted(batch: seq<PendingCycle>, reference: string) {
    forall i | 0 <= i < |batch| :: batch[i].reference != reference
  }

  /** The due cycles with the oldest check first, cut at `limit`. */
  ghost predicate IsBatch(cycles: map<string, Cycle>, now: Time, limit: nat, batch: seq<PendingCycle>) {
    && |batch| <= limit
    && AreDue(cycles, now, batch)
    && OldestFirst(cycles, now, batch)
    && (forall r | DueIn(cycles, now, r) && Omitted(batch, r) ::
          |batch| == limit && forall i | 0 <= i < |batch| :: NoLater(cycles, now, batch[i].reference, r))
  }

  /** A batch so far, and the due cycles left, none of which is due before any taken. */
  ghost predicate Taken(cycles: map<string, Cycle>, now: Time, batch: seq<PendingCycle>, left: set<string>) {
    && AreDue(cycles, now, batch)
    && OldestFirst(cycles, now, batch)
    && (forall r :: r in left <==> DueIn(cycles, now, r) && Omitted(batch, r))
    && (forall i, r | 0 <= i < |batch| && r in left :: NoLater(cycles, now, batch[i].reference, r))
  }

  lemma TakeEarliest(cycles: map<string, Cycle>, now: Time, batch: seq<PendingCycle>, left: set<string>, r: string)
    requires Taken(cycles, now, batch, left) && r in left
    requires forall q | q in left :: NoLater(cycles, now, r, q)
    ensures Taken(cycles, now, batch + [PendingCycle(r, cycles[r])], left - {r})
  {
    var taken := batch + [PendingCycle(r, cycles[r])];
    assert Omitted(batch, r);
    forall q ensures Omitted(taken, q) <==> Omitted(batch, q) && q != r {
      assert taken[|batch|].reference == r;
      assert forall i | 0 <= i < |batch| :: taken[i] == batch[i];
    }
  }

  lemma EarliestExists(cycles: map<string, Cycle>, now: Time, left: set<string>)
    requires left != {} && forall r | r in left :: DueIn(cycles, now, r)
    ensures exists r :: r in left && forall q | q in left :: NoLater(cycles, now, r, q)
  {
    var r :| r in left;
    if left != {r} {
      EarliestExists(cycles, now, left - {r});
      var m :| m in left - {r} && forall q | q in left - {r} :: NoLater(cycles, now, m, q);
      var best := if NoLater(cycles, now, r, m) then r else m;
      forall q | q in left
        ensures NoLater(cycles, now, best, q)
      {
        assert q == r || q in left - {r};
      }
    }
  }

  class PaymentReconciliationService {
    const cycles: PaymentCycleService
    const payments: PaymentsService

    constructor (cycles: PaymentCycleService, payments: PaymentsService)
      requires payments.paymentCycle == cycles
      ensures this.cycles == cycles && this.payments == payments
    {
      this.cycles, this.payments := cycles, payments;
    }

    method DueForCheck(now: Time, limit: nat) returns (batch: seq<PendingCycle>)
      ensures IsBatch(cycles.cycles, now, limit, batch)
    {
      var rows := cycles.cycles;
      var left := set r | r in rows && IsDue(rows[r], now);
      batch := [];
      while left != {} && |batch| < limit
        invariant |batch| <= limit
        invariant Taken(rows, now, batch, left)
        decreases left
      {
        EarliestExists(rows, now, left);
        var r :| r in left && forall q | q in left :: NoLater(rows, now, r, q);
        TakeEarliest(rows, now, batch, left, r);
        batch := batch + [PendingCycle(r, rows[r])];
        left := left - {r};
      }
    }

    method ReconcileOne(p: PendingCycle, now: Time, lookup: Lookup, f: Faults)
      requires payments.paymentCycle == cycles
      modifies cycles, payments
      ensures payments.View() == Reconciled(old(payments.View()), p, now, lookup, f)
    {
      if IsExpired(p.row, now) {
        cycles.Expire(p.reference);
        return;
      }
      match lookup
      case Throws =>
      case NotYet =>
        cycles.ScheduleNextCheck(p.reference, p.row.checkCount, now);
      case Found(result) =>
        var _ := payments.ApplyProviderResult(p.row.provider, result, now, f);
    }

    method ReconcilePending(now: Time, lookups: string -> Lookup, faults: string -> Faults) returns (batch: seq<PendingCycle>)
      requires payments.paymentCycle == cycles
      modifies cycles, payments
      ensures IsBatch(old(cycles.cycles), now, BATCH, batch)
      ensures payments.View() == ReconciledAll(old(payments.View()), batch, now, lookups, faults)
    {
      batch := DueForCheck(now, BATCH);
      assert IsBatch(old(cycles.cycles), now, BATCH, batch);
      for i := 0 to |batch|
        invariant payments.View() == ReconciledAll(old(payments.View()), batch[..i], now, lookups, faults)
      {
        ReconcileOne(batch[i], now, lookups(batch[i].reference), faults(batch[i].reference));
        assert batch[..i + 1][..i] == batch[..i];
      }
      assert batch[..|batch|] == batch;
    }
  }

  // ---------- Polling is one of the runs already covered ----------

  /** What polling does to one cycle, as a run of at most one step. */
  function StepOf(p: PendingCycle, now: Time, lookup: Lookup, f: Faults): (steps: seq<PaymentRuns.Step>)
    ensures |steps| <= 1
  {
    if IsExpired(p.row, now) then [PaymentRuns.Expire(p.reference)]
    else
      match lookup
      case Throws => []
      case NotYet => [PaymentRuns.Reschedule(p.reference, p.row.checkCount, now)]
      case Found(result) => [PaymentRuns.Apply(p.row.provider, result, now, f)]
  }

  function StepsOf(batch: seq<PendingCycle>, now: Time, lookups: string -> Lookup, faults: string -> Faults): seq<PaymentRuns.Step> {
    if batch == [] then []
    else
      var p := batch[|batch| - 1];
      StepsOf(batch[..|batch| - 1], now, lookups, faults) + StepOf(p, now, lookups(p.reference), faults(p.reference))
  }

  lemma VisitIsAStep(db: Db, p: PendingCycle, now: Time, lookup: Lookup, f: Faults)
    ensures var steps := StepOf(p, now, lookup, f);
            Reconciled(db, p, now, lookup, f) == if steps == [] then db else PaymentRuns.Next(db, steps[0])
  {
  }

  /** A polling pass, stale rows included, is a sequence of the steps `PaymentRuns` quantifies over. */
  lemma {:induction false} PollingIsARun(db: Db, batch: seq<PendingCycle>, now: Time, lookups: string -> Lookup,
                                         faults: string -> Faults)
    ensures ReconciledAll(db, batch, now, lookups, faults) == PaymentRuns.Run(db, StepsOf(batch, now, lookups, faults))
    ensures |StepsOf(batch, now, lookups, faults)| <= |batch|
  {
    if batch != [] {
      var p := batch[|batch| - 1];
      var first := StepsOf(batch[..|batch| - 1], now, lookups, faults);
      var last := StepOf(p, now, lookups(p.reference), faults(p.reference));
      PollingIsARun(db, batch[..|batch| - 1], now, lookups, faults);
      VisitIsAStep(PaymentRuns.Run(db, first), p, now, lookups(p.reference), faults(p.reference));
      if last == [] {
        assert first + last == first;
      } else {
        assert last == [last[0]];
        PaymentRuns.RunAppend(db, first, last[0]);
      }
    }
  }

  // ---------- How long an unanswered cycle is polled ----------

  /** A visit that finds nothing: the provider has no payment yet, or the lookup throws. */
  datatype Visit = Visit(at: Time, throws: bool)

  function Visited(cycle: Cycle, visit: Visit): Cycle {
    if IsExpired(cycle, visit.at) then cycle.(status := Status.Expired, nextCheckAt := None)
    else if visit.throws then cycle
    else cycle.(checkCount := cycle.checkCount + 1, nextCheckAt := Some(visit.at + CheckDelay(cycle.checkCount)))
  }

  /** A visit is what polling does to the row of a due cycle. */
  lemma VisitIsPolling(db: Db, reference: string, visit: Visit, f: Faults)
    requires reference in db.t.cycles
    ensures var cycle := db.t.cycles[reference];
            var lookup := if visit.throws then Throws else NotYet;
            Reconciled(db, PendingCycle(reference, cycle), visit.at, lookup, f).t.cycles ==
            db.t.cycles[reference := Visited(cycle, visit)]
  {
    assert db.t.cycles == db.t.cycles[reference := db.t.cycles[reference]];
  }

  function VisitedAll(cycle: Cycle, visits: seq<Visit>): Cycle {
    if visits == [] then cycle else Visited(VisitedAll(cycle, visits[..|visits| - 1]), visits[|visits| - 1])
  }

  /** Each visit comes when the row is due, as late as it likes. */
  predicate AllDue(cycle: Cycle, visits: seq<Visit>) {
    visits == [] ||
    (AllDue(cycle, visits[..|visits| - 1]) && IsDue(VisitedAll(cycle, visits[..|visits| - 1]), visits[|visits| - 1].at))
  }

  function NonThrowing(visits: seq<Visit>): nat {
    if visits == [] then 0
    else NonThrowing(visits[..|visits| - 1]) + if visits[|visits| - 1].throws then 0 else 1
  }

  /** The earliest a cycle can be due after `lookups` lookups, counted from its request. */
  function Earliest(lookups: nat): Time {
    if lookups == 0 then FIRST_CHECK_MS else Earliest(lookups - 1) + CheckDelay(lookups - 1)
  }

  const MAX_LOOKUPS: nat := 11

  lemma EarliestValues()
    ensures Earliest(10) <= EXPIRATION_MS < Earliest(11)
  {
    assert Earliest(4) == 4_920_000;
    assert Earliest(8) == 156_120_000;
    assert Earliest(10) == 242_520_000;
  }

  lemma EarliestGrows(i: nat, j: nat)
    requires i <= j
    ensures Earliest(i) <= Earliest(j)
  {
    if i < j {
      EarliestGrows(i, j - 1);
    }
  }

  /** The delay between checks never shrinks. */
  lemma DelaysGrow(i: nat, j: nat)
    requires i <= j
    ensures CheckDelay(i) <= CheckDelay(j)
  {
    assert CHECK_BACKOFF_MS == [60_000, 300_000, 900_000, 3_600_000, 21_600_000];
  }

  /** A cycle that polling may still visit has been looked up fewer than twelve times. */
  ghost predicate OnSchedule(cycle: Cycle, requestedAt: Time, visits: seq<Visit>) {
    && cycle.requestedAt == requestedAt
    && if cycle.status.Expired? then
         cycle.nextCheckAt.None? && cycle.checkCount <= MAX_LOOKUPS && NonThrowing(visits) <= cycle.checkCount + 1
       else
         && cycle.status.Requested?
         && cycle.checkCount == NonThrowing(visits) <= MAX_LOOKUPS
         && cycle.nextCheckAt.Some?
         && requestedAt + Earliest(cycle.checkCount) <= cycle.nextCheckAt.value
  }

  lemma {:induction false} StaysOnSchedule(cycle: Cycle, visits: seq<Visit>)
    requires OnSchedule(cycle, cycle.requestedAt, [])
    requires AllDue(cycle, visits)
    ensures OnSchedule(VisitedAll(cycle, visits), cycle.requestedAt, visits)
  {
    if visits != [] {
      var before := VisitedAll(cycle, visits[..|visits| - 1]);
      StaysOnSchedule(cycle, visits[..|visits| - 1]);
      EarliestValues();
      assert before.status.Requested?;
      assert visits[|visits| - 1].at >= cycle.requestedAt + Earliest(before.checkCount);
      if before.checkCount == MAX_LOOKUPS {
        assert IsExpired(before, visits[|visits| - 1].at);
      }
    }
  }

  /**
   A cycle nobody answers is looked up at most eleven times, however late the visits come; a twelfth
   visit that does not throw finds it expired, and after that it is never due again.
   */
  lemma PollingEnds(provider: Provider, userId: string, amount: real, currency: string, at: Time, visits: seq<Visit>)
    requires AllDue(NewCycle(provider, userId, amount, currency, at), visits)
    ensures var cycle := VisitedAll(NewCycle(provider, userId, amount, currency, at), visits);
            && cycle.checkCount <= MAX_LOOKUPS
            && NonThrowing(visits) <= MAX_LOOKUPS + 1
            && (cycle.status.Requested? || cycle.status.Expired?)
            && (NonThrowing(visits) == MAX_LOOKUPS + 1 ==> cycle.status.Expired?)
            && (cycle.status.Expired? ==> forall now :: !IsDue(cycle, now))
  {
    StaysOnSchedule(NewCycle(provider, userId, amount, currency, at), visits);
  }

  /** Any due visit after the eleventh lookup expires the cycle, whether or not a lookup would throw. */
  lemma TwelfthVisitExpires(provider: Provider, userId: string, amount: real, currency: string, at: Time,
                            visits: seq<Visit>, last: Visit)
    requires var cycle := NewCycle(provider, userId, amount, currency, at);
             && AllDue(cycle, visits) && NonThrowing(visits) == MAX_LOOKUPS
             && IsDue(VisitedAll(cycle, visits), last.at)
    ensures Visited(VisitedAll(NewCycle(provider, userId, amount, currency, at), visits), last).status.Expired?
  {
    StaysOnSchedule(NewCycle(provider, userId, amount, currency, at), visits);
    EarliestValues();
  }

  lemma BeforeExpiry(lookups: nat)
    requires lookups < MAX_LOOKUPS
    ensures Earliest(lookups) <= EXPIRATION_MS
  {
    EarliestValues();
    EarliestGrows(lookups, 10);
  }

  function PromptVisits(at: Time, n: nat): seq<Visit> {
    if n == 0 then [] else PromptVisits(at, n - 1) + [Visit(at + Earliest(n - 1), false)]
  }

  function AfterLookups(cycle: Cycle, n: nat): Cycle {
    cycle.(checkCount := n, nextCheckAt := Some(cycle.requestedAt + Earliest(n)))
  }

  lemma PromptVisit(cycle: Cycle, n: nat)
    requires n < MAX_LOOKUPS && cycle.status.Requested?
    ensures var visit := Visit(cycle.requestedAt + Earliest(n), false);
            && IsDue(AfterLookups(cycle, n), visit.at)
            && Visited(AfterLookups(cycle, n), visit) == AfterLookups(cycle, n + 1)
  {
    BeforeExpiry(n);
    assert Earliest(n + 1) == Earliest(n) + CheckDelay(n);
  }

  lemma VisitAppend(cycle: Cycle, visits: seq<Visit>, visit: Visit)
    ensures VisitedAll(cycle, visits + [visit]) == Visited(VisitedAll(cycle, visits), visit)
    ensures AllDue(cycle, visits + [visit]) <==> AllDue(cycle, visits) && IsDue(VisitedAll(cycle, visits), visit.at)
    ensures NonThrowing(visits + [visit]) == NonThrowing(visits) + if visit.throws then 0 else 1
  {
    assert (visits + [visit])[..|visits|] == visits;
  }

  /** The visits were all due, `n` of them looked up, and the cycle is where `n` prompt lookups leave it. */
  predicate Prompt(cycle: Cycle, visits: seq<Visit>, n: nat) {
    AllDue(cycle, visits) && NonThrowing(visits) == n && VisitedAll(cycle, visits) == AfterLookups(cycle, n)
  }

  lemma OneMorePrompt(cycle: Cycle, visits: seq<Visit>, n: nat)
    requires n < MAX_LOOKUPS && cycle.status.Requested? && Prompt(cycle, visits, n)
    ensures Prompt(cycle, visits + [Visit(cycle.requestedAt + Earliest(n), false)], n + 1)
  {
    PromptVisit(cycle, n);
    VisitAppend(cycle, visits, Visit(cycle.requestedAt + Earliest(n), false));
  }

  lemma NoVisitYet(cycle: Cycle)
    requires cycle == AfterLookups(cycle, 0)
    ensures Prompt(cycle, PromptVisits(cycle.requestedAt, 0), 0)
  {
  }

  lemma {:induction false} PromptVisitsHappen(cycle: Cycle, n: nat)
    requires n <= MAX_LOOKUPS && cycle.status.Requested? && cycle == AfterLookups(cycle, 0)
    ensures Prompt(cycle, PromptVisits(cycle.requestedAt, n), n)
  {
    if n == 0 {
      NoVisitYet(cycle);
    } else {
      PromptVisitsHappen(cycle, n - 1);
      OneMorePrompt(cycle, PromptVisits(cycle.requestedAt, n - 1), n - 1);
      assert PromptVisits(cycle.requestedAt, n) ==
             PromptVisits(cycle.requestedAt, n - 1) + [Visit(cycle.requestedAt + Earliest(n - 1), false)];
    }
  }

  /** Eleven is reached: with prompt visits the cycle is still open after its eleventh lookup. */
  lemma ElevenLookupsHappen(provider: Provider, userId: string, amount: real, currency: string, at: Time, n: nat)
    requires n <= MAX_LOOKUPS
    ensures var cycle := NewCycle(provider, userId, amount, currency, at);
            var visits := PromptVisits(at, n);
            && AllDue(cycle, visits) && NonThrowing(visits) == n
            && VisitedAll(cycle, visits) == AfterLookups(cycle, n)
            && AfterLookups(cycle, n).status.Requested?
  {
    PromptVisitsHappen(NewCycle(provider, userId, amount, currency, at), n);
  }
}
