/**
 A lock shared through one store: set-if-absent with a time to live, and a release that deletes the
 key only while it still holds the caller's own value.
 */
module Locks {
  import opened Wrappers

  type Key = string
  type Token = string
  type Time = int

  datatype Entry = Entry(token: Token, expiresAt: Time)

  type Store = map<Key, Entry>

  // ---------- The store ----------

  /** What the store shows at a moment; an entry past its time is not there. */
  function Live(store: Store, key: Key, now: Time): Option<Entry> {
    if key in store && now < store[key].expiresAt then Some(store[key]) else None
  }

  function Acquired(store: Store, key: Key, token: Token, ttl: nat, now: Time): Store {
    if Live(store, key, now).Some? then store else store[key := Entry(token, now + ttl)]
  }

  function ReleasedBy(store: Store, key: Key, token: Token, now: Time): Store {
    var live := Live(store, key, now);
    if live.Some? && live.value.token == token then store - {key} else store
  }

  class DistributedLockService {
    var store: Store

    constructor ()
      ensures store == map[]
    {
      store := map[];
    }

    method AcquireLock(key: Key, ttlMs: nat, minted: Token, now: Time) returns (value: Option<Token>)
      modifies this
      ensures store == Acquired(old(store), key, minted, ttlMs, now)
      ensures value == if Live(old(store), key, now).Some? then None else Some(minted)
    {
      if key in store && now < store[key].expiresAt {
        return None;
      }
      store := store[key := Entry(minted, now + ttlMs)];
      value := Some(minted);
    }

    method ReleaseLock(key: Key, value: Token, now: Time) returns (released: bool)
      modifies this
      ensures store == ReleasedBy(old(store), key, value, now)
      ensures released <==> Live(old(store), key, now).Some? && old(store)[key].token == value
    {
      released := key in store && now < store[key].expiresAt && store[key].token == value;
      if released {
        store := store - {key};
      }
    }
  }

  // ---------- Several instances ----------

  /** An instance inside its critical section, with what acquiring gave it. */
  datatype Inside = Inside(key: Key, token: Token, until: Time)

  datatype System = System(store: Store, inside: map<nat, Inside>, used: set<Token>)

  /**
   An instance tries the lock, and goes in if it gets it; it comes out by releasing in its `finally`,
   or stops for good without releasing.
   */
  datatype Step =
    | Enter(id: nat, key: Key, ttl: nat, minted: Token, at: Time)
    | Leave(id: nat, when: Time)
    | Crash(id: nat)

  const START := System(map[], map[], {})

  function Next(s: System, step: Step): System {
    match step
    case Enter(id, key, ttl, minted, at) =>
      if id in s.inside || Live(s.store, key, at).Some? then s
      else System(Acquired(s.store, key, minted, ttl, at), s.inside[id := Inside(key, minted, at + ttl)], s.used + {minted})
    case Leave(id, when) =>
      if id !in s.inside then s
      else System(ReleasedBy(s.store, s.inside[id].key, s.inside[id].token, when), s.inside - {id}, s.used)
    case Crash(id) => s.(inside := s.inside - {id})
  }

  function Run(steps: seq<Step>): System {
    if steps == [] then START else Next(Run(steps[..|steps| - 1]), steps[|steps| - 1])
  }

  function TimeOf(step: Step, before: Time): Time {
    match step
    case Enter(_, _, _, _, at) => at
    case Leave(_, when) => when
    case Crash(_) => before
  }

  /** The clock at the end of a run that started at `begin`. */
  function Clock(steps: seq<Step>, begin: Time): Time {
    if steps == [] then begin
    else TimeOf(steps[|steps| - 1], Clock(steps[..|steps| - 1], begin))
  }

  /** The clock never goes back and no token is minted twice. */
  ghost predicate Timely(steps: seq<Step>, begin: Time) {
    steps == [] ||
    var before := steps[..|steps| - 1];
    var step := steps[|steps| - 1];
    && Timely(before, begin)
    && Clock(before, begin) <= TimeOf(step, Clock(before, begin))
    && (step.Enter? ==> step.minted !in Run(before).used)
  }

  /** Whoever is inside and still within its time is the one the store names. */
  ghost predicate Guarded(s: System, now: Time) {
    && (forall i | i in s.inside && now < s.inside[i].until ::
          s.inside[i].key in s.store && s.store[s.inside[i].key] == Entry(s.inside[i].token, s.inside[i].until))
    && (forall i | i in s.inside :: s.inside[i].token in s.used)
    && (forall k | k in s.store :: s.store[k].token in s.used)
    && (forall i, j | i in s.inside && j in s.inside && i != j :: s.inside[i].token != s.inside[j].token)
  }

  lemma NextKeepsGuarded(s: System, step: Step, before: Time)
    requires Guarded(s, before) && before <= TimeOf(step, before)
    requires step.Enter? ==> step.minted !in s.used
    ensures Guarded(Next(s, step), TimeOf(step, before))
  {
  }

  lemma {:induction false} RunIsGuarded(steps: seq<Step>, begin: Time)
    requires Timely(steps, begin)
    ensures Guarded(Run(steps), Clock(steps, begin))
  {
    if steps != [] {
      RunIsGuarded(steps[..|steps| - 1], begin);
      NextKeepsGuarded(Run(steps[..|steps| - 1]), steps[|steps| - 1], Clock(steps[..|steps| - 1], begin));
    }
  }

  /**
   Two instances are inside one lock at the same time only if one of them has stayed past its time to
   live. When every critical section ends in time there is never more than one.
   */
  lemma MutualExclusion(steps: seq<Step>, begin: Time, now: Time, i: nat, j: nat)
    requires Timely(steps, begin) && Clock(steps, begin) <= now
    requires var s := Run(steps);
             && i in s.inside && j in s.inside && i != j
             && s.inside[i].key == s.inside[j].key
    ensures now >= Run(steps).inside[i].until || now >= Run(steps).inside[j].until
  {
    RunIsGuarded(steps, begin);
  }

  /**
   Whoever comes out, however late, takes nothing from another instance that is inside within its time:
   the store still names that one, under its own token.
   */
  lemma StaleReleaseIsHarmless(steps: seq<Step>, begin: Time, id: nat, other: nat, when: Time)
    requires Timely(steps, begin) && Clock(steps, begin) <= when
    requires id in Run(steps).inside && other in Run(steps).inside && id != other
    requires when < Run(steps).inside[other].until
    ensures var s, after := Run(steps), Next(Run(steps), Leave(id, when));
            && other in after.inside && after.inside[other] == s.inside[other]
            && Live(after.store, s.inside[other].key, when) == Some(Entry(s.inside[other].token, s.inside[other].until))
  {
    RunIsGuarded(steps, begin);
  }

  /** A release in time frees the lock at once: anyone can take it next. */
  lemma TimelyReleaseFrees(steps: seq<Step>, begin: Time, id: nat, now: Time)
    requires Timely(steps, begin) && Clock(steps, begin) <= now
    requires id in Run(steps).inside && now < Run(steps).inside[id].until
    ensures Live(Next(Run(steps), Leave(id, now)).store, Run(steps).inside[id].key, now).None?
    ensures id !in Next(Run(steps), Leave(id, now)).inside
  {
    RunIsGuarded(steps, begin);
  }

  /** The bound is needed: an instance that overstays shares the section with the next one. */
  lemma OverstayingIsShared()
    ensures var steps := [Enter(1, "lock:auction-close", 60_000, "a", 0), Enter(2, "lock:auction-close", 60_000, "b", 60_000)];
            && Timely(steps, 0)
            && 1 in Run(steps).inside && 2 in Run(steps).inside
            && Run(steps).inside[1].key == Run(steps).inside[2].key
  {
    var first := Enter(1, "lock:auction-close", 60_000, "a", 0);
    var steps := [first, Enter(2, "lock:auction-close", 60_000, "b", 60_000)];
    var none: seq<Step> := [];
    assert steps[..1] == [first] && [first][..0] == none;
    assert Run(none) == START && Clock(none, 0) == 0 && Timely(none, 0);
    assert Run([first]) == Next(START, first);
    assert Clock([first], 0) == 0;
    assert Run(steps) == Next(Run(steps[..1]), steps[1]);
  }

  // ---------- What each step does to the store ----------

  /** An instance goes in exactly when it is out and no entry of the key lives; the entry is then its own. */
  lemma WhenAnInstanceGoesIn(s: System, id: nat, key: Key, ttl: nat, minted: Token, at: Time)
    ensures var after := Next(s, Enter(id, key, ttl, minted, at));
            var free := key !in s.store || s.store[key].expiresAt <= at;
            after == if id !in s.inside && free then
                       System(s.store[key := Entry(minted, at + ttl)], s.inside[id := Inside(key, minted, at + ttl)], s.used + {minted})
                     else s
  {
  }

  /** An instance that comes out removes its key's entry exactly when that lives and is its own. */
  lemma WhenAnInstanceComesOut(s: System, id: nat, when: Time)
    requires id in s.inside
    ensures var after, mine := Next(s, Leave(id, when)), s.inside[id];
            var own := mine.key in s.store && s.store[mine.key].token == mine.token && when < s.store[mine.key].expiresAt;
            && after.inside == s.inside - {id} && after.used == s.used
            && after.store == if own then s.store - {mine.key} else s.store
  {
  }
}
