/**
 Sessions kept alive by refresh tokens that rotate on use. The token just rotated out is accepted for
 a grace window, as a race of the same browser; presented later it is a reuse, and revokes the session.

 Each refresh is one step, and each new token is a parameter.
 */
module Sessions {
  import opened Wrappers

  type Token = string
  type User = string
  type Time = int

  datatype UserState = PendingVerification | Active | Suspended | Banned

  datatype Session = Session(
    userId: User,
    current: Token,
    previous: Option<Token>,
    rotatedAt: Option<Time>,
    expiresAt: Time,
    revokedAt: Option<Time>)

  datatype AuthError = TokenInvalid | TokenExpired | UserNotAllowed

  // ---------- One session ----------

  predicate Knows(s: Session, token: Token) {
    s.current == token || s.previous == Some(token)
  }

  predicate IsPrevious(s: Session, token: Token) {
    s.previous == Some(token)
  }

  predicate WithinGrace(s: Session, now: Time, graceMs: nat) {
    s.rotatedAt.Some? && now - s.rotatedAt.value <= graceMs
  }

  predicate Usable(s: Session, users: map<User, UserState>, now: Time) {
    s.userId in users && users[s.userId].Active? && s.revokedAt.None? && now <= s.expiresAt
  }

  function Rotated(s: Session, minted: Token, now: Time): Session {
    s.(previous := Some(s.current), current := minted, rotatedAt := Some(now))
  }

  // ---------- The table ----------

  /** The session whose current or previous token this is. */
  function Find(sessions: seq<Session>, token: Token): (found: Option<nat>)
    ensures found.Some? ==> found.value < |sessions| && Knows(sessions[found.value], token)
    ensures found.None? ==> forall i | 0 <= i < |sessions| :: !Knows(sessions[i], token)
  {
    if sessions == [] then None
    else
      var before := Find(sessions[..|sessions| - 1], token);
      if before.Some? then before
      else if Knows(sessions[|sessions| - 1], token) then Some(|sessions| - 1)
      else None
  }

  function Refreshed(sessions: seq<Session>, users: map<User, UserState>, token: Token, now: Time, minted: Token, graceMs: nat)
    : (seq<Session>, Result<Token, AuthError>)
  {
    var found := Find(sessions, token);
    if found.None? then (sessions, Failure(TokenInvalid))
    else
      var s := sessions[found.value];
      if s.userId !in users || s.revokedAt.Some? then (sessions, Failure(TokenInvalid))
      else if s.expiresAt < now then (sessions, Failure(TokenExpired))
      else if !users[s.userId].Active? then (sessions, Failure(UserNotAllowed))
      else if IsPrevious(s, token) then
        if WithinGrace(s, now, graceMs) then (sessions, Success(s.current))
        else (sessions[found.value := s.(revokedAt := Some(now))], Failure(TokenInvalid))
      else (sessions[found.value := Rotated(s, minted, now)], Success(minted))
  }

  /** With a token, the user's session that has it as current; without one, all the user's live ones. */
  predicate LogsOut(s: Session, userId: User, token: Option<Token>) {
    s.userId == userId && if token.Some? then s.current == token.value else s.revokedAt.None?
  }

  function LoggedOut(sessions: seq<Session>, userId: User, token: Option<Token>, now: Time): (after: seq<Session>)
    ensures |after| == |sessions|
    ensures forall i | 0 <= i < |sessions| ::
              after[i] == if LogsOut(sessions[i], userId, token) then sessions[i].(revokedAt := Some(now)) else sessions[i]
  {
    seq(|sessions|, i requires 0 <= i < |sessions| =>
      if LogsOut(sessions[i], userId, token) then sessions[i].(revokedAt := Some(now)) else sessions[i])
  }

  class AuthService {
    var sessions: seq<Session>
    var users: map<User, UserState>
    const graceMs: nat

    constructor (graceSeconds: nat)
      ensures sessions == [] && users == map[] && graceMs == 1000 * graceSeconds
    {
      sessions, users, graceMs := [], map[], 1000 * graceSeconds;
    }

    /** The session part of issuing tokens after a login. */
    method GenerateTokens(userId: User, now: Time, lifetimeMs: nat, minted: Token)
      modifies this`sessions
      ensures sessions == old(sessions) + [Session(userId, minted, None, None, now + lifetimeMs, None)]
    {
      sessions := sessions + [Session(userId, minted, None, None, now + lifetimeMs, None)];
    }

    method RefreshToken(token: Token, now: Time, minted: Token) returns (r: Result<Token, AuthError>)
      modifies this`sessions
      ensures (sessions, r) == Refreshed(old(sessions), users, token, now, minted, graceMs)
    {
      var found := Find(sessions, token);
      if found.None? {
        return Failure(TokenInvalid);
      }
      var session := sessions[found.value];
      if session.userId !in users {
        return Failure(TokenInvalid);
      }
      if session.revokedAt.Some? {
        return Failure(TokenInvalid);
      }
      if session.expiresAt < now {
        return Failure(TokenExpired);
      }
      if users[session.userId] != Active {
        return Failure(UserNotAllowed);
      }

      if session.previous.Some? && session.previous.value == token {
        if session.rotatedAt.Some? && now - session.rotatedAt.value <= graceMs {
          return Success(session.current);
        }
        sessions := sessions[found.value := session.(revokedAt := Some(now))];
        return Failure(TokenInvalid);
      }

      sessions := sessions[found.value := session.(previous := Some(session.current), current := minted,
                                                   rotatedAt := Some(now))];
      return Success(minted);
    }

    method Logout(userId: User, token: Option<Token>, now: Time)
      modifies this`sessions
      ensures sessions == LoggedOut(old(sessions), userId, token, now)
    {
      var i := 0;
      while i < |sessions|
        invariant 0 <= i <= |sessions| == |old(sessions)|
        invariant sessions[..i] == LoggedOut(old(sessions), userId, token, now)[..i]
        invariant sessions[i..] == old(sessions)[i..]
      {
        assert sessions[i] == old(sessions)[i];
        if sessions[i].userId == userId && (if token.Some? then sessions[i].current == token.value else sessions[i].revokedAt.None?) {
          sessions := sessions[i := sessions[i].(revokedAt := Some(now))];
        }
        i := i + 1;
      }
      assert sessions[..i] == sessions && LoggedOut(old(sessions), userId, token, now)[..i] == LoggedOut(old(sessions), userId, token, now);
    }
  }

  // ---------- Runs ----------

  /** The tables, and for every token rotated out the moment of its rotation. */
  datatype Auth = Auth(sessions: seq<Session>, users: map<User, UserState>, retired: map<Token, Time>)

  datatype Step =
    | Login(userId: User, at: Time, lifetimeMs: nat, minted: Token)
    | Refresh(token: Token, now: Time, minted: Token)
    | Logout(user: User, which: Option<Token>, when: Time)
    | SetUser(account: User, state: UserState)

  const START := Auth([], map[], map[])

  predicate Rotates(a: Auth, token: Token, now: Time, minted: Token, graceMs: nat) {
    var (_, r) := Refreshed(a.sessions, a.users, token, now, minted, graceMs);
    r.Success? && !IsPrevious(a.sessions[Find(a.sessions, token).value], token)
  }

  function Next(a: Auth, step: Step, graceMs: nat): Auth {
    match step
    case Login(userId, at, lifetimeMs, minted) =>
      a.(sessions := a.sessions + [Session(userId, minted, None, None, at + lifetimeMs, None)])
    case Refresh(token, now, minted) =>
      a.(sessions := Refreshed(a.sessions, a.users, token, now, minted, graceMs).0,
         retired := if Rotates(a, token, now, minted, graceMs) then a.retired[token := now] else a.retired)
    case Logout(user, which, when) => a.(sessions := LoggedOut(a.sessions, user, which, when))
    case SetUser(account, state) => a.(users := a.users[account := state])
  }

  function Run(a: Auth, steps: seq<Step>, graceMs: nat): Auth {
    if steps == [] then a else Next(Run(a, steps[..|steps| - 1], graceMs), steps[|steps| - 1], graceMs)
  }

  /** A token nobody has ever held. */
  ghost predicate Unused(a: Auth, token: Token) {
    token !in a.retired && forall i | 0 <= i < |a.sessions| :: a.sessions[i].current != token
  }

  ghost predicate FreshStep(a: Auth, step: Step) {
    (step.Login? || step.Refresh?) ==> Unused(a, step.minted)
  }

  /** Every token handed out along the run is new. */
  ghost predicate FreshRun(a: Auth, steps: seq<Step>, graceMs: nat) {
    steps == [] ||
    (FreshRun(a, steps[..|steps| - 1], graceMs) && FreshStep(Run(a, steps[..|steps| - 1], graceMs), steps[|steps| - 1]))
  }

  ghost predicate Tidy(a: Auth) {
    && (forall i | 0 <= i < |a.sessions| ::
          var s := a.sessions[i];
          && s.current !in a.retired
          && (s.previous.None? ==> s.rotatedAt.None?)
          && (s.previous.Some? ==> s.previous.value in a.retired && s.rotatedAt == Some(a.retired[s.previous.value])))
    && (forall i, j | 0 <= i < j < |a.sessions| ::
          && a.sessions[i].current != a.sessions[j].current
          && (a.sessions[i].previous.None? || a.sessions[i].previous != a.sessions[j].previous))
  }

  lemma NextKeepsTidy(a: Auth, step: Step, graceMs: nat)
    requires Tidy(a) && FreshStep(a, step)
    ensures Tidy(Next(a, step, graceMs))
  {
  }

  /** No token belongs to two sessions, so the search for one is never ambiguous. */
  lemma OwnerIsUnique(a: Auth, token: Token, i: nat)
    requires Tidy(a) && i < |a.sessions| && Knows(a.sessions[i], token)
    ensures Find(a.sessions, token) == Some(i)
  {
  }

  lemma {:induction false} RunIsTidy(steps: seq<Step>, graceMs: nat)
    requires FreshRun(START, steps, graceMs)
    ensures Tidy(Run(START, steps, graceMs))
  {
    if steps != [] {
      RunIsTidy(steps[..|steps| - 1], graceMs);
      NextKeepsTidy(Run(START, steps[..|steps| - 1], graceMs), steps[|steps| - 1], graceMs);
    }
  }

  /** A token is good at a session: its current one, or its previous one in the grace of its retirement. */
  ghost predicate Good(a: Auth, i: nat, token: Token, now: Time, graceMs: nat) {
    && i < |a.sessions| && Usable(a.sessions[i], a.users, now)
    && (a.sessions[i].current == token ||
        (IsPrevious(a.sessions[i], token) && token in a.retired && now <= a.retired[token] + graceMs))
  }

  lemma AcceptedAt(a: Auth, i: nat, token: Token, now: Time, minted: Token, graceMs: nat)
    requires Tidy(a) && i < |a.sessions| && Knows(a.sessions[i], token)
    ensures var (after, r) := Refreshed(a.sessions, a.users, token, now, minted, graceMs);
            && (r.Success? <==> Good(a, i, token, now, graceMs))
            && (r.Success? ==> i < |after| && after[i].current == r.value)
            && (r.Success? && token in a.retired ==> after == a.sessions)
            && (r.Success? && token !in a.retired ==> r.value == minted)
  {
    OwnerIsUnique(a, token, i);
  }

  /**
   After any run with fresh tokens, a token is accepted exactly when it is the current token of a
   usable session, or the previous one no later than the grace window after the rotation that retired
   it. What is handed back is the session's current token, and replays move nothing.
   */
  lemma AcceptedTokens(steps: seq<Step>, token: Token, now: Time, minted: Token, graceMs: nat)
    requires FreshRun(START, steps, graceMs)
    ensures var a := Run(START, steps, graceMs);
            var (after, r) := Refreshed(a.sessions, a.users, token, now, minted, graceMs);
            && (r.Success? <==> exists i :: Good(a, i, token, now, graceMs))
            && (r.Success? ==> exists i :: 0 <= i < |after| && after[i].current == r.value && Knows(a.sessions[i], token))
            && (r.Success? && token in a.retired ==> after == a.sessions)
            && (r.Success? && token !in a.retired ==> r.value == minted)
  {
    var a := Run(START, steps, graceMs);
    RunIsTidy(steps, graceMs);
    forall i | 0 <= i < |a.sessions| && Knows(a.sessions[i], token)
      ensures Find(a.sessions, token) == Some(i)
    {
      OwnerIsUnique(a, token, i);
    }
    if Find(a.sessions, token).Some? {
      AcceptedAt(a, Find(a.sessions, token).value, token, now, minted, graceMs);
    }
  }

  /** A token rotated out is worth nothing from the end of its grace window on, however often it was replayed. */
  lemma RetiredTokensDie(steps: seq<Step>, token: Token, now: Time, minted: Token, graceMs: nat)
    requires FreshRun(START, steps, graceMs)
    requires var a := Run(START, steps, graceMs);
             token in a.retired && now > a.retired[token] + graceMs
    ensures var a := Run(START, steps, graceMs);
            Refreshed(a.sessions, a.users, token, now, minted, graceMs).1.Failure?
  {
    AcceptedTokens(steps, token, now, minted, graceMs);
    RunIsTidy(steps, graceMs);
  }

  // ---------- What a session never gets back ----------

  predicate Follows(s: Session, s': Session) {
    && s'.userId == s.userId && s'.expiresAt == s.expiresAt
    && (s.revokedAt.Some? ==> s'.revokedAt.Some? && s'.current == s.current && s'.previous == s.previous)
  }

  ghost predicate FollowsAll(a: Auth, a': Auth) {
    && |a.sessions| <= |a'.sessions|
    && (forall i | 0 <= i < |a.sessions| :: Follows(a.sessions[i], a'.sessions[i]))
    && (forall t | t in a.retired :: t in a'.retired)
  }

  lemma {:induction false} RunFollows(a: Auth, steps: seq<Step>, graceMs: nat)
    ensures FollowsAll(a, Run(a, steps, graceMs))
  {
    if steps != [] {
      RunFollows(a, steps[..|steps| - 1], graceMs);
    }
  }

  lemma {:induction false} RunKeepsTidy(a: Auth, steps: seq<Step>, graceMs: nat)
    requires Tidy(a) && FreshRun(a, steps, graceMs)
    ensures Tidy(Run(a, steps, graceMs))
  {
    if steps != [] {
      RunKeepsTidy(a, steps[..|steps| - 1], graceMs);
      NextKeepsTidy(Run(a, steps[..|steps| - 1], graceMs), steps[|steps| - 1], graceMs);
    }
  }

  /** Once a session is revoked, by reuse or by logout, neither of its tokens is ever accepted again. */
  lemma RevokedForever(a: Auth, steps: seq<Step>, i: nat, token: Token, now: Time, minted: Token, graceMs: nat)
    requires Tidy(a) && FreshRun(a, steps, graceMs)
    requires i < |a.sessions| && a.sessions[i].revokedAt.Some? && Knows(a.sessions[i], token)
    ensures var b := Run(a, steps, graceMs);
            Refreshed(b.sessions, b.users, token, now, minted, graceMs) == (b.sessions, Failure(TokenInvalid))
  {
    RunFollows(a, steps, graceMs);
    RunKeepsTidy(a, steps, graceMs);
    OwnerIsUnique(Run(a, steps, graceMs), token, i);
  }

  /** The previous token after its grace revokes a usable session, so both copies are locked out for good. */
  lemma ReuseLocksOut(a: Auth, i: nat, token: Token, now: Time, minted: Token, steps: seq<Step>, other: Token,
                      later: Time, minted': Token, graceMs: nat)
    requires Tidy(a) && Unused(a, minted)
    requires i < |a.sessions| && IsPrevious(a.sessions[i], token) && Usable(a.sessions[i], a.users, now)
    requires !WithinGrace(a.sessions[i], now, graceMs)
    requires FreshRun(Next(a, Refresh(token, now, minted), graceMs), steps, graceMs)
    requires Knows(a.sessions[i], other)
    ensures var b := Run(Next(a, Refresh(token, now, minted), graceMs), steps, graceMs);
            Refreshed(b.sessions, b.users, other, later, minted', graceMs).1 == Failure(TokenInvalid)
  {
    OwnerIsUnique(a, token, i);
    var revoked := Next(a, Refresh(token, now, minted), graceMs);
    NextKeepsTidy(a, Refresh(token, now, minted), graceMs);
    RevokedForever(revoked, steps, i, other, later, minted', graceMs);
  }

  /** No chain of refreshes outlives the moment the login set. */
  lemma ExpiryIsFixed(a: Auth, steps: seq<Step>, i: nat, token: Token, now: Time, minted: Token, graceMs: nat)
    requires Tidy(a) && FreshRun(a, steps, graceMs)
    requires i < |a.sessions|
    requires var b := Run(a, steps, graceMs);
             && Refreshed(b.sessions, b.users, token, now, minted, graceMs).1.Success?
             && Find(b.sessions, token) == Some(i)
    ensures now <= a.sessions[i].expiresAt
  {
    RunFollows(a, steps, graceMs);
  }

  /** Logging out with a token ends a session exactly when the token is that session's current one. */
  lemma LogoutEnds(a: Auth, i: nat, token: Token, now: Time)
    requires Tidy(a) && i < |a.sessions| && a.sessions[i].revokedAt.None? && Knows(a.sessions[i], token)
    ensures LoggedOut(a.sessions, a.sessions[i].userId, Some(token), now)[i].revokedAt.Some? <==> token !in a.retired
    ensures LoggedOut(a.sessions, a.sessions[i].userId, None, now)[i].revokedAt.Some?
  {
  }

  lemma RunAppend(steps: seq<Step>, step: Step, graceMs: nat)
    ensures Run(START, steps + [step], graceMs) == Next(Run(START, steps, graceMs), step, graceMs)
  {
    assert (steps + [step])[..|steps|] == steps;
  }

  const LOGGED_IN: seq<Step> := [] + [SetUser("u", Active)] + [Login("u", 0, 100, "t0")]
  const ROTATED := LOGGED_IN + [Refresh("t0", 1, "t1")]

  lemma AfterLogin(graceMs: nat)
    ensures Run(START, LOGGED_IN, graceMs) ==
            Auth([Session("u", "t0", None, None, 100, None)], map["u" := Active], map[])
  {
    RunAppend([], SetUser("u", Active), graceMs);
    RunAppend([] + [SetUser("u", Active)], Login("u", 0, 100, "t0"), graceMs);
  }

  lemma AfterRotation(graceMs: nat)
    ensures Run(START, ROTATED, graceMs) ==
            Auth([Session("u", "t1", Some("t0"), Some(1), 100, None)], map["u" := Active], map["t0" := 1])
  {
    AfterLogin(graceMs);
    RunAppend(LOGGED_IN, Refresh("t0", 1, "t1"), graceMs);
    assert Find([Session("u", "t0", None, None, 100, None)], "t0") == Some(0);
  }

  /** A run: logging out with the token rotated out leaves the session live, and its current token good. */
  lemma LogoutWithRetiredToken(graceMs: nat)
    ensures var a := Run(START, ROTATED + [Logout("u", Some("t0"), 2)], graceMs);
            && |a.sessions| == 1 && a.sessions[0].revokedAt.None?
            && Refreshed(a.sessions, a.users, "t1", 3, "t2", graceMs).1 == Success("t2")
  {
    AfterRotation(graceMs);
    RunAppend(ROTATED, Logout("u", Some("t0"), 2), graceMs);
    var sessions := [Session("u", "t1", Some("t0"), Some(1), 100, None)];
    assert LoggedOut(sessions, "u", Some("t0"), 2) == sessions;
    assert Find(sessions, "t1") == Some(0);
  }

  // ---------- What each step does to the rows ----------

  /** A login adds one session, on its own token, good for its lifetime; no other row changes. */
  lemma WhatALoginAdds(a: Auth, userId: User, at: Time, lifetimeMs: nat, minted: Token, graceMs: nat)
    ensures var after := Next(a, Login(userId, at, lifetimeMs, minted), graceMs);
            && |after.sessions| == |a.sessions| + 1 && after.sessions[..|a.sessions|] == a.sessions
            && after.users == a.users && after.retired == a.retired
            && var s := after.sessions[|a.sessions|];
               && s.userId == userId && s.current == minted && s.previous.None? && s.rotatedAt.None? && s.revokedAt.None?
               && s.expiresAt == at + lifetimeMs
  {
  }

  /** A refresh with the current token rotates that session; with the previous one it may revoke it; no other row changes. */
  lemma WhatARefreshWrites(a: Auth, i: nat, token: Token, now: Time, minted: Token, graceMs: nat)
    requires Tidy(a) && i < |a.sessions| && Knows(a.sessions[i], token)
    ensures var s, after := a.sessions[i], Refreshed(a.sessions, a.users, token, now, minted, graceMs).0;
            var usable := s.userId in a.users && a.users[s.userId].Active? && s.revokedAt.None? && now <= s.expiresAt;
            after == a.sessions[i :=
              if !usable then s
              else if s.previous != Some(token) then
                Session(s.userId, minted, Some(s.current), Some(now), s.expiresAt, None)
              else if s.rotatedAt.Some? && now <= s.rotatedAt.value + graceMs then s
              else Session(s.userId, s.current, s.previous, s.rotatedAt, s.expiresAt, Some(now))]
  {
    OwnerIsUnique(a, token, i);
    assert a.sessions[i := a.sessions[i]] == a.sessions;
  }

  /** Why a known token is refused: an expiry is said only of a session neither revoked nor without its user. */
  lemma WhyARefreshFails(a: Auth, i: nat, token: Token, now: Time, minted: Token, graceMs: nat)
    requires Tidy(a) && i < |a.sessions| && Knows(a.sessions[i], token)
    ensures var s, r := a.sessions[i], Refreshed(a.sessions, a.users, token, now, minted, graceMs).1;
            && (r == Failure(TokenExpired) <==> s.userId in a.users && s.revokedAt.None? && s.expiresAt < now)
            && (r == Failure(UserNotAllowed) <==>
                  s.userId in a.users && s.revokedAt.None? && now <= s.expiresAt && !a.users[s.userId].Active?)
  {
    OwnerIsUnique(a, token, i);
  }

  /** A logout revokes the user's session of that current token, or, without one, the user's live ones; no others. */
  lemma WhatALogoutRevokes(a: Auth, user: User, which: Option<Token>, when: Time, graceMs: nat, i: nat)
    requires i < |a.sessions|
    ensures var s, after := a.sessions[i], Next(a, Logout(user, which, when), graceMs).sessions;
            && |after| == |a.sessions|
            && after[i] == if s.userId == user && (if which.Some? then s.current == which.value else s.revokedAt.None?)
                           then Session(s.userId, s.current, s.previous, s.rotatedAt, s.expiresAt, Some(when))
                           else s
  {
  }
}
