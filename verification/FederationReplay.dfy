/**
 Single use of federation assertions: their verification (server/internal/auth/jwt.go and
 server/internal/federation/verifier.go) and the replay keys that FederationJoin and
 FederationRefresh set (server/cmd/auth/federation_service.go).

 Times are milliseconds.  A replay key lives strictly before its expiry.
 */
module FederationReplay {
  import opened Common

  const SECOND := 1000
  const LIFETIME := 60 * SECOND
  const LEEWAY := 15 * SECOND
  const REPLAY_TTL := 120 * SECOND

  datatype Assertion = Assertion(
    kid: string, signed: bool, purpose: string, subject: string, issuer: string, audience: string,
    jti: string, exp: Option<int>)

  /** This instance and the single origin it trusts. */
  datatype Host = Host(instanceUrl: string, originUrl: string)

  /** The `iat` second of an assertion made at `now`. */
  function IssuedAt(now: int): int {
    now / SECOND * SECOND
  }

  /** GenerateFederationAssertion. */
  function Mint(user: string, issuer: string, audience: string, kid: string, jti: string, now: int): Assertion {
    Assertion(kid, true, "federation", user, issuer, audience, jti, Some((now + LIFETIME) / SECOND * SECOND))
  }

  /** VerifyAssertion: trusted issuer, resolvable key, signature, expiry with leeway, purpose, subject, audience. */
  predicate Verifies(h: Host, a: Assertion, now: int, keyFound: bool) {
    && a.kid != "" && a.issuer != "" && a.issuer == h.originUrl && keyFound
    && a.signed
    && (a.exp.Some? ==> now < a.exp.value + LEEWAY)
    && a.purpose == "federation" && a.subject != "" && a.audience == h.instanceUrl
  }

  /** A minted assertion verifies at the host it was made for, from the trusted origin, until 75 s after its `iat`. */
  lemma MintedVerifiesIff(h: Host, user: string, issuer: string, audience: string, kid: string, jti: string,
      minted: int, now: int)
    ensures Verifies(h, Mint(user, issuer, audience, kid, jti, minted), now, true) <==>
      && user != "" && kid != "" && issuer != "" && issuer == h.originUrl && audience == h.instanceUrl
      && now < IssuedAt(minted) + 75 * SECOND
  {
    assert Mint(user, issuer, audience, kid, jti, minted).exp == Some(IssuedAt(minted) + LIFETIME);
  }

  datatype Outcome = Accepted | Invalid | AlreadyConsumed

  /** A call that presents an assertion, with what the handler checks before it. */
  datatype Call =
    | Join(a: Assertion, invite: string, keyFound: bool, redisUp: bool)
    | Refresh(a: Assertion, tokenValid: bool, isRefresh: bool, keyFound: bool, redisUp: bool)

  /** Replay keys `fed_jti:` with their expiry. */
  type Keys = map<string, int>

  predicate Live(keys: Keys, jti: string, now: int) {
    jti in keys && now < keys[jti]
  }

  predicate Admitted(h: Host, c: Call, now: int) {
    && (match c
        case Join(_, invite, _, _) => invite != ""
        case Refresh(_, tokenValid, isRefresh, _, _) => tokenValid && isRefresh)
    && Verifies(h, c.a, now, c.keyFound)
  }

  /** What the assertion check of either endpoint answers. */
  function Answer(h: Host, keys: Keys, c: Call, now: int): Outcome {
    if !Admitted(h, c, now) || c.a.jti == "" || !c.redisUp then Invalid
    else if Live(keys, c.a.jti, now) then AlreadyConsumed
    else Accepted
  }

  function Next(h: Host, keys: Keys, c: Call, now: int): Keys {
    if Answer(h, keys, c, now).Accepted? then keys[c.a.jti := now + REPLAY_TTL] else keys
  }

  class Federation {
    const host: Host
    var keys: Keys

    constructor (h: Host)
      ensures host == h && keys == map[]
    {
      host, keys := h, map[];
    }

    /** SET NX with the replay lifetime. */
    method ConsumeJti(jti: string, now: int) returns (first: bool)
      modifies this
      ensures first <==> !Live(old(keys), jti, now)
      ensures keys == if first then old(keys)[jti := now + REPLAY_TTL] else old(keys)
    {
      first := !Live(keys, jti, now);
      if first {
        keys := keys[jti := now + REPLAY_TTL];
      }
    }

    /** The checks FederationJoin and FederationRefresh share, in their order. */
    method Present(c: Call, now: int) returns (r: Outcome)
      modifies this
      ensures r == Answer(host, old(keys), c, now)
      ensures keys == Next(host, old(keys), c, now)
    {
      match c {
        case Join(_, invite, _, _) =>
          if invite == "" {
            return Invalid;
          }
        case Refresh(_, tokenValid, isRefresh, _, _) =>
          if !tokenValid || !isRefresh {
            return Invalid;
          }
      }
      if !Verifies(host, c.a, now, c.keyFound) || c.a.jti == "" || !c.redisUp {
        return Invalid;
      }
      var first := ConsumeJti(c.a.jti, now);
      return if first then Accepted else AlreadyConsumed;
    }
  }

  // ----- runs

  datatype Event = Event(now: int, call: Call)

  ghost function Run(h: Host, keys: Keys, events: seq<Event>): Keys {
    if events == [] then keys
    else
      var e := events[|events| - 1];
      Next(h, Run(h, keys, events[..|events| - 1]), e.call, e.now)
  }

  ghost predicate InOrder(events: seq<Event>) {
    forall i, j :: 0 <= i < j < |events| ==> events[i].now <= events[j].now
  }

  /** Whether call `i` of the run passed the assertion check. */
  ghost predicate AcceptedAt(h: Host, keys: Keys, events: seq<Event>, i: nat)
    requires i < |events|
  {
    Answer(h, Run(h, keys, events[..i]), events[i].call, events[i].now).Accepted?
  }

  lemma {:induction false} KeyPersists(h: Host, keys: Keys, events: seq<Event>, i: nat, n: nat)
    requires InOrder(events) && i < n <= |events| && AcceptedAt(h, keys, events, i)
    ensures
      var after := Run(h, keys, events[..n]);
      events[i].call.a.jti in after && after[events[i].call.a.jti] >= events[i].now + REPLAY_TTL
  {
    var p := events[..n];
    assert p[..n - 1] == events[..n - 1] && p[n - 1] == events[n - 1];
    if n > i + 1 {
      KeyPersists(h, keys, events, i, n - 1);
    }
  }

  /** In any run from any state, two acceptances of one jti lie at least the key's lifetime apart. */
  lemma AcceptancesAreApart(h: Host, keys: Keys, events: seq<Event>, i: nat, j: nat)
    requires InOrder(events) && i < j < |events|
    requires AcceptedAt(h, keys, events, i) && AcceptedAt(h, keys, events, j)
    requires events[i].call.a.jti == events[j].call.a.jti
    ensures events[j].now >= events[i].now + REPLAY_TTL
  {
    KeyPersists(h, keys, events, i, j);
  }

  /** The assertion is first accepted at `first`, and some continuation accepts it again. */
  ghost predicate Replayable(h: Host, a: Assertion, first: int) {
    exists events: seq<Event>, j: nat ::
      && 0 < j < |events| && InOrder(events)
      && events[0].now == first && events[0].call.a == a == events[j].call.a
      && AcceptedAt(h, map[], events, 0) && AcceptedAt(h, map[], events, j)
  }

  /** The replay: one lifetime of the key later, while the assertion still verifies. */
  lemma EarlyUseReplays(h: Host, a: Assertion, first: int)
    requires Verifies(h, a, first, true) && a.jti != ""
    requires a.exp.None? || first < a.exp.value + LEEWAY - REPLAY_TTL
    ensures Replayable(h, a, first)
  {
    var e := Event(first, Join(a, "invite", true, true));
    var e' := Event(first + REPLAY_TTL, Refresh(a, true, true, true, true));
    var events := [e, e'];
    assert events[..0] == [];
    assert events[..1] == [e] && [e][..0] == [];
    assert AcceptedAt(h, map[], events, 0);
    assert Run(h, map[], [e]) == map[a.jti := first + REPLAY_TTL];
    assert AcceptedAt(h, map[], events, 1);
  }

  /** Exactly when the replay protection fails: an assertion used long before it was issued, or without an expiry. */
  lemma ReplayableIff(h: Host, a: Assertion, first: int)
    ensures Replayable(h, a, first) <==>
      && Verifies(h, a, first, true) && a.jti != ""
      && (a.exp.None? || first < a.exp.value + LEEWAY - REPLAY_TTL)
  {
    if Replayable(h, a, first) {
      var events: seq<Event>, j: nat :|
        && 0 < j < |events| && InOrder(events)
        && events[0].now == first && events[0].call.a == a == events[j].call.a
        && AcceptedAt(h, map[], events, 0) && AcceptedAt(h, map[], events, j);
      AcceptancesAreApart(h, map[], events, 0, j);
    }
    if Verifies(h, a, first, true) && a.jti != "" && (a.exp.None? || first < a.exp.value + LEEWAY - REPLAY_TTL) {
      EarlyUseReplays(h, a, first);
    }
  }

  /**
   No minted assertion is accepted twice, by either endpoint, in any run whose first use of it comes
   no earlier than 45 s before its `iat`.
   */
  lemma MintedIsAcceptedOnce(h: Host, keys: Keys, events: seq<Event>, i: nat, j: nat, user: string, issuer: string,
      audience: string, kid: string, jti: string, minted: int)
    requires InOrder(events) && i < |events| && j < |events|
    requires events[i].call.a == events[j].call.a == Mint(user, issuer, audience, kid, jti, minted)
    requires AcceptedAt(h, keys, events, i) && AcceptedAt(h, keys, events, j)
    requires events[i].now >= IssuedAt(minted) - 45 * SECOND && events[j].now >= IssuedAt(minted) - 45 * SECOND
    ensures i == j
  {
    assert events[i].call.a.exp == Some(IssuedAt(minted) + LIFETIME);
    if i < j {
      AcceptancesAreApart(h, keys, events, i, j);
    } else if j < i {
      AcceptancesAreApart(h, keys, events, j, i);
    }
  }

  // ----- what the endpoints decide

  /** The assertion is good for this host at this time, said field by field. */
  predicate GoodFor(h: Host, a: Assertion, now: int, keyFound: bool) {
    && a.signed && keyFound && a.kid != "" && a.subject != "" && a.purpose == "federation"
    && a.issuer != "" && a.issuer == h.originUrl && a.audience == h.instanceUrl
    && (a.exp.Some? ==> now - a.exp.value < 15 * SECOND)
  }

  /** A join needs an invite, a refresh a valid refresh token; then assertion, id and key decide. */
  lemma AnswerIs(h: Host, keys: Keys, c: Call, now: int)
    ensures
      var asked := if c.Join? then c.invite != "" else c.tokenValid && c.isRefresh;
      var good := asked && GoodFor(h, c.a, now, c.keyFound) && c.a.jti != "" && c.redisUp;
      var used := c.a.jti in keys && now < keys[c.a.jti];
      && (Answer(h, keys, c, now) == Accepted <==> good && !used)
      && (Answer(h, keys, c, now) == AlreadyConsumed <==> good && used)
      && Next(h, keys, c, now) == if good && !used then keys[c.a.jti := now + 120 * SECOND] else keys
  {
  }

  /** A minted assertion is accepted where it is meant for, once: presented again in its life it is refused. */
  lemma HonestAssertion(h: Host, user: string, kid: string, jti: string, invite: string, minted: int, first: int,
      again: int)
    requires user != "" && kid != "" && jti != "" && invite != "" && h.originUrl != ""
    requires minted <= first <= minted + 74 * SECOND && first <= again < first + 120 * SECOND
    ensures
      var a := Mint(user, h.originUrl, h.instanceUrl, kid, jti, minted);
      var c := Join(a, invite, true, true);
      && Answer(h, map[], c, first) == Accepted
      && Answer(h, Next(h, map[], c, first), c, again) != Accepted
  {
  }
}
