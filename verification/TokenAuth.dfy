/**
 Access-token checking: the verification cache and its two-phase sweep (server/internal/auth/jwt.go),
 the interceptors (connect_interceptor.go), the gateway's first-message check (gateway.go) and the
 device blocklist (token_blocklist.go).

 Times are milliseconds.  Signatures are abstract: `signed` says that the token verifies under the
 service's key.  A token's SHA-256 is injective, so the cache is keyed by the token itself.
 */
module TokenAuth {
  import opened Common

  const SECOND := 1000
  const ACCESS_EXPIRY := 3600 * SECOND
  const CACHE_MAX := 50000

  datatype Claims = Claims(user: string, device: string, isRefresh: bool, isFederated: bool, issuer: string,
      exp: Option<int>)

  /** A parsed token: its claims, and what else decides whether it validates. */
  datatype Token = Token(signed: bool, purpose: string, notBefore: Option<int>, claims: Claims, jti: string)

  /** Validation apart from expiry: signature, not-before, purpose and subject. */
  predicate Genuine(t: Token, now: int) {
    && t.signed
    && (t.notBefore.Some? ==> t.notBefore.value <= now)
    && t.purpose == ""
    && t.claims.user != ""
  }

  /** ValidateTokenEd25519: the claims, or None. */
  function Direct(t: Token, now: int): Option<Claims> {
    if Genuine(t, now) && (t.claims.exp.Some? ==> now < t.claims.exp.value) then Some(t.claims) else None
  }

  /** The expiry second of an access token issued at `now`: the clock is truncated to whole seconds. */
  function AccessExp(now: int): int {
    (now + ACCESS_EXPIRY) / SECOND * SECOND
  }

  /** GenerateTokenPairEd25519's access token. */
  function MintAccess(user: string, device: string, issuer: string, isFederated: bool, now: int, jti: string): Token {
    Token(true, "", None, Claims(user, device, false, isFederated, issuer, Some(AccessExp(now))), jti)
  }

  // ----- the cache

  datatype Entry = Entry(claims: Claims, exp: Option<int>)

  type Cache = map<Token, Entry>

  /** time.Now().After(expiresAt); the zero time is always past. */
  predicate Past(e: Entry, now: int) {
    e.exp.None? || now > e.exp.value
  }

  function Get(c: Cache, t: Token, now: int): Option<Claims> {
    if t in c && !Past(c[t], now) then Some(c[t].claims) else None
  }

  /** Put, with `victim` the entry the eviction loop stops at (if it is past). */
  function PutEntry(c: Cache, t: Token, e: Entry, now: int, victim: Token): Cache {
    if |c| < CACHE_MAX then c[t := e]
    else
      var c1 := if victim in c && Past(c[victim], now) then c - {victim} else c;
      if |c1| >= CACHE_MAX then c1 else c1[t := e]
  }

  /** Phase 1 of the sweep: the keys past at `now`. */
  function Collect(c: Cache, now: int): set<Token> {
    set t | t in c && Past(c[t], now)
  }

  /** Phase 2: drops the collected keys that are still past at the time phase 1 started. */
  function DeleteCollected(c: Cache, keys: set<Token>, now: int): Cache {
    map t | t in c && !(t in keys && Past(c[t], now)) :: c[t]
  }

  class VerificationCache {
    var cache: Cache

    constructor ()
      ensures cache == map[]
    {
      cache := map[];
    }

    method Lookup(t: Token, now: int) returns (r: Option<Claims>)
      ensures r == Get(cache, t, now)
    {
      if t !in cache || Past(cache[t], now) {
        return None;
      }
      return Some(cache[t].claims);
    }

    /** Evicts one past entry when full, if there is one; skips the insert when still full. */
    method Put(t: Token, claims: Claims, exp: Option<int>, now: int)
      requires |cache| <= CACHE_MAX
      modifies this
      ensures |cache| <= CACHE_MAX
      ensures exists victim :: cache == PutEntry(old(cache), t, Entry(claims, exp), now, victim)
      ensures forall k :: k in old(cache) && !Past(old(cache)[k], now) && k != t ==>
        k in cache && cache[k] == old(cache)[k]
      ensures (|old(cache)| < CACHE_MAX || exists k :: k in old(cache) && Past(old(cache)[k], now)) ==>
        t in cache && cache[t] == Entry(claims, exp)
    {
      ghost var was := cache;
      ghost var victim := t;
      if |cache| >= CACHE_MAX {
        var rest := cache.Keys;
        while rest != {}
          invariant cache == was && rest <= was.Keys
          invariant forall k :: k in was.Keys - rest ==> !Past(was[k], now)
          decreases rest
        {
          var k :| k in rest;
          if Past(cache[k], now) {
            assert |was - {k}| == |was| - 1 by {
              assert (was - {k}).Keys == was.Keys - {k};
            }
            cache := cache - {k};
            victim := k;
            break;
          }
          rest := rest - {k};
        }
        if |cache| >= CACHE_MAX {
          assert cache == PutEntry(was, t, Entry(claims, exp), now, victim);
          return;
        }
      }
      cache := cache[t := Entry(claims, exp)];
      assert cache == PutEntry(was, t, Entry(claims, exp), now, victim);
    }

    /** validateWithConfig on a service that has a cache: reads it first, and fills it after a direct check. */
    method ValidateThrough(cfg: Config, t: Token, now: int) returns (r: Option<Claims>)
      requires |cache| <= CACHE_MAX
      modifies this
      ensures |cache| <= CACHE_MAX
      ensures r == Validate(cfg, old(cache), t, now)
      ensures exists victim :: cache == ValidateCache(cfg, old(cache), t, now, victim)
    {
      ghost var was := cache;
      if cfg.useCache {
        r := Lookup(t, now);
        if r.Some? {
          assert cache == ValidateCache(cfg, was, t, now, t);
          return;
        }
      }
      r := Direct(t, now);
      if cfg.useCache && r.Some? && r.value.exp.Some? {
        Put(t, r.value, r.value.exp, now);
        ghost var victim :| cache == PutEntry(was, t, Entry(t.claims, t.claims.exp), now, victim);
        assert cache == ValidateCache(cfg, was, t, now, victim);
        return;
      }
      assert cache == ValidateCache(cfg, was, t, now, t);
    }

    /** authenticateFirstMessage at a gateway with cache and blocklist. */
    method AuthenticateFirstMessage(b: TokenBlocklist, t: Token, now: int, redisUp: bool) returns (r: Outcome)
      requires |cache| <= CACHE_MAX
      modifies this
      ensures |cache| <= CACHE_MAX
      ensures r == GatewayAuth(old(cache), b.blocked, t, now, redisUp)
      ensures exists victim :: cache == GatewayCache(old(cache), t, now, victim)
    {
      ghost var was := cache;
      var claims := Lookup(t, now);
      if claims.None? {
        claims := Direct(t, now);
        if claims.None? || claims.value.isRefresh {
          assert cache == GatewayCache(was, t, now, t);
          return Rejected;
        }
        Put(t, claims.value, claims.value.exp, now);
        ghost var victim :| cache == PutEntry(was, t, Entry(t.claims, t.claims.exp), now, victim);
        assert cache == GatewayCache(was, t, now, victim);
      } else {
        assert cache == GatewayCache(was, t, now, t);
      }
      var blocked := b.IsDeviceBlocked(claims.value.device, now, redisUp);
      return if blocked then Rejected else Identified(claims.value);
    }

    method SweepCollect(now: int) returns (expired: seq<Token>)
      ensures SetOf(expired) == Collect(cache, now)
    {
      expired := [];
      var rest := cache.Keys;
      while rest != {}
        invariant rest <= cache.Keys
        invariant SetOf(expired) == set t | t in cache.Keys - rest && Past(cache[t], now)
        decreases rest
      {
        var k :| k in rest;
        if Past(cache[k], now) {
          assert SetOf(expired + [k]) == SetOf(expired) + {k};
          expired := expired + [k];
        }
        rest := rest - {k};
      }
    }

    method SweepDelete(expired: seq<Token>, now: int)
      modifies this
      ensures cache == DeleteCollected(old(cache), SetOf(expired), now)
    {
      ghost var was := cache;
      for i := 0 to |expired|
        invariant cache == DeleteCollected(was, SetOf(expired[..i]), now)
      {
        if expired[i] in cache && Past(cache[expired[i]], now) {
          cache := cache - {expired[i]};
        }
      }
      assert expired[..|expired|] == expired;
    }
  }

  // ----- the blocklist

  /** Device -> the time its `blocked:device:` key expires. */
  type Blocklist = map<string, int>

  function BlockDevice(b: Blocklist, device: string, now: int, ttl: int): Blocklist {
    b[device := now + ttl]
  }

  /** Fails closed when Redis is down. */
  predicate IsBlocked(b: Blocklist, device: string, now: int, redisUp: bool) {
    !redisUp || (device in b && now < b[device])
  }

  class TokenBlocklist {
    var blocked: Blocklist

    constructor ()
      ensures blocked == map[]
    {
      blocked := map[];
    }

    /** Fails, without effect, when Redis cannot be asked. */
    method BlockDevice(device: string, now: int, ttl: int, redisUp: bool) returns (ok: bool)
      modifies this
      ensures ok <==> redisUp
      ensures blocked == if ok then old(blocked)[device := now + ttl] else old(blocked)
    {
      if !redisUp {
        return false;
      }
      blocked := blocked[device := now + ttl];
      return true;
    }

    method IsDeviceBlocked(device: string, now: int, redisUp: bool) returns (r: bool)
      ensures r <==> IsBlocked(blocked, device, now, redisUp)
    {
      if !redisUp {
        return true;
      }
      return device in blocked && now < blocked[device];
    }
  }

  // ----- the interceptors and the gateway

  datatype Config = Config(useCache: bool, useBlocklist: bool, blockFederated: bool, checkUser: bool, optional: bool,
      public: set<string>)

  datatype Request = Request(isClient: bool, procedure: string, header: Option<Token>, redisUp: bool, userExists: bool)

  datatype Outcome = Identified(claims: Claims) | Anonymous | Rejected

  /** validateWithConfig: the cache first, then the signature. */
  function Validate(cfg: Config, c: Cache, t: Token, now: int): Option<Claims> {
    if cfg.useCache && Get(c, t, now).Some? then Get(c, t, now) else Direct(t, now)
  }

  function ValidateCache(cfg: Config, c: Cache, t: Token, now: int, victim: Token): Cache {
    if cfg.useCache && Get(c, t, now).None? && Direct(t, now).Some? && t.claims.exp.Some? then
      PutEntry(c, t, Entry(t.claims, t.claims.exp), now, victim)
    else c
  }

  /** NewConnectInterceptor, and NewOptionalConnectInterceptor when `cfg.optional`. */
  function Intercept(cfg: Config, c: Cache, b: Blocklist, r: Request, now: int): Outcome {
    var isPublic := cfg.optional || r.procedure in cfg.public;
    if r.isClient then Anonymous
    else if r.header.None? then if isPublic then Anonymous else Rejected
    else
      match Validate(cfg, c, r.header.value, now)
      case None => if isPublic && !cfg.optional then Anonymous else Rejected
      case Some(claims) =>
        if claims.isRefresh then Rejected
        else if cfg.useBlocklist && claims.device != "" && IsBlocked(b, claims.device, now, r.redisUp) then Rejected
        else if !cfg.optional && cfg.checkUser && !r.userExists then Rejected
        else if cfg.blockFederated && claims.isFederated then Rejected
        else Identified(claims)
  }

  /** authenticateFirstMessage: here the refresh check stands before the cache write. */
  function GatewayAuth(c: Cache, b: Blocklist, t: Token, now: int, redisUp: bool): Outcome {
    var claims := if Get(c, t, now).Some? then Get(c, t, now) else if t.claims.isRefresh then None else Direct(t, now);
    if claims.None? || IsBlocked(b, claims.value.device, now, redisUp) then Rejected else Identified(claims.value)
  }

  function GatewayCache(c: Cache, t: Token, now: int, victim: Token): Cache {
    if Get(c, t, now).None? && Direct(t, now).Some? && !t.claims.isRefresh then
      PutEntry(c, t, Entry(t.claims, t.claims.exp), now, victim)
    else c
  }

  // ----- runs of one service and the shared blocklist

  datatype Sweep = Sweep(started: int, keys: set<Token>)

  datatype World = World(cache: Cache, sweep: Option<Sweep>, blocked: Blocklist, clock: int)

  datatype Action =
    | Call(cfg: Config, request: Request, victim: Token)
    | Identify(token: Token, redisUp: bool, victim: Token)
    | SweepBegin
    | SweepEnd
    | Revoke(device: string)

  datatype Event = Event(now: int, action: Action)

  function Init(): World {
    World(map[], None, map[], 0)
  }

  function Next(w: World, e: Event): World {
    var w1 := w.(clock := e.now);
    match e.action
    case Call(cfg, request, victim) =>
      if request.isClient || request.header.None? then w1
      else w1.(cache := ValidateCache(cfg, w.cache, request.header.value, e.now, victim))
    case Identify(t, _, victim) => w1.(cache := GatewayCache(w.cache, t, e.now, victim))
    case SweepBegin => w1.(sweep := Some(Sweep(e.now, Collect(w.cache, e.now))))
    case SweepEnd =>
      if w.sweep.None? then w1
      else w1.(cache := DeleteCollected(w.cache, w.sweep.value.keys, w.sweep.value.started), sweep := None)
    case Revoke(device) => w1.(blocked := BlockDevice(w.blocked, device, e.now, ACCESS_EXPIRY))
  }

  ghost function Run(w: World, events: seq<Event>): World {
    if events == [] then w else Next(Run(w, events[..|events| - 1]), events[|events| - 1])
  }

  /** Time does not go backwards. */
  ghost predicate InOrder(clock: int, events: seq<Event>) {
    && (forall i :: 0 <= i < |events| ==> clock <= events[i].now)
    && (forall i, j :: 0 <= i < j < |events| ==> events[i].now <= events[j].now)
  }

  /** Every cached entry carries its token's own claims and expiry, and was genuine when cached. */
  ghost predicate CacheInv(c: Cache, clock: int) {
    && |c| <= CACHE_MAX
    && forall t :: t in c ==> c[t] == Entry(t.claims, t.claims.exp) && Genuine(t, clock)
  }

  ghost predicate Inv(w: World) {
    && CacheInv(w.cache, w.clock)
    && (w.sweep.Some? ==> w.sweep.value.started <= w.clock)
  }

  lemma PutKeeps(c: Cache, t: Token, now: int, victim: Token)
    requires CacheInv(c, now) && Genuine(t, now)
    ensures CacheInv(PutEntry(c, t, Entry(t.claims, t.claims.exp), now, victim), now)
  {
    if |c| >= CACHE_MAX && victim in c && Past(c[victim], now) {
      assert (c - {victim}).Keys == c.Keys - {victim};
      assert |c - {victim}| == |c| - 1;
    }
  }

  lemma NextKeeps(w: World, e: Event)
    requires Inv(w) && w.clock <= e.now
    ensures Inv(Next(w, e))
  {
    assert CacheInv(w.cache, e.now);
    match e.action
    case Call(cfg, request, victim) =>
      if request.header.Some? && Direct(request.header.value, e.now).Some? {
        PutKeeps(w.cache, request.header.value, e.now, victim);
      }
    case Identify(t, _, victim) =>
      if Direct(t, e.now).Some? {
        PutKeeps(w.cache, t, e.now, victim);
      }
    case SweepEnd =>
      if w.sweep.Some? {
        var c := DeleteCollected(w.cache, w.sweep.value.keys, w.sweep.value.started);
        assert c.Keys <= w.cache.Keys;
        SubsetSize(c.Keys, w.cache.Keys);
      }
    case _ =>
  }

  lemma {:induction false} SubsetSize<T>(a: set<T>, b: set<T>)
    requires a <= b
    ensures |a| <= |b|
  {
    if a != {} {
      var x :| x in a;
      SubsetSize(a - {x}, b - {x});
    }
  }

  ghost function ClockAfter(clock: int, events: seq<Event>): int {
    if events == [] then clock else events[|events| - 1].now
  }

  lemma PrefixInOrder(clock: int, events: seq<Event>)
    requires InOrder(clock, events) && events != []
    ensures InOrder(clock, events[..|events| - 1])
    ensures ClockAfter(clock, events[..|events| - 1]) <= events[|events| - 1].now
  {
  }

  lemma {:induction false} RunClock(w: World, events: seq<Event>)
    ensures Run(w, events).clock == ClockAfter(w.clock, events)
  {
  }

  lemma {:induction false} RunKeeps(w: World, events: seq<Event>)
    requires Inv(w) && InOrder(w.clock, events)
    ensures Inv(Run(w, events)) && Run(w, events).clock == ClockAfter(w.clock, events)
  {
    RunClock(w, events);
    if events != [] {
      var p := events[..|events| - 1];
      PrefixInOrder(w.clock, events);
      RunKeeps(w, p);
      NextKeeps(Run(w, p), events[|events| - 1]);
    }
  }

  lemma AgreesNow(c: Cache, clock: int, cfg: Config, t: Token, now: int)
    requires CacheInv(c, clock) && clock <= now
    ensures Validate(cfg, c, t, now) == Direct(t, now) <==> !(cfg.useCache && t in c && t.claims.exp == Some(now))
  {
    if t in c {
      assert c[t] == Entry(t.claims, t.claims.exp) && Genuine(t, now);
    }
  }

  /** After any run, the cached answer is the direct answer, save for a cached token at its expiry instant. */
  lemma CacheAgrees(events: seq<Event>, cfg: Config, t: Token, now: int)
    requires InOrder(0, events) && (forall i :: 0 <= i < |events| ==> events[i].now <= now) && 0 <= now
    ensures
      var w := Run(Init(), events);
      Validate(cfg, w.cache, t, now) == Direct(t, now) <==> !(cfg.useCache && t in w.cache && t.claims.exp == Some(now))
  {
    RunKeeps(Init(), events);
    AgreesNow(Run(Init(), events).cache, Run(Init(), events).clock, cfg, t, now);
  }

  predicate Public(cfg: Config, r: Request) {
    cfg.optional || r.procedure in cfg.public
  }

  /** What an interceptor lets through, said of the token alone. */
  predicate Passes(cfg: Config, b: Blocklist, r: Request, t: Token, now: int) {
    && !r.isClient && r.header == Some(t) && Direct(t, now).Some? && !t.claims.isRefresh
    && !(cfg.useBlocklist && t.claims.device != "" && IsBlocked(b, t.claims.device, now, r.redisUp))
    && !(cfg.checkUser && !cfg.optional && !r.userExists)
    && !(cfg.blockFederated && t.claims.isFederated)
  }

  /** After any run the verdict depends on the token, not on the cache, save at a cached token's expiry instant. */
  lemma InterceptorVerdict(events: seq<Event>, cfg: Config, r: Request, t: Token, now: int)
    requires InOrder(0, events) && (forall i :: 0 <= i < |events| ==> events[i].now <= now) && 0 <= now
    requires r.header == Some(t) && !(cfg.useCache && t in Run(Init(), events).cache && t.claims.exp == Some(now))
    ensures
      var w := Run(Init(), events);
      var verdict := Intercept(cfg, w.cache, w.blocked, r, now);
      && (verdict.Identified? <==> Passes(cfg, w.blocked, r, t, now))
      && (verdict.Identified? ==> verdict.claims == t.claims)
      && (verdict.Anonymous? <==> r.isClient || (Public(cfg, r) && !cfg.optional && Direct(t, now).None?))
  {
    CacheAgrees(events, cfg, t, now);
  }

  /** The same at the gateway, which has no public procedures and never takes a refresh token. */
  lemma GatewayVerdict(events: seq<Event>, t: Token, now: int, redisUp: bool)
    requires InOrder(0, events) && (forall i :: 0 <= i < |events| ==> events[i].now <= now && !events[i].action.Call?)
      && 0 <= now
    requires !(t in Run(Init(), events).cache && t.claims.exp == Some(now))
    ensures
      var w := Run(Init(), events);
      GatewayAuth(w.cache, w.blocked, t, now, redisUp) ==
        if Direct(t, now).Some? && !t.claims.isRefresh && !IsBlocked(w.blocked, t.claims.device, now, redisUp) then
          Identified(t.claims)
        else Rejected
  {
    var cfg := Config(true, true, false, false, false, {});
    CacheAgrees(events, cfg, t, now);
    GatewayCachesNoRefresh(events);
    RunKeeps(Init(), events);
  }

  /** No run overfills the cache, whatever the sweep and the puts do to each other. */
  lemma CacheStaysBounded(events: seq<Event>)
    requires InOrder(0, events)
    ensures |Run(Init(), events).cache| <= CACHE_MAX
  {
    RunKeeps(Init(), events);
  }

  /** Finishing a sweep begun earlier drops only entries past by now; a live entry keeps its value. */
  lemma SweepDropsOnlyPast(events: seq<Event>, now: int, t: Token)
    requires InOrder(0, events + [Event(now, SweepEnd)])
    requires t in Run(Init(), events).cache
    ensures
      var c, c' := Run(Init(), events).cache, Run(Init(), events + [Event(now, SweepEnd)]).cache;
      if t in c' then c'[t] == c[t] else Past(c[t], now)
  {
    var e := Event(now, SweepEnd);
    var all := events + [e];
    assert all[..|all| - 1] == events && all[|events|] == e;
    assert InOrder(0, events) by {
      assert forall i :: 0 <= i < |events| ==> events[i] == all[i];
    }
    RunKeeps(Init(), events);
    assert Run(Init(), events).clock <= now by {
      assert |events| > 0 ==> all[|events| - 1].now <= all[|events|].now;
    }
  }

  ghost predicate NoRefresh(c: Cache) {
    forall t :: t in c ==> !t.claims.isRefresh && !c[t].claims.isRefresh
  }

  lemma PutKeepsNoRefresh(c: Cache, t: Token, now: int, victim: Token)
    requires NoRefresh(c) && !t.claims.isRefresh
    ensures NoRefresh(PutEntry(c, t, Entry(t.claims, t.claims.exp), now, victim))
  {
    var c1 := if victim in c && Past(c[victim], now) then c - {victim} else c;
    assert NoRefresh(c1);
  }

  lemma NextKeepsNoRefresh(w: World, e: Event)
    requires NoRefresh(w.cache) && !e.action.Call?
    ensures NoRefresh(Next(w, e).cache)
  {
    match e.action
    case Identify(t, _, victim) =>
      if !t.claims.isRefresh {
        PutKeepsNoRefresh(w.cache, t, e.now, victim);
      }
    case _ =>
  }

  /** In a service that only identifies sockets, no run caches refresh claims. */
  lemma {:induction false} GatewayCachesNoRefresh(events: seq<Event>)
    requires forall i :: 0 <= i < |events| ==> !events[i].action.Call?
    ensures NoRefresh(Run(Init(), events).cache)
  {
    if events != [] {
      var p := events[..|events| - 1];
      GatewayCachesNoRefresh(p);
      NextKeepsNoRefresh(Run(Init(), p), events[|events| - 1]);
    }
  }

  /** So a cache hit cannot skip the refresh check. */
  lemma GatewayNeverAcceptsRefresh(events: seq<Event>, t: Token, now: int, redisUp: bool)
    requires forall i :: 0 <= i < |events| ==> !events[i].action.Call?
    ensures
      var w := Run(Init(), events);
      var r := GatewayAuth(w.cache, w.blocked, t, now, redisUp);
      r.Identified? ==> !r.claims.isRefresh
  {
    GatewayCachesNoRefresh(events);
  }

  // ----- revocation

  /** A device revoked at `r` stays on the blocklist until `r` plus the access lifetime. */
  lemma {:induction false} StaysBlocked(w: World, events: seq<Event>, device: string, r: int)
    requires device in w.blocked && w.blocked[device] >= r + ACCESS_EXPIRY && InOrder(r, events)
    ensures device in Run(w, events).blocked && Run(w, events).blocked[device] >= r + ACCESS_EXPIRY
  {
    if events != [] {
      StaysBlocked(w, events[..|events| - 1], device, r);
    }
  }

  /** The world after `before`, the revocation of `device` at `r`, and `after`. */
  ghost function AfterRevoke(before: seq<Event>, device: string, r: int, after: seq<Event>): World {
    Run(Next(Run(Init(), before), Event(r, Revoke(device))), after)
  }

  lemma RevokedWorld(before: seq<Event>, device: string, r: int, after: seq<Event>)
    requires InOrder(0, before + [Event(r, Revoke(device))] + after)
    ensures Inv(AfterRevoke(before, device, r, after))
    ensures device in AfterRevoke(before, device, r, after).blocked
    ensures AfterRevoke(before, device, r, after).blocked[device] >= r + ACCESS_EXPIRY
  {
    var e := Event(r, Revoke(device));
    var all := before + [e] + after;
    assert forall i :: 0 <= i < |before| ==> all[i] == before[i];
    assert all[|before|] == e;
    assert forall i :: 0 <= i < |after| ==> all[|before| + 1 + i] == after[i];
    RunKeeps(Init(), before);
    var w := Next(Run(Init(), before), e);
    assert Run(Init(), before).clock <= r by {
      assert |before| > 0 ==> all[|before| - 1].now <= all[|before|].now;
    }
    NextKeeps(Run(Init(), before), e);
    assert InOrder(r, after) by {
      forall i | 0 <= i < |after| ensures r <= after[i].now {
        assert after[i] == all[|before| + 1 + i];
      }
    }
    StaysBlocked(w, after, device, r);
    RunKeeps(w, after);
  }

  /**
   No access token issued for the device up to its revocation identifies anyone afterwards, cached or
   not; the single instant left open is the token's expiry, when that is exactly one lifetime after
   the revocation.
   */
  lemma RevokedDeviceIsLockedOut(before: seq<Event>, r: int, after: seq<Event>, cfg: Config, request: Request,
      now: int, user: string, device: string, issuer: string, isFederated: bool, issued: int, jti: string)
    requires InOrder(0, before + [Event(r, Revoke(device))] + after)
      && (forall i :: 0 <= i < |after| ==> after[i].now <= now)
    requires cfg.useBlocklist && device != "" && issued <= r <= now
    requires request.header == Some(MintAccess(user, device, issuer, isFederated, issued, jti))
    ensures
      var w := AfterRevoke(before, device, r, after);
      Intercept(cfg, w.cache, w.blocked, request, now).Identified? ==> now == AccessExp(issued) == r + ACCESS_EXPIRY
  {
    RevokedWorld(before, device, r, after);
    assert AccessExp(issued) <= issued + ACCESS_EXPIRY;
  }

  /** The same at the gateway's door. */
  lemma RevokedDeviceCannotConnect(before: seq<Event>, r: int, after: seq<Event>, redisUp: bool, now: int,
      user: string, device: string, issuer: string, isFederated: bool, issued: int, jti: string)
    requires InOrder(0, before + [Event(r, Revoke(device))] + after)
      && (forall i :: 0 <= i < |after| ==> after[i].now <= now)
    requires issued <= r <= now
    ensures
      var w := AfterRevoke(before, device, r, after);
      var t := MintAccess(user, device, issuer, isFederated, issued, jti);
      GatewayAuth(w.cache, w.blocked, t, now, redisUp).Identified? ==> now == AccessExp(issued) == r + ACCESS_EXPIRY
  {
    RevokedWorld(before, device, r, after);
    assert AccessExp(issued) <= issued + ACCESS_EXPIRY;
  }

  /** RevokeAllOtherDevices: on success every deleted device is blocked for a full lifetime. */
  method BlockAll(b: Blocklist, deleted: seq<string>, now: int, blockOk: seq<bool>) returns (r: Blocklist, ok: bool)
    requires |blockOk| == |deleted|
    ensures ok <==> forall i :: 0 <= i < |blockOk| ==> blockOk[i]
    ensures ok ==> forall d :: d in deleted ==> d in r && r[d] == now + ACCESS_EXPIRY
    ensures forall d :: d !in deleted ==> (d in r <==> d in b) && (d in b ==> r[d] == b[d])
  {
    r, ok := b, true;
    for i := 0 to |deleted|
      invariant forall j :: 0 <= j < i ==> blockOk[j]
      invariant forall d :: d in deleted[..i] ==> d in r && r[d] == now + ACCESS_EXPIRY
      invariant forall d :: d !in deleted ==> (d in r <==> d in b) && (d in b ==> r[d] == b[d])
    {
      if !blockOk[i] {
        return r, false;
      }
      r := BlockDevice(r, deleted[i], now, ACCESS_EXPIRY);
    }
  }
}
