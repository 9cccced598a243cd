/**
 What token checking decides, said of the token's own fields, the cache entries and the blocklist keys; and
 that an honest token works for the hour it is made for.
 */
module TokenLaws {
  import opened Common
  import opened TokenAuth

  // ----- one token

  /** Signed, begun, made for no special purpose, with a user, and not at or past its expiry. */
  lemma DirectIs(t: Token, now: int)
    ensures
      var good :=
        && t.signed && (t.notBefore.Some? ==> now >= t.notBefore.value) && t.purpose == "" && t.claims.user != ""
        && (t.claims.exp.Some? ==> now < t.claims.exp.value);
      Direct(t, now) == if good then Some(t.claims) else None
  {
  }

  /** An entry answers up to and at its expiry; one without expiry never does. */
  lemma GetIs(c: Cache, t: Token, now: int)
    ensures Get(c, t, now) ==
      if t in c && c[t].exp.Some? && now <= c[t].exp.value then Some(c[t].claims) else None
  {
  }

  /** With room the entry is added; a full cache gives up the victim if that is past, and else takes nothing. */
  lemma PutIs(c: Cache, t: Token, e: Entry, now: int, victim: Token)
    requires |c| <= 50000
    ensures
      var past := victim in c && (c[victim].exp.None? || now > c[victim].exp.value);
      PutEntry(c, t, e, now, victim) ==
        if |c| < 50000 then c[t := e] else if past then (c - {victim})[t := e] else c
  {
    if victim in c {
      assert (c - {victim}).Keys == c.Keys - {victim};
    }
  }

  /** A sweep notes what is past when it starts and drops what of that is still past for that instant. */
  lemma SweepIs(c: Cache, d: Cache, keys: set<Token>, started: int, t: Token)
    ensures t in Collect(c, started) <==> t in c && (c[t].exp.None? || started > c[t].exp.value)
    ensures
      var r := DeleteCollected(d, keys, started);
      && (t in r <==> t in d && (t in keys ==> d[t].exp.Some? && started <= d[t].exp.value))
      && (t in r ==> r[t] == d[t])
  {
  }

  lemma BlockIs(b: Blocklist, device: string, now: int, ttl: int, other: string, at: int, redisUp: bool)
    ensures IsBlocked(b, device, now, redisUp) <==> (redisUp ==> device in b && now < b[device])
    ensures
      var r := BlockDevice(b, device, now, ttl);
      && (IsBlocked(r, device, at, true) <==> at < now + ttl)
      && (other != device ==> (IsBlocked(r, other, at, redisUp) <==> IsBlocked(b, other, at, redisUp)))
  {
  }

  // ----- the interceptors

  lemma ValidateIs(cfg: Config, c: Cache, t: Token, now: int)
    ensures Validate(cfg, c, t, now) ==
      if cfg.useCache && Get(c, t, now) != None then Get(c, t, now) else Direct(t, now)
  {
  }

  /** Nothing in the configuration stands against the claims. */
  predicate Clear(cfg: Config, b: Blocklist, r: Request, claims: Claims, now: int) {
    && !claims.isRefresh
    && (cfg.useBlocklist && claims.device != "" ==> r.redisUp && !(claims.device in b && now < b[claims.device]))
    && (cfg.checkUser && !cfg.optional ==> r.userExists)
    && (cfg.blockFederated ==> !claims.isFederated)
  }

  /** Clients and public calls pass anonymously; a validated token with nothing against it is identified. */
  lemma InterceptIs(cfg: Config, c: Cache, b: Blocklist, r: Request, now: int)
    ensures
      var out := Intercept(cfg, c, b, r, now);
      var claims := if r.header.Some? then Validate(cfg, c, r.header.value, now) else None;
      && (out.Identified? <==> !r.isClient && claims.Some? && Clear(cfg, b, r, claims.value, now))
      && (out.Identified? ==> out.claims == claims.value)
      && (out.Anonymous? <==>
            || r.isClient
            || (r.header.None? && (cfg.optional || r.procedure in cfg.public))
            || (r.header.Some? && claims.None? && !cfg.optional && r.procedure in cfg.public))
  {
  }

  /** A direct validation with an expiry is cached, as far as there is room; nothing else is. */
  lemma ValidateCacheIs(cfg: Config, c: Cache, t: Token, now: int, victim: Token)
    ensures
      var fills := cfg.useCache && Get(c, t, now) == None && Direct(t, now) == Some(t.claims) && t.claims.exp != None;
      ValidateCache(cfg, c, t, now, victim) ==
        if fills then PutEntry(c, t, Entry(t.claims, t.claims.exp), now, victim) else c
  {
  }

  // ----- the gateway

  /** The gateway takes a cached token or a direct one that is no refresh token, unless its device is blocked. */
  lemma GatewayIs(c: Cache, b: Blocklist, t: Token, now: int, redisUp: bool, victim: Token)
    ensures
      var claims :=
        if Get(c, t, now) != None then Get(c, t, now)
        else if t.claims.isRefresh then None
        else Direct(t, now);
      GatewayAuth(c, b, t, now, redisUp) ==
        if claims != None && redisUp && !(claims.value.device in b && now < b[claims.value.device])
        then Identified(claims.value)
        else Rejected
    ensures
      var fills := Get(c, t, now) == None && Direct(t, now) == Some(t.claims) && !t.claims.isRefresh;
      GatewayCache(c, t, now, victim) ==
        if fills then PutEntry(c, t, Entry(t.claims, t.claims.exp), now, victim) else c
  {
  }

  // ----- the actions of a run

  /** What each action of a run does to cache, sweep and blocklist. */
  lemma NextIs(w: World, e: Event)
    ensures
      var r := Next(w, e);
      && r.clock == e.now
      && r.cache ==
           (match e.action
            case Call(cfg, q, victim) =>
              if !q.isClient && q.header.Some? then ValidateCache(cfg, w.cache, q.header.value, e.now, victim)
              else w.cache
            case Identify(t, _, victim) => GatewayCache(w.cache, t, e.now, victim)
            case SweepEnd =>
              if w.sweep.Some? then DeleteCollected(w.cache, w.sweep.value.keys, w.sweep.value.started) else w.cache
            case _ => w.cache)
      && r.sweep ==
           (if e.action.SweepBegin? then Some(Sweep(e.now, Collect(w.cache, e.now)))
            else if e.action.SweepEnd? then None
            else w.sweep)
      && r.blocked == if e.action.Revoke? then w.blocked[e.action.device := e.now + 3600 * 1000] else w.blocked
  {
  }

  /** A fresh access token identifies its user for the hour it is made for, wherever its device is not blocked. */
  lemma HonestToken(user: string, device: string, issuer: string, made: int, jti: string, cfg: Config, b: Blocklist,
      procedure: string, now: int)
    requires user != "" && made <= now <= made + 3600 * 1000 - 1000
    requires !(device in b && now < b[device])
    ensures
      var t := MintAccess(user, device, issuer, false, made, jti);
      && Intercept(cfg, map[], b, Request(false, procedure, Some(t), true, true), now) == Identified(t.claims)
      && GatewayAuth(map[], b, t, now, true) == Identified(t.claims)
      && t.claims.user == user && t.claims.device == device && !t.claims.isRefresh
  {
  }
}
