/**
 Revoked devices and refresh tokens together: RevokeDevice (server/cmd/auth/service.go) blocks a device's
 access tokens for one lifetime, and leaves its refresh-token row, which RefreshToken exchanges without
 asking the blocklist.

 A joint run interleaves calls on a service with the shared blocklist and calls on the refresh-token
 table; `given` are the access tokens handed out with the pairs.
 */
module Revocation {
  import opened Common
  import A = TokenAuth
  import R = RefreshTokens

  datatype Action =
    | Service(action: A.Action)
    | Tokens(call: R.Call, issuer: string, accessJti: string)

  datatype Event = Event(now: int, action: Action)

  datatype Joint = Joint(auth: A.World, table: R.State, given: set<A.Token>)

  function Init(): Joint {
    Joint(A.Init(), R.Init(), {})
  }

  /** The access token of the pair a call hands out. */
  function Given(j: Joint, e: Event): Option<A.Token> {
    if e.action.Service? then None
    else
      match R.Minted(j.table, e.action.call, e.now)
      case None => None
      case Some(t) => Some(A.MintAccess(t.user, t.device, e.action.issuer, t.federated, e.now, e.action.accessJti))
  }

  function Next(j: Joint, e: Event): Joint {
    match e.action
    case Service(action) => j.(auth := A.Next(j.auth, A.Event(e.now, action)))
    case Tokens(call, _, _) =>
      j.(table := R.Step(j.table, call, e.now).0,
         given := j.given + if Given(j, e).Some? then {Given(j, e).value} else {})
  }

  ghost function Run(events: seq<Event>): Joint {
    if events == [] then Init() else Next(Run(events[..|events| - 1]), events[|events| - 1])
  }

  /** Random ids are new. */
  ghost predicate Legal(j: Joint, e: Event) {
    e.action.Tokens? ==> R.Legal(j.table, e.action.call)
  }

  ghost predicate LegalRun(events: seq<Event>) {
    forall i :: 0 <= i < |events| ==> Legal(Run(events[..i]), events[i])
  }

  /** Time does not go backwards, up to `now`. */
  ghost predicate InOrder(events: seq<Event>, now: int) {
    && 0 <= now
    && (forall i :: 0 <= i < |events| ==> 0 <= events[i].now <= now)
    && (forall i, j :: 0 <= i < j < |events| ==> events[i].now <= events[j].now)
  }

  lemma PrefixIsLegal(events: seq<Event>, n: nat)
    requires LegalRun(events) && n <= |events|
    ensures LegalRun(events[..n])
  {
    forall i | 0 <= i < n ensures Legal(Run(events[..n][..i]), events[..n][i]) {
      assert events[..n][..i] == events[..i];
    }
  }

  lemma InOrderToLast(events: seq<Event>, now: int)
    requires InOrder(events, now) && events != []
    ensures InOrder(events, events[|events| - 1].now) && InOrder(events[..|events| - 1], events[|events| - 1].now)
  {
  }

  // ----- the invariant

  /** An access token handed out no later than `now` and valid for one lifetime. */
  ghost predicate GivenBy(t: A.Token, now: int) {
    && t.signed && t.purpose == "" && t.notBefore.None? && !t.claims.isRefresh
    && t.claims.exp.Some? && t.claims.exp.value <= now + A.ACCESS_EXPIRY
  }

  ghost predicate Inv(j: Joint, now: int) {
    && A.Inv(j.auth) && j.auth.clock <= now && R.Inv(j.table)
    && forall t :: t in j.given ==> GivenBy(t, now)
  }

  lemma ServiceKeeps(j: Joint, e: Event, now: int)
    requires Inv(j, now) && e.action.Service? && now <= e.now
    ensures Inv(Next(j, e), e.now)
  {
    A.NextKeeps(j.auth, A.Event(e.now, e.action.action));
  }

  lemma TokensKeep(j: Joint, e: Event, now: int)
    requires Inv(j, now) && e.action.Tokens? && Legal(j, e) && now <= e.now
    ensures Inv(Next(j, e), e.now)
  {
    R.StepKeeps(j.table, e.action.call, e.now);
    forall t | t in Next(j, e).given ensures GivenBy(t, e.now) {
      if t in j.given {
        assert GivenBy(t, now);
      }
    }
  }

  lemma {:induction false} RunKeeps(events: seq<Event>, now: int)
    requires LegalRun(events) && InOrder(events, now)
    ensures Inv(Run(events), now)
  {
    if events != [] {
      var n := |events| - 1;
      PrefixIsLegal(events, n);
      InOrderToLast(events, now);
      assert Legal(Run(events[..n]), events[n]);
      RunKeeps(events[..n], events[n].now);
      if events[n].action.Service? {
        ServiceKeeps(Run(events[..n]), events[n], events[n].now);
      } else {
        TokensKeep(Run(events[..n]), events[n], events[n].now);
      }
    }
  }

  // ----- after a revocation

  /** Event `i` revokes a device that exists, and no later event revokes it again. */
  ghost predicate RevokedLast(events: seq<Event>, i: nat, device: string) {
    && i < |events| && device != "" && events[i].action == Service(A.Revoke(device))
    && device in Run(events[..i]).table.book.devices
    && forall k :: i < k < |events| ==> events[k].action != Service(A.Revoke(device))
  }

  /** Event `k` exchanges a refresh token of the device for a new pair. */
  ghost predicate ExchangesAt(events: seq<Event>, k: nat, device: string)
    requires k < |events|
  {
    && events[k].action.Tokens? && (events[k].action.call.Refresh? || events[k].action.call.FederationRefresh?)
    && Given(Run(events[..k]), events[k]).Some? && Given(Run(events[..k]), events[k]).value.claims.device == device
  }

  lemma RevokedPrefix(events: seq<Event>, i: nat, device: string)
    requires RevokedLast(events, i, device) && i < |events| - 1
    ensures RevokedLast(events[..|events| - 1], i, device)
  {
    assert events[..|events| - 1][..i] == events[..i];
  }

  /** The device exists and is blocked until the given time. */
  ghost predicate Blocked(j: Joint, device: string, until: int) {
    device in j.auth.blocked && j.auth.blocked[device] == until && device in j.table.book.devices
  }

  lemma RevokeBlocks(j: Joint, now: int, device: string)
    requires device in j.table.book.devices
    ensures Blocked(Next(j, Event(now, Service(A.Revoke(device)))), device, now + A.ACCESS_EXPIRY)
  {
  }

  lemma NextStaysBlocked(j: Joint, e: Event, device: string, until: int)
    requires Blocked(j, device, until) && e.action != Service(A.Revoke(device))
    ensures Blocked(Next(j, e), device, until)
  {
    if e.action.Tokens? {
      R.StepMints(j.table, e.action.call, e.now);
    }
  }

  /** The block stands for one lifetime from the last revocation. */
  lemma {:induction false} BlockedUntil(events: seq<Event>, i: nat, device: string)
    requires RevokedLast(events, i, device)
    ensures Blocked(Run(events), device, events[i].now + A.ACCESS_EXPIRY)
    decreases |events|
  {
    var n := |events| - 1;
    if i < n {
      RevokedPrefix(events, i, device);
      BlockedUntil(events[..n], i, device);
      NextStaysBlocked(Run(events[..n]), events[n], device, events[i].now + A.ACCESS_EXPIRY);
    } else {
      RevokeBlocks(Run(events[..i]), events[i].now, device);
    }
  }

  /** A device that exists is given tokens by exchanges alone. */
  lemma OnlyExchangesGive(j: Joint, e: Event, device: string)
    requires Legal(j, e) && device in j.table.book.devices
    requires Given(j, e).Some? && Given(j, e).value.claims.device == device
    ensures e.action.call.Refresh? || e.action.call.FederationRefresh?
  {
  }

  /** The token was handed out by an exchange after event `i`. */
  ghost predicate FromExchange(events: seq<Event>, i: nat, device: string, t: A.Token) {
    exists k :: i < k < |events| && ExchangesAt(events, k, device) && Given(Run(events[..k]), events[k]) == Some(t)
  }

  lemma FromExchangeLater(events: seq<Event>, i: nat, device: string, t: A.Token)
    requires events != [] && FromExchange(events[..|events| - 1], i, device, t)
    ensures FromExchange(events, i, device, t)
  {
    var p := events[..|events| - 1];
    var k :| i < k < |p| && ExchangesAt(p, k, device) && Given(Run(p[..k]), p[k]) == Some(t);
    assert p[..k] == events[..k] && p[k] == events[k];
    assert ExchangesAt(events, k, device);
  }

  lemma NextGives(j: Joint, e: Event, device: string, t: A.Token)
    requires t in Next(j, e).given && t !in j.given && t.claims.device == device
    requires Legal(j, e) && device in j.table.book.devices
    ensures Given(j, e) == Some(t) && (e.action.call.Refresh? || e.action.call.FederationRefresh?)
  {
    OnlyExchangesGive(j, e, device);
  }

  /** A token the last event handed out to an existing device comes from an exchange. */
  lemma LastIsExchange(events: seq<Event>, device: string, t: A.Token)
    requires events != [] && t.claims.device == device
    requires Legal(Run(events[..|events| - 1]), events[|events| - 1])
    requires device in Run(events[..|events| - 1]).table.book.devices
    requires t in Run(events).given && t !in Run(events[..|events| - 1]).given
    ensures ExchangesAt(events, |events| - 1, device)
    ensures Given(Run(events[..|events| - 1]), events[|events| - 1]) == Some(t)
  {
    NextGives(Run(events[..|events| - 1]), events[|events| - 1], device, t);
  }

  lemma LastGives(events: seq<Event>, i: nat, device: string, t: A.Token)
    requires LegalRun(events) && i < |events| - 1 && RevokedLast(events, i, device)
    requires t in Run(events).given && t !in Run(events[..|events| - 1]).given && t.claims.device == device
    ensures FromExchange(events, i, device, t)
  {
    RevokedPrefix(events, i, device);
    BlockedUntil(events[..|events| - 1], i, device);
    LastIsExchange(events, device, t);
  }

  lemma GivenInTime(events: seq<Event>, t: A.Token, now: int)
    requires LegalRun(events) && InOrder(events, now) && t in Run(events).given
    ensures GivenBy(t, now)
  {
    RunKeeps(events, now);
  }

  /** An access token of the device ends within one lifetime of the revocation, or comes from a later exchange. */
  lemma {:induction false} OldOrExchanged(events: seq<Event>, i: nat, device: string, t: A.Token, now: int)
    requires LegalRun(events) && InOrder(events, now) && RevokedLast(events, i, device)
    requires t in Run(events).given && t.claims.device == device
    ensures
      || (t.claims.exp.Some? && t.claims.exp.value <= events[i].now + A.ACCESS_EXPIRY)
      || FromExchange(events, i, device, t)
    decreases |events|
  {
    var n := |events| - 1;
    if i == n {
      InOrderToLast(events, now);
      GivenInTime(events, t, events[n].now);
    } else if t !in Run(events[..n]).given {
      LastGives(events, i, device, t);
    } else {
      PrefixIsLegal(events, n);
      RevokedPrefix(events, i, device);
      OldOrExchanged(events[..n], i, device, t, now);
      if FromExchange(events[..n], i, device, t) {
        FromExchangeLater(events, i, device, t);
      }
    }
  }

  lemma {:induction false} GivenStays(events: seq<Event>, k: nat)
    requires k < |events| && Given(Run(events[..k]), events[k]).Some?
    ensures Given(Run(events[..k]), events[k]).value in Run(events).given
    decreases |events|
  {
    if k < |events| - 1 {
      assert events[..|events| - 1][..k] == events[..k];
      GivenStays(events[..|events| - 1], k);
    }
  }

  /** The token validates and its device is not blocked. */
  predicate Admitted(j: Joint, t: A.Token, now: int) {
    A.Direct(t, now).Some? && !t.claims.isRefresh && !A.IsBlocked(j.auth.blocked, t.claims.device, now, true)
  }

  /** What an exchange gives is genuine, and ends one lifetime after it. */
  lemma ExchangeGives(events: seq<Event>, k: nat, device: string, now: int)
    requires LegalRun(events) && k < |events| && InOrder(events, now) && ExchangesAt(events, k, device)
    ensures
      var t := Given(Run(events[..k]), events[k]).value;
      A.Genuine(t, now) && !t.claims.isRefresh && t.claims.exp == Some(A.AccessExp(events[k].now))
  {
    PrefixIsLegal(events, k);
    RunKeeps(events[..k], events[k].now);
  }

  /** A token of the device is admitted exactly from one lifetime after the revocation, and while it lasts. */
  lemma AdmittedIff(events: seq<Event>, i: nat, device: string, t: A.Token, now: int)
    requires RevokedLast(events, i, device) && t.claims.device == device && !t.claims.isRefresh
    ensures Admitted(Run(events), t, now) <==> A.Direct(t, now).Some? && events[i].now + A.ACCESS_EXPIRY <= now
  {
    BlockedUntil(events, i, device);
  }

  /** Some exchange after the revocation gave a token that still lasts. */
  ghost predicate LastsFromExchange(events: seq<Event>, i: nat, device: string, now: int) {
    exists k :: i < k < |events| && ExchangesAt(events, k, device) && now < A.AccessExp(events[k].now)
  }

  lemma BackByExchange(events: seq<Event>, i: nat, device: string, t: A.Token, now: int)
    requires LegalRun(events) && InOrder(events, now) && RevokedLast(events, i, device)
    requires t in Run(events).given && t.claims.device == device && Admitted(Run(events), t, now)
    ensures events[i].now + A.ACCESS_EXPIRY <= now && LastsFromExchange(events, i, device, now)
  {
    AdmittedIff(events, i, device, t, now);
    OldOrExchanged(events, i, device, t, now);
    var k :| i < k < |events| && ExchangesAt(events, k, device) && Given(Run(events[..k]), events[k]) == Some(t);
    ExchangeGives(events, k, device, now);
  }

  lemma ExchangeBringsBack(events: seq<Event>, i: nat, device: string, now: int) returns (t: A.Token)
    requires LegalRun(events) && InOrder(events, now) && RevokedLast(events, i, device)
    requires events[i].now + A.ACCESS_EXPIRY <= now && LastsFromExchange(events, i, device, now)
    ensures t in Run(events).given && t.claims.device == device && Admitted(Run(events), t, now)
  {
    var k :| i < k < |events| && ExchangesAt(events, k, device) && now < A.AccessExp(events[k].now);
    t := Given(Run(events[..k]), events[k]).value;
    ExchangeGives(events, k, device, now);
    GivenStays(events, k);
    AdmittedIff(events, i, device, t, now);
  }

  /** Some access token of the device is admitted. */
  ghost predicate IsBack(j: Joint, device: string, now: int) {
    exists t :: t in j.given && t.claims.device == device && Admitted(j, t, now)
  }

  /**
   In every joint run a revoked device is admitted again exactly when one lifetime has passed since the
   revocation and the device has exchanged a refresh token since, for a token that still lasts.
   */
  lemma RevokedIsBackIff(events: seq<Event>, i: nat, device: string, now: int)
    requires LegalRun(events) && InOrder(events, now) && RevokedLast(events, i, device)
    ensures IsBack(Run(events), device, now) <==>
      events[i].now + A.ACCESS_EXPIRY <= now && LastsFromExchange(events, i, device, now)
  {
    if IsBack(Run(events), device, now) {
      var t :| t in Run(events).given && t.claims.device == device && Admitted(Run(events), t, now);
      BackByExchange(events, i, device, t, now);
    }
    if events[i].now + A.ACCESS_EXPIRY <= now && LastsFromExchange(events, i, device, now) {
      var t := ExchangeBringsBack(events, i, device, now);
    }
  }

  /** Admission is what an interceptor with the blocklist goes by, the instant of a cached token's expiry apart. */
  lemma AdmittedIsIdentified(events: seq<Event>, t: A.Token, cfg: A.Config, r: A.Request, now: int)
    requires LegalRun(events) && InOrder(events, now) && t in Run(events).given && t.claims.device != ""
    requires cfg.useBlocklist && (cfg.checkUser ==> r.userExists) && (cfg.blockFederated ==> !t.claims.isFederated)
    requires r.header == Some(t) && !r.isClient && r.redisUp
    requires !(cfg.useCache && t in Run(events).auth.cache && t.claims.exp == Some(now))
    ensures
      var j := Run(events);
      A.Intercept(cfg, j.auth.cache, j.auth.blocked, r, now).Identified? <==> Admitted(j, t, now)
  {
    RunKeeps(events, now);
    A.AgreesNow(Run(events).auth.cache, Run(events).auth.clock, cfg, t, now);
  }

  /** Issued, revoked at once, refreshed a second later: the device is back when the block ends. */
  lemma ComesBack(user: string, device: string, issuer: string)
    requires user != "" && device != ""
    ensures
      var t := R.Mint(user, device, false, "1", 0);
      var events := [
        Event(0, Tokens(R.Issue(user, device, false, "1", true), issuer, "a")),
        Event(0, Service(A.Revoke(device))),
        Event(1000, Tokens(R.Refresh(t, "2", true), issuer, "b"))];
      LegalRun(events) && InOrder(events, A.ACCESS_EXPIRY) && RevokedLast(events, 1, device)
      && IsBack(Run(events), device, A.ACCESS_EXPIRY)
  {
    var t := R.Mint(user, device, false, "1", 0);
    var e0 := Event(0, Tokens(R.Issue(user, device, false, "1", true), issuer, "a"));
    var e1 := Event(0, Service(A.Revoke(device)));
    var e2 := Event(1000, Tokens(R.Refresh(t, "2", true), issuer, "b"));
    var events := [e0, e1, e2];
    ThreeEvents(e0, e1, e2);
    var j1 := Next(Init(), e0);
    var j2 := Next(j1, e1);
    assert j1.table.stored == map[t := R.Row(user, device, R.LIFETIME)] && j2.table == j1.table;
    assert R.Exchanges(j2.table, e2.action.call, 1000);
    assert ExchangesAt(events, 2, device);
    assert A.ACCESS_EXPIRY < A.AccessExp(1000);
    RevokedIsBackIff(events, 1, device, A.ACCESS_EXPIRY);
  }

  lemma ThreeEvents(e0: Event, e1: Event, e2: Event)
    ensures
      var events := [e0, e1, e2];
      && Run(events[..0]) == Init() && Run(events[..1]) == Next(Init(), e0)
      && Run(events[..2]) == Next(Next(Init(), e0), e1)
  {
    var events := [e0, e1, e2];
    assert events[..1] == [e0] && events[..2] == [e0, e1];
    assert [e0][..0] == [] && [e0, e1][..1] == [e0];
  }
}
