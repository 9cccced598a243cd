/**
 Refresh-token rotation: issue (Register, Login, FederationJoin), recovery, the two refresh endpoints
 and logout (server/cmd/auth/service.go, federation_service.go, service_device_recovery.go, over
 server/internal/store/auth_store.go).

 Only SHA-256 digests are stored; the digest is injective, so rows are keyed by the token.  Device ids
 and token ids come from a random source: runs never draw the same one twice.  Times are milliseconds.
 */
module RefreshTokens {
  import opened Common

  const LIFETIME := 30 * 24 * 3600 * 1000

  /** `federated` is the claim of shadow users; the access token of the pair carries it if this one does. */
  datatype Token = Token(signed: bool, isRefresh: bool, user: string, device: string, federated: bool, jti: string,
      exp: int)

  datatype Row = Row(user: string, device: string, expires: int)

  /** What the table has seen: tokens stored, exchanges in order, rows deleted unexchanged, ids drawn. */
  datatype Book = Book(minted: set<Token>, exchanges: seq<Token>, revoked: set<Token>, devices: set<string>,
      jtis: set<string>)

  datatype State = State(stored: map<Token, Row>, book: Book)

  function Init(): State {
    State(map[], Book({}, [], {}, {}, {}))
  }

  function Mint(user: string, device: string, federated: bool, jti: string, now: int): Token {
    Token(true, true, user, device, federated, jti, (now + LIFETIME) / 1000 * 1000)
  }

  /** ValidateTokenEd25519 and the refresh check. */
  predicate Acceptable(t: Token, now: int) {
    t.signed && t.isRefresh && t.user != "" && now < t.exp
  }

  // ----- the table

  /** Generates a pair for the row's user and device and stores the refresh token, unless the insert fails. */
  function Store(s: State, user: string, device: string, federated: bool, jti: string, ok: bool, now: int): State {
    var t := Mint(user, device, federated, jti, now);
    var b := s.book.(jtis := s.book.jtis + {jti});
    if ok then State(s.stored[t := Row(user, device, now + LIFETIME)], b.(minted := b.minted + {t}))
    else State(s.stored, b)
  }

  predicate CanConsume(s: State, t: Token, now: int) {
    t in s.stored && now < s.stored[t].expires
  }

  function Consume(s: State, t: Token): State {
    State(s.stored - {t}, s.book.(exchanges := s.book.exchanges + [t]))
  }

  predicate Doomed(r: Row, user: string, only: Option<string>, keep: set<string>) {
    r.user == user && (only.Some? ==> r.device == only.value) && r.device !in keep
  }

  /** The DELETEs: one device's rows, or the user's rows save some devices. */
  function Delete(s: State, user: string, only: Option<string>, keep: set<string>): State {
    var gone := set t | t in s.stored && Doomed(s.stored[t], user, only, keep);
    State(s.stored - gone, s.book.(revoked := s.book.revoked + gone))
  }

  function NewDevice(s: State, device: string): State {
    s.(book := s.book.(devices := s.book.devices + {device}))
  }

  // ----- the handlers

  datatype Call =
    | Issue(user: string, device: string, federated: bool, jti: string, storeOk: bool)
    | Recover(user: string, keep: set<string>, device: string, jti: string, deviceOk: bool, storeOk: bool)
    | Refresh(token: Token, jti: string, storeOk: bool)
    | FederationRefresh(token: Token, assertionOk: bool, userMatches: bool, jti: string, storeOk: bool)
    | Logout(user: string, device: string)

  datatype Reply = Issued(token: Token) | Done | Failed

  predicate Exchanges(s: State, c: Call, now: int) {
    match c
    case Refresh(t, _, _) => Acceptable(t, now) && CanConsume(s, t, now)
    case FederationRefresh(t, assertionOk, userMatches, _, _) =>
      Acceptable(t, now) && assertionOk && userMatches && CanConsume(s, t, now)
    case _ => false
  }

  /** The refresh token a call mints: every endpoint but the federated two leaves the claim out. */
  function Minted(s: State, c: Call, now: int): Option<Token> {
    match c
    case Issue(user, device, federated, jti, storeOk) =>
      if storeOk then Some(Mint(user, device, federated, jti, now)) else None
    case Recover(user, _, device, jti, deviceOk, storeOk) =>
      if deviceOk && storeOk then Some(Mint(user, device, false, jti, now)) else None
    case Refresh(t, jti, storeOk) =>
      if Exchanges(s, c, now) && storeOk then
        Some(Mint(s.stored[t].user, s.stored[t].device, false, jti, now))
      else None
    case FederationRefresh(t, _, _, jti, storeOk) =>
      if Exchanges(s, c, now) && storeOk then Some(Mint(t.user, t.device, true, jti, now)) else None
    case Logout(_, _) => None
  }

  function Answer(minted: Option<Token>): Reply {
    if minted.Some? then Issued(minted.value) else Failed
  }

  function Step(s: State, c: Call, now: int): (State, Reply) {
    match c
    case Issue(user, device, federated, jti, storeOk) =>
      (Store(NewDevice(s, device), user, device, federated, jti, storeOk, now), Answer(Minted(s, c, now)))
    case Recover(user, keep, device, jti, deviceOk, storeOk) =>
      var s1 := NewDevice(Delete(s, user, None, keep), device);
      (if deviceOk then Store(s1, user, device, false, jti, storeOk, now) else s1, Answer(Minted(s, c, now)))
    case Refresh(t, jti, storeOk) =>
      if !Exchanges(s, c, now) then (s, Failed)
      else
        var row := s.stored[t];
        (Store(Consume(s, t), row.user, row.device, false, jti, storeOk, now), Answer(Minted(s, c, now)))
    case FederationRefresh(t, _, _, jti, storeOk) =>
      if !Exchanges(s, c, now) then (s, Failed)
      else (Store(Consume(s, t), t.user, t.device, true, jti, storeOk, now), Answer(Minted(s, c, now)))
    case Logout(user, device) =>
      if device == "" then (s, Failed) else (Delete(s, user, Some(device), {}), Done)
  }

  /** Random ids are new. */
  predicate Legal(s: State, c: Call) {
    match c
    case Issue(_, device, _, jti, _) => device !in s.book.devices && jti !in s.book.jtis
    case Recover(_, _, device, jti, _, _) => device !in s.book.devices && jti !in s.book.jtis
    case Refresh(_, jti, _) => jti !in s.book.jtis
    case FederationRefresh(_, _, _, jti, _) => jti !in s.book.jtis
    case Logout(_, _) => true
  }

  class RefreshTable {
    var stored: map<Token, Row>
    ghost var book: Book

    ghost function View(): State
      reads this
    {
      State(stored, book)
    }

    constructor ()
      ensures View() == Init()
    {
      stored, book := map[], Book({}, [], {}, {}, {});
    }

    method StoreRefreshToken(user: string, device: string, federated: bool, jti: string, ok: bool, now: int)
      returns (r: Reply)
      modifies this
      ensures View() == Store(old(View()), user, device, federated, jti, ok, now)
      ensures r == if ok then Issued(Mint(user, device, federated, jti, now)) else Failed
    {
      var t := Mint(user, device, federated, jti, now);
      book := book.(jtis := book.jtis + {jti});
      if !ok {
        return Failed;
      }
      stored := stored[t := Row(user, device, now + LIFETIME)];
      book := book.(minted := book.minted + {t});
      return Issued(t);
    }

    method ConsumeRefreshToken(t: Token, now: int) returns (r: Option<Row>)
      modifies this
      ensures r == if CanConsume(old(View()), t, now) then Some(old(stored)[t]) else None
      ensures View() == if r.Some? then Consume(old(View()), t) else old(View())
    {
      if t !in stored || now >= stored[t].expires {
        return None;
      }
      r := Some(stored[t]);
      stored := stored - {t};
      book := book.(exchanges := book.exchanges + [t]);
    }

    /** The rows of a DELETE, found one by one. */
    method DeleteRows(user: string, only: Option<string>, keep: set<string>)
      modifies this
      ensures View() == Delete(old(View()), user, only, keep)
    {
      ghost var was := stored;
      ghost var doomed := set t | t in was && Doomed(was[t], user, only, keep);
      ghost var gone: set<Token> := {};
      var rest := stored.Keys;
      while rest != {}
        invariant rest <= was.Keys && unchanged(this`book)
        invariant gone == doomed - rest
        invariant stored == was - gone
        decreases rest
      {
        var t :| t in rest;
        if Doomed(stored[t], user, only, keep) {
          stored := stored - {t};
          gone := gone + {t};
        }
        rest := rest - {t};
      }
      assert gone == doomed;
      book := book.(revoked := book.revoked + doomed);
    }

    /** Register, Login and FederationJoin, from the point where the device id is drawn. */
    method IssueTokens(user: string, device: string, federated: bool, jti: string, storeOk: bool, now: int)
      returns (r: Reply)
      modifies this
      ensures (View(), r) == Step(old(View()), Issue(user, device, federated, jti, storeOk), now)
    {
      book := book.(devices := book.devices + {device});
      r := StoreRefreshToken(user, device, federated, jti, storeOk, now);
    }

    /** RecoverAccount, and CompleteDeviceRecovery with the approver's device kept. */
    method RecoverAccount(user: string, keep: set<string>, device: string, jti: string, deviceOk: bool, storeOk: bool,
        now: int)
      returns (r: Reply)
      modifies this
      ensures (View(), r) == Step(old(View()), Recover(user, keep, device, jti, deviceOk, storeOk), now)
    {
      DeleteRows(user, None, keep);
      book := book.(devices := book.devices + {device});
      if !deviceOk {
        return Failed;
      }
      r := StoreRefreshToken(user, device, false, jti, storeOk, now);
    }

    method RefreshToken(t: Token, jti: string, storeOk: bool, now: int) returns (r: Reply)
      modifies this
      ensures (View(), r) == Step(old(View()), Refresh(t, jti, storeOk), now)
    {
      if !Acceptable(t, now) {
        return Failed;
      }
      var row := ConsumeRefreshToken(t, now);
      if row.None? {
        return Failed;
      }
      r := StoreRefreshToken(row.value.user, row.value.device, false, jti, storeOk, now);
    }

    /** Here the new pair is made from the claims, not from the row. */
    method RefreshFederated(t: Token, assertionOk: bool, userMatches: bool, jti: string, storeOk: bool, now: int)
      returns (r: Reply)
      modifies this
      ensures (View(), r) == Step(old(View()), FederationRefresh(t, assertionOk, userMatches, jti, storeOk), now)
    {
      if !Acceptable(t, now) || !assertionOk || !userMatches {
        return Failed;
      }
      var row := ConsumeRefreshToken(t, now);
      if row.None? {
        return Failed;
      }
      r := StoreRefreshToken(t.user, t.device, true, jti, storeOk, now);
    }

    method LogOut(user: string, device: string) returns (r: Reply)
      modifies this
      ensures forall now :: (View(), r) == Step(old(View()), Logout(user, device), now)
    {
      if device == "" {
        return Failed;
      }
      DeleteRows(user, Some(device), {});
      return Done;
    }
  }

  // ----- runs

  datatype Event = Event(now: int, call: Call)

  ghost function Run(s: State, events: seq<Event>): State {
    if events == [] then s
    else
      var e := events[|events| - 1];
      Step(Run(s, events[..|events| - 1]), e.call, e.now).0
  }

  ghost predicate LegalRun(s: State, events: seq<Event>) {
    forall i :: 0 <= i < |events| ==> Legal(Run(s, events[..i]), events[i].call)
  }

  /** Every row repeats its token's claims. */
  ghost predicate RowsMatch(s: State) {
    forall t :: t in s.stored ==> s.stored[t].user == t.user && s.stored[t].device == t.device
  }

  /** A device never has two unspent tokens, live or revoked: each is the last of its line. */
  ghost predicate OnePerDevice(s: State) {
    forall t, t' ::
      t in s.stored.Keys + s.book.revoked && t' in s.stored.Keys + s.book.revoked && t.device == t'.device ==> t == t'
  }

  /** Each minted token is stored, exchanged or revoked, exactly one of the three, and exchanged once. */
  ghost predicate Conserved(s: State) {
    && s.book.minted == s.stored.Keys + SetOf(s.book.exchanges) + s.book.revoked
    && s.stored.Keys !! SetOf(s.book.exchanges)
    && s.stored.Keys !! s.book.revoked
    && s.book.revoked !! SetOf(s.book.exchanges)
    && Distinct(s.book.exchanges)
  }

  ghost predicate IdsDrawn(s: State) {
    forall t :: t in s.book.minted ==> t.jti in s.book.jtis && t.device in s.book.devices
  }

  ghost predicate Inv(s: State) {
    RowsMatch(s) && OnePerDevice(s) && Conserved(s) && IdsDrawn(s)
  }

  /** A device with no unspent token: the state in which one may be stored for it. */
  ghost predicate Vacant(s: State, device: string) {
    forall t :: t in s.stored.Keys + s.book.revoked ==> t.device != device
  }

  lemma StoreKeeps(s: State, user: string, device: string, federated: bool, jti: string, ok: bool, now: int)
    requires Inv(s) && jti !in s.book.jtis && device in s.book.devices && Vacant(s, device)
    ensures Inv(Store(s, user, device, federated, jti, ok, now))
  {
    var t := Mint(user, device, federated, jti, now);
    assert t !in s.book.minted;
    var s' := Store(s, user, device, federated, jti, ok, now);
    if ok {
      assert s'.stored.Keys == s.stored.Keys + {t};
      assert Conserved(s');
      assert OnePerDevice(s');
      assert IdsDrawn(s');
    }
  }

  lemma ConsumeKeeps(s: State, t: Token)
    requires Inv(s) && t in s.stored
    ensures Inv(Consume(s, t)) && Vacant(Consume(s, t), t.device)
  {
    var s' := Consume(s, t);
    assert s'.stored.Keys == s.stored.Keys - {t};
    assert SetOf(s'.book.exchanges) == SetOf(s.book.exchanges) + {t};
    assert Distinct(s'.book.exchanges) by {
      assert t !in SetOf(s.book.exchanges);
    }
    assert Conserved(s');
    assert Vacant(s', t.device) by {
      forall t' | t' in s'.stored.Keys + s'.book.revoked ensures t'.device != t.device {
        assert t' in s.stored.Keys + s.book.revoked && t in s.stored.Keys + s.book.revoked;
      }
    }
  }

  lemma DeleteKeeps(s: State, user: string, only: Option<string>, keep: set<string>)
    requires Inv(s)
    ensures Inv(Delete(s, user, only, keep))
  {
    var s' := Delete(s, user, only, keep);
    var gone := set t | t in s.stored && Doomed(s.stored[t], user, only, keep);
    assert s'.stored.Keys == s.stored.Keys - gone;
    assert s'.stored.Keys + s'.book.revoked == s.stored.Keys + s.book.revoked;
    assert Conserved(s');
  }

  lemma NewDeviceKeeps(s: State, device: string)
    requires Inv(s) && device !in s.book.devices
    ensures Inv(NewDevice(s, device)) && Vacant(NewDevice(s, device), device)
  {
  }

  lemma StepKeeps(s: State, c: Call, now: int)
    requires Inv(s) && Legal(s, c)
    ensures Inv(Step(s, c, now).0)
  {
    match c
    case Issue(user, device, federated, jti, storeOk) =>
      NewDeviceKeeps(s, device);
      StoreKeeps(NewDevice(s, device), user, device, federated, jti, storeOk, now);
    case Recover(user, keep, device, jti, deviceOk, storeOk) =>
      DeleteKeeps(s, user, None, keep);
      var s1 := Delete(s, user, None, keep);
      NewDeviceKeeps(s1, device);
      StoreKeeps(NewDevice(s1, device), user, device, false, jti, storeOk, now);
    case Refresh(t, jti, storeOk) =>
      if Exchanges(s, c, now) {
        ConsumeKeeps(s, t);
        StoreKeeps(Consume(s, t), t.user, t.device, false, jti, storeOk, now);
      }
    case FederationRefresh(t, _, _, jti, storeOk) =>
      if Exchanges(s, c, now) {
        ConsumeKeeps(s, t);
        StoreKeeps(Consume(s, t), t.user, t.device, true, jti, storeOk, now);
      }
    case Logout(user, device) =>
      DeleteKeeps(s, user, Some(device), {});
  }

  lemma PrefixIsLegal(s: State, events: seq<Event>, n: nat)
    requires LegalRun(s, events) && n <= |events|
    ensures LegalRun(s, events[..n])
  {
    forall i | 0 <= i < n ensures Legal(Run(s, events[..n][..i]), events[..n][i].call) {
      assert events[..n][..i] == events[..i];
    }
  }

  /** The conservation laws hold in every state any run reaches. */
  lemma {:induction false} RunKeeps(s: State, events: seq<Event>)
    requires Inv(s) && LegalRun(s, events)
    ensures Inv(Run(s, events))
  {
    if events != [] {
      var n := |events| - 1;
      PrefixIsLegal(s, events, n);
      RunKeeps(s, events[..n]);
      assert Legal(Run(s, events[..n]), events[n].call);
      StepKeeps(Run(s, events[..n]), events[n].call, events[n].now);
    }
  }

  lemma StepRecords(s: State, c: Call, now: int)
    ensures s.book.exchanges <= Step(s, c, now).0.book.exchanges
    ensures Exchanges(s, c, now) ==> c.token in Step(s, c, now).0.book.exchanges
  {
    match c
    case Refresh(t, _, _) => assert t in Consume(s, t).book.exchanges;
    case FederationRefresh(t, _, _, _, _) => assert t in Consume(s, t).book.exchanges;
    case _ =>
  }

  /** An exchange made in a run stays on the books. */
  lemma {:induction false} ExchangeStays(s: State, events: seq<Event>, i: nat)
    requires i < |events| && Exchanges(Run(s, events[..i]), events[i].call, events[i].now)
    ensures events[i].call.token in Run(s, events).book.exchanges
    decreases |events|
  {
    var n := |events| - 1;
    StepRecords(Run(s, events[..n]), events[n].call, events[n].now);
    if i < n {
      assert events[..n][..i] == events[..i];
      ExchangeStays(s, events[..n], i);
    }
  }

  lemma SpentIsGone(s: State, c: Call, now: int, t: Token)
    requires Conserved(s) && t in s.book.exchanges && Exchanges(s, c, now)
    ensures c.token != t
  {
    assert t in SetOf(s.book.exchanges);
  }

  /** No token is exchanged by two calls of a run, whichever endpoints they go to. */
  lemma ExchangedOnce(events: seq<Event>, i: nat, j: nat)
    requires LegalRun(Init(), events) && i < j < |events|
    requires Exchanges(Run(Init(), events[..i]), events[i].call, events[i].now)
    requires Exchanges(Run(Init(), events[..j]), events[j].call, events[j].now)
    ensures events[i].call.token != events[j].call.token
  {
    PrefixIsLegal(Init(), events, j);
    RunKeeps(Init(), events[..j]);
    assert events[..j][..i] == events[..i];
    ExchangeStays(Init(), events[..j], i);
    SpentIsGone(Run(Init(), events[..j]), events[j].call, events[j].now, events[i].call.token);
  }

  ghost function OfDevice(ts: set<Token>, device: string): set<Token> {
    set t | t in ts && t.device == device
  }

  lemma AtMostOne(ts: set<Token>)
    requires forall t, t' :: t in ts && t' in ts ==> t == t'
    ensures |ts| <= 1
  {
    if t :| t in ts {
      assert ts == {t};
    }
  }

  lemma UnspentIsOne(s: State, device: string)
    requires OnePerDevice(s) && Conserved(s)
    ensures |OfDevice(s.book.minted, device)| <= |OfDevice(SetOf(s.book.exchanges), device)| + 1
  {
    var unspent := OfDevice(s.stored.Keys + s.book.revoked, device);
    AtMostOne(unspent);
    assert OfDevice(s.book.minted, device) == unspent + OfDevice(SetOf(s.book.exchanges), device);
  }

  /** In every reachable state a device has received at most one more token than it has given back. */
  lemma OneTokenAhead(events: seq<Event>, device: string)
    requires LegalRun(Init(), events)
    ensures
      var b := Run(Init(), events).book;
      |OfDevice(b.minted, device)| <= |OfDevice(SetOf(b.exchanges), device)| + 1
  {
    RunKeeps(Init(), events);
    UnspentIsOne(Run(Init(), events), device);
  }

  // ----- the federated claim

  /** The plain endpoint exchanges a token of the device and stores the new one. */
  predicate PlainExchange(s: State, e: Event, device: string) {
    e.call.Refresh? && e.call.storeOk && Exchanges(s, e.call, e.now) && e.call.token.device == device
  }

  /** Every token the device was given carries the claim. */
  ghost predicate AllFederated(s: State, device: string) {
    forall t :: t in s.book.minted && t.device == device ==> t.federated
  }

  lemma StepMints(s: State, c: Call, now: int)
    ensures
      var m := Minted(s, c, now);
      Step(s, c, now).0.book.minted == s.book.minted + if m.Some? then {m.value} else {}
    ensures s.book.devices <= Step(s, c, now).0.book.devices
    ensures c.Issue? || c.Recover? ==> c.device in Step(s, c, now).0.book.devices
  {
  }

  lemma {:induction false} DrawnStays(s: State, events: seq<Event>, i: nat)
    requires i < |events| && (events[i].call.Issue? || events[i].call.Recover?)
    ensures events[i].call.device in Run(s, events).book.devices
    decreases |events|
  {
    var n := |events| - 1;
    StepMints(Run(s, events[..n]), events[n].call, events[n].now);
    if i < n {
      assert events[..n][..i] == events[..i];
      DrawnStays(s, events[..n], i);
    }
  }

  /** What one call does to the claims of a device that has been drawn. */
  lemma StepKeepsClaim(s: State, e: Event, device: string)
    requires Inv(s) && Legal(s, e.call) && device in s.book.devices
    ensures AllFederated(Step(s, e.call, e.now).0, device) <==> AllFederated(s, device) && !PlainExchange(s, e, device)
  {
    StepMints(s, e.call, e.now);
    var m := Minted(s, e.call, e.now);
    if m.Some? {
      assert m.value in Step(s, e.call, e.now).0.book.minted;
    }
  }

  /** The first token of a device is minted where the device is drawn. */
  lemma IssueGivesClaim(s: State, e: Event)
    requires Inv(s) && Legal(s, e.call) && e.call.Issue? && e.call.federated
    ensures AllFederated(Step(s, e.call, e.now).0, e.call.device)
  {
    StepMints(s, e.call, e.now);
  }

  /** Call `k` of the run is such an exchange. */
  ghost predicate StripsAt(events: seq<Event>, k: nat, device: string)
    requires k < |events|
  {
    PlainExchange(Run(Init(), events[..k]), events[k], device)
  }

  lemma StripsInPrefix(events: seq<Event>, n: nat, k: nat, device: string)
    requires k < n <= |events|
    ensures StripsAt(events[..n], k, device) <==> StripsAt(events, k, device)
  {
    assert events[..n][..k] == events[..k];
  }

  ghost predicate StripsAfter(events: seq<Event>, i: nat, device: string) {
    exists k :: i < k < |events| && StripsAt(events, k, device)
  }

  lemma StripsAfterLast(events: seq<Event>, i: nat, device: string)
    requires i < |events| - 1
    ensures StripsAfter(events, i, device) <==>
      StripsAfter(events[..|events| - 1], i, device) || StripsAt(events, |events| - 1, device)
  {
    var n := |events| - 1;
    forall k | i < k < n ensures StripsAt(events[..n], k, device) <==> StripsAt(events, k, device) {
      StripsInPrefix(events, n, k, device);
    }
  }

  lemma LastKeepsClaim(events: seq<Event>, device: string)
    requires LegalRun(Init(), events) && events != []
    requires device in Run(Init(), events[..|events| - 1]).book.devices
    ensures AllFederated(Run(Init(), events), device) <==>
      AllFederated(Run(Init(), events[..|events| - 1]), device) && !StripsAt(events, |events| - 1, device)
  {
    var n := |events| - 1;
    PrefixIsLegal(Init(), events, n);
    RunKeeps(Init(), events[..n]);
    assert Legal(Run(Init(), events[..n]), events[n].call);
    StepKeepsClaim(Run(Init(), events[..n]), events[n], device);
  }

  lemma LastGivesClaim(events: seq<Event>)
    requires LegalRun(Init(), events) && events != []
    requires events[|events| - 1].call.Issue? && events[|events| - 1].call.federated
    ensures AllFederated(Run(Init(), events), events[|events| - 1].call.device)
  {
    var n := |events| - 1;
    PrefixIsLegal(Init(), events, n);
    RunKeeps(Init(), events[..n]);
    assert Legal(Run(Init(), events[..n]), events[n].call);
    IssueGivesClaim(Run(Init(), events[..n]), events[n]);
  }

  /**
   After a federated issue, every token of the device carries the claim exactly as long as none of them
   was exchanged at the plain endpoint.
   */
  lemma {:induction false} ClaimSurvivesIff(events: seq<Event>, i: nat, device: string)
    requires LegalRun(Init(), events) && i < |events|
    requires events[i].call.Issue? && events[i].call.federated && events[i].call.device == device
    ensures AllFederated(Run(Init(), events), device) <==> !StripsAfter(events, i, device)
    decreases |events|
  {
    var n := |events| - 1;
    if i == n {
      LastGivesClaim(events);
    } else {
      PrefixIsLegal(Init(), events, n);
      DrawnStays(Init(), events[..n], i);
      LastKeepsClaim(events, device);
      ClaimSurvivesIff(events[..n], i, device);
      StripsAfterLast(events, i, device);
    }
  }

  /** A federated join and one plain refresh a second later: the new pair is without the claim, and live. */
  lemma PlainRefreshDropsClaim(user: string, device: string, jti: string, jti': string)
    requires user != "" && jti != jti'
    ensures
      var t := Mint(user, device, true, jti, 0);
      var events := [Event(0, Issue(user, device, true, jti, true)), Event(1000, Refresh(t, jti', true))];
      && LegalRun(Init(), events)
      && Minted(Run(Init(), events[..1]), events[1].call, 1000) == Some(Mint(user, device, false, jti', 1000))
      && Mint(user, device, false, jti', 1000) in Run(Init(), events).stored
      && Acceptable(Mint(user, device, false, jti', 1000), 2000)
  {
    var t := Mint(user, device, true, jti, 0);
    var events := [Event(0, Issue(user, device, true, jti, true)), Event(1000, Refresh(t, jti', true))];
    assert events[..0] == [] && events[..1] == [events[0]] && events[..1][..0] == [];
    assert Run(Init(), []) == Init();
    var s1 := Run(Init(), events[..1]);
    assert s1 == Step(Init(), events[0].call, 0).0;
    assert s1.stored == map[t := Row(user, device, LIFETIME)];
    assert LegalRun(Init(), events) by {
      assert Legal(Init(), events[0].call) && Legal(s1, events[1].call);
    }
    assert Exchanges(s1, events[1].call, 1000);
  }
}
