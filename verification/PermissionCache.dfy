/**
 The permission cache (server/internal/permissions/cache.go), the two resolvers that fill it
 (resolvePermissions and resolvePermissionsBatch in server/cmd/chat/service.go) and the handlers that
 invalidate it.

 Cache keys are the triples they spell out; a Redis key lives strictly before its expiry.  Handlers are
 atomic, and a refused call changes nothing, so the mutators below stand for calls that succeed.
 */
module PermissionCache {
  import opened Common
  import opened Permissions

  const CACHE_TTL := 5 * 60

  // ----- the tables

  datatype RoleRow = RoleRow(server: string, perms: Bits)

  datatype Member = Member(roles: seq<string>, timedOutUntil: Option<int>)

  datatype Channel = Channel(server: string, group: Option<string>, companion: Option<string>)

  datatype Tables = Tables(
    owners: map<string, string>, roles: map<string, RoleRow>, members: map<(string, string), Member>,
    channels: map<string, Channel>, groups: map<string, string>, overrides: map<Slot, Override>)

  /** Whose permissions, where; an empty channel asks for the server level. */
  datatype Key = Key(user: string, server: string, channel: string)

  /** The server, its @everyone role and the membership exist. */
  predicate Resolvable(t: Tables, k: Key) {
    k.server in t.owners && k.server in t.roles && (k.user, k.server) in t.members
  }

  function RoleIds(t: Tables, k: Key): seq<string>
    requires Resolvable(t, k)
  {
    [k.server] + t.members[(k.user, k.server)].roles
  }

  predicate OnChannel(t: Tables, channel: string, slot: Slot) {
    if slot.isGroup then channel in t.channels && t.channels[channel].group == Some(slot.target)
      else slot.target == channel
  }

  /** The WHERE clause of the override query. */
  predicate Relevant(t: Tables, k: Key, slot: Slot)
    requires Resolvable(t, k)
  {
    && slot in t.overrides && k.channel != "" && OnChannel(t, k.channel, slot)
    && if slot.who.RoleWho? then slot.who.id in RoleIds(t, k) else slot.who.id == k.user
  }

  // ----- resolution from the tables, without cache or query order

  ghost function RolePerms(t: Tables, k: Key): set<Bits>
    requires Resolvable(t, k)
  {
    set r | r in t.members[(k.user, k.server)].roles && r in t.roles && t.roles[r].server == k.server ::
      t.roles[r].perms
  }

  ghost function RoleOverrides(t: Tables, k: Key, isGroup: bool): set<Override>
    requires Resolvable(t, k)
  {
    set slot | slot in t.overrides && slot.isGroup == isGroup && slot.who.RoleWho? && Relevant(t, k, slot) ::
      t.overrides[slot]
  }

  ghost function UserOverrides(t: Tables, k: Key, isGroup: bool): set<Override>
    requires Resolvable(t, k)
  {
    set slot | slot in t.overrides && slot.isGroup == isGroup && slot.who.UserWho? && Relevant(t, k, slot) ::
      t.overrides[slot]
  }

  ghost function TimeoutOf(t: Tables, k: Key): int
    requires Resolvable(t, k)
  {
    match t.members[(k.user, k.server)].timedOutUntil
    case Some(until) => until
    case None => 0
  }

  ghost function OptionSet<T>(o: Option<T>): set<T> {
    if o.Some? then {o.value} else {}
  }

  /** `i` holds what the queries read, in some order. */
  ghost predicate Reads(t: Tables, k: Key, i: Input) {
    && Resolvable(t, k)
    && i.everyone == t.roles[k.server].perms
    && i.isOwner == (t.owners[k.server] == k.user)
    && i.timedOutUntil == TimeoutOf(t, k)
    && SetOf(i.roles) == RolePerms(t, k)
    && SetOf(i.groupRoles) == RoleOverrides(t, k, true)
    && SetOf(i.channelRoles) == RoleOverrides(t, k, false)
    && OptionSet(i.groupUser) == UserOverrides(t, k, true)
    && OptionSet(i.channelUser) == UserOverrides(t, k, false)
  }

  ghost function Listing<T(!new)>(s: set<T>): (q: seq<T>)
    ensures SetOf(q) == s
  {
    if s == {} then []
    else
      var x :| x in s;
      var q := Listing(s - {x});
      assert SetOf(q + [x]) == SetOf(q) + {x};
      q + [x]
  }

  /** At most one user override per scope: the slot is determined by the key. */
  lemma OneUserOverride(t: Tables, k: Key, isGroup: bool)
    requires Resolvable(t, k)
    ensures forall o, o' :: o in UserOverrides(t, k, isGroup) && o' in UserOverrides(t, k, isGroup) ==> o == o'
  {
  }

  ghost function Only(s: set<Override>): (o: Option<Override>)
    requires forall x, y :: x in s && y in s ==> x == y
    ensures OptionSet(o) == s
  {
    if s == {} then None
    else
      var x :| x in s;
      assert s == {x};
      Some(x)
  }

  ghost function Fetch(t: Tables, k: Key): (i: Input)
    requires Resolvable(t, k)
    ensures Reads(t, k, i)
  {
    OneUserOverride(t, k, true);
    OneUserOverride(t, k, false);
    Input(
      t.roles[k.server].perms, Listing(RolePerms(t, k)), t.owners[k.server] == k.user, TimeoutOf(t, k),
      Listing(RoleOverrides(t, k, true)), Listing(RoleOverrides(t, k, false)),
      Only(UserOverrides(t, k, true)), Only(UserOverrides(t, k, false)))
  }

  /** ResolveEffective on the tables as they stand, at the given time. */
  ghost function Truth(t: Tables, k: Key, now: int): Bits
    requires Resolvable(t, k)
  {
    Effective(Fetch(t, k), now)
  }

  lemma SameBase(i: Input, j: Input, b: nat)
    requires i.everyone == j.everyone && SetOf(i.roles) == SetOf(j.roles) && InBase(i, b)
    ensures InBase(j, b)
  {
    if b !in i.everyone {
      var k :| 0 <= k < |i.roles| && b in i.roles[k];
      assert i.roles[k] in SetOf(j.roles);
    }
  }

  lemma SameOverrides(os: seq<Override>, ps: seq<Override>, b: nat)
    requires SetOf(os) == SetOf(ps)
    ensures AnyMentions(os, b) ==> AnyMentions(ps, b)
    ensures AnyAllows(os, b) ==> AnyAllows(ps, b)
  {
    forall k | 0 <= k < |os| ensures os[k] in ps {
      assert os[k] in SetOf(os);
    }
  }

  /** The order in which rows come back does not matter. */
  lemma OrderIsIrrelevant(t: Tables, k: Key, i: Input, now: int)
    requires Reads(t, k, i)
    ensures Effective(i, now) == Truth(t, k, now)
  {
    var j := Fetch(t, k);
    assert i.groupUser == j.groupUser by {
      SameOption(i.groupUser, j.groupUser);
    }
    assert i.channelUser == j.channelUser by {
      SameOption(i.channelUser, j.channelUser);
    }
    forall b: nat ensures Granted(i, now, b) <==> Granted(j, now, b) {
      SameBits(i, j, b, now);
    }
  }

  lemma SameOption(o: Option<Override>, p: Option<Override>)
    requires OptionSet(o) == OptionSet(p)
    ensures o == p
  {
    if o.Some? {
      assert o.value in OptionSet(p);
    }
  }

  lemma SameDecision(i: Input, j: Input, b: nat)
    requires i.everyone == j.everyone && i.groupUser == j.groupUser && i.channelUser == j.channelUser
    requires SetOf(i.roles) == SetOf(j.roles)
    requires SetOf(i.groupRoles) == SetOf(j.groupRoles) && SetOf(i.channelRoles) == SetOf(j.channelRoles)
    ensures InBase(i, b) == InBase(j, b) && Decided(i, b) == Decided(j, b)
  {
    if InBase(i, b) {
      SameBase(i, j, b);
    }
    if InBase(j, b) {
      SameBase(j, i, b);
    }
    SameOverrides(i.groupRoles, j.groupRoles, b);
    SameOverrides(j.groupRoles, i.groupRoles, b);
    SameOverrides(i.channelRoles, j.channelRoles, b);
    SameOverrides(j.channelRoles, i.channelRoles, b);
  }

  lemma SameBits(i: Input, j: Input, b: nat, now: int)
    requires i.everyone == j.everyone && i.isOwner == j.isOwner && i.timedOutUntil == j.timedOutUntil
    requires i.groupUser == j.groupUser && i.channelUser == j.channelUser
    requires SetOf(i.roles) == SetOf(j.roles)
    requires SetOf(i.groupRoles) == SetOf(j.groupRoles) && SetOf(i.channelRoles) == SetOf(j.channelRoles)
    ensures Granted(i, now, b) <==> Granted(j, now, b)
  {
    SameDecision(i, j, b);
    SameDecision(i, j, ADMINISTRATOR);
    SameDecision(i, j, VIEW_CHANNEL);
  }

  // ----- the cache

  datatype Entry = Entry(bits: Bits, at: int)

  type Cache = map<Key, Entry>

  predicate Hit(c: Cache, k: Key, now: int) {
    k in c && now < c[k].at + CACHE_TTL
  }

  function InvalidateUser(c: Cache, user: string, server: string): Cache {
    map k | k in c && !(k.user == user && k.server == server) :: c[k]
  }

  function InvalidateServer(c: Cache, server: string): Cache {
    map k | k in c && k.server != server :: c[k]
  }

  function InvalidateChannel(c: Cache, channel: string): Cache {
    map k | k in c && k.channel != channel :: c[k]
  }

  /** What resolvePermissions answers, and the cache it leaves. */
  ghost function Answer(t: Tables, c: Cache, k: Key, now: int): Bits
    requires Hit(c, k, now) || Resolvable(t, k)
  {
    if Hit(c, k, now) then c[k].bits else Truth(t, k, now)
  }

  ghost function Fill(t: Tables, c: Cache, k: Key, now: int): Cache {
    if Hit(c, k, now) || !Resolvable(t, k) then c else c[k := Entry(Truth(t, k, now), now)]
  }

  /** One channel after another. */
  ghost function FillAll(t: Tables, c: Cache, user: string, server: string, channels: seq<string>, now: int): Cache {
    if channels == [] then c
    else Fill(t, FillAll(t, c, user, server, channels[..|channels| - 1], now),
      Key(user, server, channels[|channels| - 1]), now)
  }

  // ----- the mutators

  datatype Action =
    | Resolve(k: Key)
    | ResolveBatch(user: string, server: string, channels: seq<string>)
    | SetMemberRoles(user: string, server: string, roles: seq<string>)
    | SetTimeout(user: string, server: string, until: Option<int>)
    | CreateRole(role: string, server: string, perms: Bits)
    | UpdateRole(role: string, perms: Bits)
    | DeleteRole(role: string)
    | ReorderRoles(server: string)
    | SetOverride(slot: Slot, override: Override)
    | DeleteOverride(slot: Slot)
    | SyncChannel(channel: string)
    | Expire(keys: set<Key>)

  function TargetServer(t: Tables, slot: Slot): Option<string> {
    if slot.isGroup then
      if slot.target in t.groups then Some(t.groups[slot.target]) else None
    else if slot.target in t.channels then Some(t.channels[slot.target].server) else None
  }

  /** The slots an override call writes: its own, and the companion's for a voice channel. */
  function Mirrored(t: Tables, slot: Slot): set<Slot> {
    if !slot.isGroup && slot.target in t.channels && t.channels[slot.target].companion.Some? then
      {slot, slot.(target := t.channels[slot.target].companion.value)}
    else {slot}
  }

  /** What the handlers check before they write. */
  ghost predicate Legal(t: Tables, a: Action) {
    match a
    case Resolve(k) => Local(t, k)
    case ResolveBatch(user, server, channels) => forall i :: 0 <= i < |channels| ==>
      Local(t, Key(user, server, channels[i]))
    case SetMemberRoles(user, server, roles) =>
      (user, server) in t.members && forall r :: r in roles ==> r in t.roles && t.roles[r].server == server
    case SetTimeout(user, server, _) => (user, server) in t.members
    case CreateRole(role, server, _) => role !in t.roles && role !in t.owners
    case UpdateRole(role, _) => role in t.roles
    case DeleteRole(role) => role in t.roles && role !in t.owners
    case ReorderRoles(server) => server in t.owners
    case SetOverride(slot, _) => TargetServer(t, slot).Some?
    case DeleteOverride(slot) => TargetServer(t, slot).Some?
    case SyncChannel(channel) => channel in t.channels && t.channels[channel].companion.None?
    case Expire(_) => true
  }

  function Write(t: Tables, a: Action): Tables {
    match a
    case SetMemberRoles(user, server, roles) =>
      if (user, server) in t.members then
        t.(members := t.members[(user, server) := t.members[(user, server)].(roles := roles)])
      else t
    case SetTimeout(user, server, until) =>
      if (user, server) in t.members then
        t.(members := t.members[(user, server) := t.members[(user, server)].(timedOutUntil := until)])
      else t
    case CreateRole(role, server, perms) => t.(roles := t.roles[role := RoleRow(server, perms)])
    case UpdateRole(role, perms) =>
      if role in t.roles then t.(roles := t.roles[role := RoleRow(t.roles[role].server, perms)]) else t
    case DeleteRole(role) =>
      t.(roles := t.roles - {role},
         members := map m | m in t.members :: t.members[m].(roles := Without(t.members[m].roles, role)),
         overrides := map slot | slot in t.overrides && slot.who != RoleWho(role) :: t.overrides[slot])
    case SetOverride(slot, override) =>
      t.(overrides := t.overrides + map s | s in Mirrored(t, slot) :: override)
    case DeleteOverride(slot) => t.(overrides := t.overrides - Mirrored(t, slot))
    case SyncChannel(channel) =>
      t.(overrides := map slot | slot in t.overrides && (slot.isGroup || slot.target != channel) :: t.overrides[slot])
    case _ => t
  }

  /** ON DELETE CASCADE on a member's role list. */
  function Without(roles: seq<string>, role: string): (r: seq<string>)
    ensures forall x :: x in r <==> x in roles && x != role
  {
    if roles == [] then []
    else
      var r := Without(roles[..|roles| - 1], role);
      assert forall x :: x in roles <==> x in roles[..|roles| - 1] || x == roles[|roles| - 1];
      if roles[|roles| - 1] == role then r else r + [roles[|roles| - 1]]
  }

  /** The invalidation each handler ends with. */
  function Invalidate(t: Tables, c: Cache, a: Action): Cache {
    match a
    case SetMemberRoles(user, server, _) => InvalidateUser(c, user, server)
    case SetTimeout(user, server, _) => InvalidateUser(c, user, server)
    case UpdateRole(role, _) => if role in t.roles then InvalidateServer(c, t.roles[role].server) else c
    case DeleteRole(role) => if role in t.roles then InvalidateServer(c, t.roles[role].server) else c
    case ReorderRoles(server) => InvalidateServer(c, server)
    case SetOverride(slot, _) =>
      if TargetServer(t, slot).Some? then InvalidateServer(c, TargetServer(t, slot).value)
      else c
    case DeleteOverride(slot) =>
      if TargetServer(t, slot).Some? then InvalidateServer(c, TargetServer(t, slot).value)
      else c
    case SyncChannel(channel) => InvalidateChannel(c, channel)
    case Expire(keys) => c - keys
    case _ => c
  }

  datatype World = World(tables: Tables, cache: Cache)

  ghost function Step(w: World, a: Action, now: int): World {
    match a
    case Resolve(k) => w.(cache := Fill(w.tables, w.cache, k, now))
    case ResolveBatch(user, server, channels) => w.(cache := FillAll(w.tables, w.cache, user, server, channels, now))
    case _ => World(Write(w.tables, a), Invalidate(w.tables, w.cache, a))
  }

  // ----- the invariant

  /** Callers resolve a channel under its own server. */
  predicate Local(t: Tables, k: Key) {
    k.channel == "" || (k.channel in t.channels && t.channels[k.channel].server == k.server)
  }

  /** Members hold roles of their own server; a server's id names its own @everyone. */
  ghost predicate MembersFit(t: Tables) {
    && (forall m, r :: m in t.members && r in t.members[m].roles ==> r in t.roles && t.roles[r].server == m.1)
    && (forall s :: s in t.owners && s in t.roles ==> t.roles[s].server == s)
  }

  /** Categories and companions lie in the channel's server. */
  ghost predicate PlacesFit(t: Tables) {
    && (forall ch :: ch in t.channels && t.channels[ch].group.Some? ==>
          t.channels[ch].group.value in t.groups && t.groups[t.channels[ch].group.value] == t.channels[ch].server)
    && (forall ch :: ch in t.channels && t.channels[ch].companion.Some? ==>
          t.channels[ch].companion.value in t.channels
            && t.channels[t.channels[ch].companion.value].server == t.channels[ch].server)
  }

  ghost predicate SlotsFit(t: Tables) {
    forall slot :: slot in t.overrides ==> TargetServer(t, slot).Some?
  }

  /** Referential integrity that the schema and the handlers keep. */
  ghost predicate WellFormed(t: Tables) {
    MembersFit(t) && PlacesFit(t) && SlotsFit(t)
  }

  /** Every cached value is what the tables now give for the time it was cached at. */
  ghost predicate Sound(t: Tables, c: Cache) {
    forall k :: k in c ==> Local(t, k) && Resolvable(t, k) && c[k].bits == Truth(t, k, c[k].at)
  }

  /** The two tables give the resolver the same rows for a key. */
  ghost predicate Agree(t: Tables, t': Tables, k: Key) {
    && Resolvable(t, k) && Resolvable(t', k)
    && t.owners[k.server] == t'.owners[k.server]
    && t.roles[k.server].perms == t'.roles[k.server].perms
    && TimeoutOf(t, k) == TimeoutOf(t', k)
    && RolePerms(t, k) == RolePerms(t', k)
    && (forall slot :: Relevant(t, k, slot) <==> Relevant(t', k, slot))
    && (forall slot :: Relevant(t, k, slot) ==> t.overrides[slot] == t'.overrides[slot])
  }

  lemma AgreeingTruth(t: Tables, t': Tables, k: Key, now: int)
    requires Agree(t, t', k)
    ensures Truth(t, k, now) == Truth(t', k, now)
  {
    SameRoleOverrides(t, t', k, true);
    SameRoleOverrides(t, t', k, false);
    OrderIsIrrelevant(t', k, Fetch(t, k), now);
  }

  lemma SameRoleOverrides(t: Tables, t': Tables, k: Key, isGroup: bool)
    requires Agree(t, t', k)
    ensures RoleOverrides(t, k, isGroup) == RoleOverrides(t', k, isGroup)
    ensures UserOverrides(t, k, isGroup) == UserOverrides(t', k, isGroup)
  {
  }

  // ----- each mutator leaves the rows of every key it does not invalidate

  lemma MemberWriteAgrees(t: Tables, a: Action, k: Key)
    requires (a.SetMemberRoles? || a.SetTimeout?) && Legal(t, a) && Resolvable(t, k)
    requires !(k.user == a.user && k.server == a.server)
    ensures Agree(t, Write(t, a), k)
  {
    var t' := Write(t, a);
    assert t'.members[(k.user, k.server)] == t.members[(k.user, k.server)];
    assert RolePerms(t, k) == RolePerms(t', k);
  }

  lemma CreateRoleAgrees(t: Tables, a: Action, k: Key)
    requires a.CreateRole? && Legal(t, a) && Resolvable(t, k) && WellFormed(t)
    ensures Agree(t, Write(t, a), k)
  {
    var t' := Write(t, a);
    forall r | r in t.members[(k.user, k.server)].roles
      ensures r in t.roles && r in t'.roles && t'.roles[r] == t.roles[r]
    {
    }
    assert RolePerms(t, k) == RolePerms(t', k);
  }

  lemma UpdateRoleAgrees(t: Tables, a: Action, k: Key)
    requires a.UpdateRole? && Legal(t, a) && Resolvable(t, k) && WellFormed(t) && k.server != t.roles[a.role].server
    ensures Agree(t, Write(t, a), k)
  {
    var t' := Write(t, a);
    forall r | r in t.members[(k.user, k.server)].roles
      ensures r in t.roles && r in t'.roles && t'.roles[r] == t.roles[r]
    {
    }
    assert RolePerms(t, k) == RolePerms(t', k);
  }

  lemma DeleteRoleAgrees(t: Tables, a: Action, k: Key)
    requires a.DeleteRole? && Legal(t, a) && Resolvable(t, k) && WellFormed(t) && k.server != t.roles[a.role].server
    ensures Agree(t, Write(t, a), k)
  {
    var t', m := Write(t, a), (k.user, k.server);
    assert a.role !in t.members[m].roles;
    assert forall r :: r in t'.members[m].roles <==> r in t.members[m].roles;
    assert forall r :: r in RoleIds(t', k) <==> r in RoleIds(t, k);
    assert RolePerms(t, k) == RolePerms(t', k);
  }

  /** An override and its mirror touch only keys of the target's server. */
  lemma MirroredIsElsewhere(t: Tables, slot: Slot, s: Slot, k: Key)
    requires WellFormed(t) && TargetServer(t, slot).Some? && s in Mirrored(t, slot)
    requires Local(t, k) && k.server != TargetServer(t, slot).value
    ensures k.channel == "" || !OnChannel(t, k.channel, s)
  {
  }

  lemma OverrideAgrees(t: Tables, a: Action, k: Key)
    requires (a.SetOverride? || a.DeleteOverride?) && Legal(t, a) && Resolvable(t, k) && WellFormed(t) && Local(t, k)
    requires k.server != TargetServer(t, a.slot).value
    ensures Agree(t, Write(t, a), k)
  {
    var t' := Write(t, a);
    forall slot ensures Relevant(t, k, slot) <==> Relevant(t', k, slot)
      ensures Relevant(t, k, slot) ==> t.overrides[slot] == t'.overrides[slot]
    {
      if slot in Mirrored(t, a.slot) {
        MirroredIsElsewhere(t, a.slot, slot, k);
      }
    }
    assert RolePerms(t, k) == RolePerms(t', k);
  }

  lemma SyncAgrees(t: Tables, a: Action, k: Key)
    requires a.SyncChannel? && Resolvable(t, k) && k.channel != a.channel
    ensures Agree(t, Write(t, a), k)
  {
    assert RolePerms(t, k) == RolePerms(Write(t, a), k);
  }

  predicate IsWrite(a: Action) {
    !a.Resolve? && !a.ResolveBatch?
  }

  /** What survives a mutator's invalidation reads the same rows after it. */
  lemma SurvivorAgrees(t: Tables, c: Cache, a: Action, k: Key)
    requires IsWrite(a) && Legal(t, a) && WellFormed(t) && Local(t, k) && Resolvable(t, k) && k in Invalidate(t, c, a)
    ensures Agree(t, Write(t, a), k)
  {
    match a
    case SetMemberRoles(_, _, _) => MemberWriteAgrees(t, a, k);
    case SetTimeout(_, _, _) => MemberWriteAgrees(t, a, k);
    case CreateRole(_, _, _) => CreateRoleAgrees(t, a, k);
    case UpdateRole(_, _) => UpdateRoleAgrees(t, a, k);
    case DeleteRole(_) => DeleteRoleAgrees(t, a, k);
    case SetOverride(_, _) => OverrideAgrees(t, a, k);
    case DeleteOverride(_) => OverrideAgrees(t, a, k);
    case SyncChannel(_) => SyncAgrees(t, a, k);
    case ReorderRoles(_) =>
    case Expire(_) =>
  }

  lemma WriteKeepsMembers(t: Tables, a: Action)
    requires IsWrite(a) && Legal(t, a) && MembersFit(t)
    ensures MembersFit(Write(t, a))
  {
    var t' := Write(t, a);
    forall m, r | m in t'.members && r in t'.members[m].roles ensures r in t'.roles && t'.roles[r].server == m.1 {
      if a.DeleteRole? {
        assert r in t.members[m].roles;
      }
    }
  }

  lemma WriteKeepsSlots(t: Tables, a: Action)
    requires IsWrite(a) && Legal(t, a) && PlacesFit(t) && SlotsFit(t)
    ensures SlotsFit(Write(t, a))
  {
    var t' := Write(t, a);
    forall s | s in t'.overrides ensures TargetServer(t, s).Some? {
      assert s in t.overrides || (a.SetOverride? && s in Mirrored(t, a.slot));
    }
  }

  lemma WriteKeepsForm(t: Tables, a: Action)
    requires IsWrite(a) && Legal(t, a) && WellFormed(t)
    ensures WellFormed(Write(t, a))
  {
    WriteKeepsMembers(t, a);
    WriteKeepsSlots(t, a);
    assert PlacesFit(Write(t, a)) by {
      assert Write(t, a).channels == t.channels && Write(t, a).groups == t.groups;
    }
  }

  lemma WriteKeepsSound(t: Tables, c: Cache, a: Action)
    requires IsWrite(a) && Legal(t, a) && WellFormed(t) && Sound(t, c)
    ensures Sound(Write(t, a), Invalidate(t, c, a))
  {
    var t', c' := Write(t, a), Invalidate(t, c, a);
    forall k | k in c' ensures Local(t', k) && Resolvable(t', k) && c'[k].bits == Truth(t', k, c'[k].at) {
      assert k in c && c'[k] == c[k];
      SurvivorAgrees(t, c, a, k);
      AgreeingTruth(t, t', k, c[k].at);
    }
  }

  lemma FillKeepsSound(t: Tables, c: Cache, k: Key, now: int)
    requires Sound(t, c) && Local(t, k)
    ensures Sound(t, Fill(t, c, k, now))
  {
    if !Hit(c, k, now) && Resolvable(t, k) {
      var c' := Fill(t, c, k, now);
      forall x | x in c' ensures Local(t, x) && Resolvable(t, x) && c'[x].bits == Truth(t, x, c'[x].at) {
        if x != k {
          assert x in c && c'[x] == c[x];
        }
      }
    }
  }

  lemma {:induction false} FillAllKeepsSound(t: Tables, c: Cache, user: string, server: string, channels: seq<string>,
      now: int)
    requires Sound(t, c) && forall i :: 0 <= i < |channels| ==> Local(t, Key(user, server, channels[i]))
    ensures Sound(t, FillAll(t, c, user, server, channels, now))
  {
    if channels != [] {
      var n := |channels| - 1;
      FillAllKeepsSound(t, c, user, server, channels[..n], now);
      FillKeepsSound(t, FillAll(t, c, user, server, channels[..n], now), Key(user, server, channels[n]), now);
    }
  }

  lemma StepKeeps(w: World, a: Action, now: int)
    requires WellFormed(w.tables) && Sound(w.tables, w.cache) && Legal(w.tables, a)
    ensures WellFormed(Step(w, a, now).tables) && Sound(Step(w, a, now).tables, Step(w, a, now).cache)
  {
    match a
    case Resolve(k) => FillKeepsSound(w.tables, w.cache, k, now);
    case ResolveBatch(user, server, channels) => FillAllKeepsSound(w.tables, w.cache, user, server, channels, now);
    case _ =>
      WriteKeepsForm(w.tables, a);
      WriteKeepsSound(w.tables, w.cache, a);
  }

  // ----- runs

  datatype Event = Event(now: int, action: Action)

  ghost function Run(w: World, events: seq<Event>): World {
    if events == [] then w
    else
      var e := events[|events| - 1];
      Step(Run(w, events[..|events| - 1]), e.action, e.now)
  }

  ghost predicate LegalRun(w: World, events: seq<Event>) {
    forall i :: 0 <= i < |events| ==> Legal(Run(w, events[..i]).tables, events[i].action)
  }

  /** In every run every cached value equals resolution on the current tables for the instant it was cached at. */
  lemma {:induction false} CacheIsSound(w: World, events: seq<Event>)
    requires WellFormed(w.tables) && Sound(w.tables, w.cache) && LegalRun(w, events)
    ensures WellFormed(Run(w, events).tables) && Sound(Run(w, events).tables, Run(w, events).cache)
  {
    if events != [] {
      var n := |events| - 1;
      var p := events[..n];
      assert LegalRun(w, p) by {
        forall i | 0 <= i < n ensures Legal(Run(w, p[..i]).tables, p[i].action) {
          assert p[..i] == events[..i];
        }
      }
      CacheIsSound(w, p);
      assert events[..n] == p && Legal(Run(w, p).tables, events[n].action);
      StepKeeps(Run(w, p), events[n].action, events[n].now);
    }
  }

  /** Time does not go backwards, and has not passed `now`. */
  ghost predicate InOrder(events: seq<Event>, now: int) {
    && (forall i, j :: 0 <= i < j < |events| ==> events[i].now <= events[j].now)
    && (forall i :: 0 <= i < |events| ==> events[i].now <= now)
  }

  ghost predicate CachedBy(c: Cache, now: int) {
    forall k :: k in c ==> c[k].at <= now
  }

  lemma {:induction false} FillAllCachedBy(t: Tables, c: Cache, user: string, server: string, channels: seq<string>,
      now: int)
    requires CachedBy(c, now)
    ensures CachedBy(FillAll(t, c, user, server, channels, now), now)
  {
    if channels != [] {
      FillAllCachedBy(t, c, user, server, channels[..|channels| - 1], now);
    }
  }

  lemma StepCachedBy(w: World, a: Action, now: int)
    requires CachedBy(w.cache, now)
    ensures CachedBy(Step(w, a, now).cache, now)
  {
    if a.ResolveBatch? {
      FillAllCachedBy(w.tables, w.cache, a.user, a.server, a.channels, now);
    } else if !a.Resolve? {
      forall k | k in Invalidate(w.tables, w.cache, a) ensures Invalidate(w.tables, w.cache, a)[k].at <= now {
        assert k in w.cache && Invalidate(w.tables, w.cache, a)[k] == w.cache[k];
      }
    }
  }

  lemma {:induction false} RunCachedBy(w: World, events: seq<Event>, now: int)
    requires w.cache == map[] && InOrder(events, now)
    ensures CachedBy(Run(w, events).cache, now)
  {
    if events != [] {
      var n := |events| - 1;
      RunCachedBy(w, events[..n], events[n].now);
      StepCachedBy(Run(w, events[..n]), events[n].action, events[n].now);
    }
  }

  /** The timeout that stood at `at` has run out by `now`. */
  predicate RanOut(i: Input, at: int, now: int) {
    0 < i.timedOutUntil && at < i.timedOutUntil <= now
  }

  /** Without its timeout the member would have exactly the two bits it leaves. */
  ghost predicate LeavesTheSame(i: Input) {
    forall b: nat :: Decided(i, VIEW_CHANNEL) && Decided(i, b) <==> b == VIEW_CHANNEL || b == READ_MESSAGE_HISTORY
  }

  lemma SameLaterIff(i: Input, at: int, now: int)
    requires at <= now
    ensures Effective(i, at) == Effective(i, now) <==>
      i.isOwner || InBase(i, ADMINISTRATOR) || !RanOut(i, at, now) || LeavesTheSame(i)
  {
    if i.isOwner || InBase(i, ADMINISTRATOR) || !RanOut(i, at, now) {
      assert forall b: nat :: Granted(i, at, b) <==> Granted(i, now, b);
    } else {
      forall b: nat ensures (b in Effective(i, at) <==> b == VIEW_CHANNEL || b == READ_MESSAGE_HISTORY)
        ensures b in Effective(i, now) <==> Decided(i, VIEW_CHANNEL) && Decided(i, b)
      {
      }
    }
  }

  /**
   Exactly when an answer is the present truth: no live entry, or a member whom no timeout touches, or
   none that has run out since the entry was cached, or one that made no difference.
   */
  lemma FreshIff(w: World, events: seq<Event>, k: Key, now: int)
    requires WellFormed(w.tables) && w.cache == map[] && LegalRun(w, events) && InOrder(events, now)
    requires Resolvable(Run(w, events).tables, k)
    ensures
      var w' := Run(w, events);
      var i := Fetch(w'.tables, k);
      Answer(w'.tables, w'.cache, k, now) == Truth(w'.tables, k, now) <==>
        || !Hit(w'.cache, k, now)
        || i.isOwner || InBase(i, ADMINISTRATOR) || !RanOut(i, w'.cache[k].at, now) || LeavesTheSame(i)
  {
    CacheIsSound(w, events);
    RunCachedBy(w, events, now);
    var w' := Run(w, events);
    if Hit(w'.cache, k, now) {
      SameLaterIff(Fetch(w'.tables, k), w'.cache[k].at, now);
    }
  }

  /** One member, who may view and send, in one server. */
  ghost function Small(): Tables {
    Tables(map["s" := "o"], map["s" := RoleRow("s", {VIEW_CHANNEL, 14})], map[("u", "s") := Member([], None)], map[],
      map[], map[])
  }

  lemma SmallTruth(until: Option<int>, now: int)
    ensures
      var k, t := Key("u", "s", ""), Write(Small(), SetTimeout("u", "s", until));
      && Resolvable(t, k)
      && (until.None? || until.value <= now ==> Truth(t, k, now) == {VIEW_CHANNEL, 14})
      && (until.Some? && 0 < until.value && now < until.value ==>
        Truth(t, k, now) == {VIEW_CHANNEL, READ_MESSAGE_HISTORY})
  {
    var k, t := Key("u", "s", ""), Write(Small(), SetTimeout("u", "s", until));
    var i := Input({VIEW_CHANNEL, 14}, [], false, if until.Some? then until.value else 0, [], [], None, None);
    assert Reads(t, k, i);
    OrderIsIrrelevant(t, k, i, now);
    assert forall b: nat :: InBase(i, b) <==> b == VIEW_CHANNEL || b == 14;
  }

  lemma TwoEvents(w: World, e0: Event, e1: Event)
    ensures
      var w1 := Step(w, e0.action, e0.now);
      && Run(w, [e0, e1]) == Step(w1, e1.action, e1.now)
      && (Legal(w.tables, e0.action) && Legal(w1.tables, e1.action) ==> LegalRun(w, [e0, e1]))
  {
    var events := [e0, e1];
    assert events[..1] == [e0] && events[..0] == [] && [e0][..0] == [];
    assert Run(w, []) == w && Run(w, [e0]) == Step(w, e0.action, e0.now);
  }

  /** A run that is answered stalely: timed out until 100, resolved at 99 and asked again at 101. */
  lemma StaleRun()
    ensures
      var k, w := Key("u", "s", ""), World(Small(), map[]);
      var events := [Event(98, SetTimeout("u", "s", Some(100))), Event(99, Resolve(k))];
      var w' := Run(w, events);
      && WellFormed(w.tables) && LegalRun(w, events) && InOrder(events, 101) && Resolvable(w'.tables, k)
      && Answer(w'.tables, w'.cache, k, 101) == {VIEW_CHANNEL, READ_MESSAGE_HISTORY}
      && Truth(w'.tables, k, 101) == {VIEW_CHANNEL, 14}
  {
    var k, w := Key("u", "s", ""), World(Small(), map[]);
    var t := Write(Small(), SetTimeout("u", "s", Some(100)));
    TwoEvents(w, Event(98, SetTimeout("u", "s", Some(100))), Event(99, Resolve(k)));
    SmallTruth(Some(100), 99);
    SmallTruth(Some(100), 101);
    assert Step(w, SetTimeout("u", "s", Some(100)), 98) == World(t, map[]);
  }

  // ----- a change is seen at once

  /** A key either resolves as before or has lost its cached value. */
  lemma UnchangedOrGone(t: Tables, c: Cache, a: Action, k: Key, at: int)
    requires WellFormed(t) && IsWrite(a) && Legal(t, a) && Local(t, k) && Resolvable(t, k) && Resolvable(Write(t, a), k)
    ensures Truth(t, k, at) == Truth(Write(t, a), k, at) || k !in Invalidate(t, c, a)
  {
    if k in Invalidate(t, c, a) {
      SurvivorAgrees(t, c, a, k);
      AgreeingTruth(t, Write(t, a), k, at);
    }
  }

  /** If a mutator changes what a key resolves to, the next answer for the key is resolved afresh. */
  lemma ChangeIsSeenAtOnce(w: World, a: Action, k: Key, at: int, now: int)
    requires WellFormed(w.tables) && IsWrite(a) && Legal(w.tables, a)
    requires Local(w.tables, k) && Resolvable(w.tables, k) && Resolvable(Write(w.tables, a), k)
    ensures
      var w' := Step(w, a, now);
      || Truth(w.tables, k, at) == Truth(w'.tables, k, at)
      || (k !in w'.cache && Answer(w'.tables, w'.cache, k, now) == Truth(w'.tables, k, now))
  {
    UnchangedOrGone(w.tables, w.cache, a, k, at);
    assert Step(w, a, now) == World(Write(w.tables, a), Invalidate(w.tables, w.cache, a));
  }

  lemma TimedOutTruth(t: Tables, k: Key, now: int)
    requires Resolvable(t, k) && t.owners[k.server] != k.user && !InBase(Fetch(t, k), ADMINISTRATOR)
      && TimedOut(Fetch(t, k), now)
    ensures Truth(t, k, now) == {VIEW_CHANNEL, READ_MESSAGE_HISTORY}
  {
  }

  lemma TimeoutKeepsBase(t: Tables, k: Key, until: Option<int>)
    requires Resolvable(t, k) && !InBase(Fetch(t, k), ADMINISTRATOR)
    ensures
      var t' := Write(t, SetTimeout(k.user, k.server, until));
      Resolvable(t', k) && t'.owners == t.owners && !InBase(Fetch(t', k), ADMINISTRATOR)
  {
    var t' := Write(t, SetTimeout(k.user, k.server, until));
    assert RolePerms(t, k) == RolePerms(t', k);
    if InBase(Fetch(t', k), ADMINISTRATOR) {
      SameBase(Fetch(t', k), Fetch(t, k), ADMINISTRATOR);
    }
  }

  /**
   A timed-out member who is neither owner nor administrator is left with viewing and reading, from the next
   answer on.
   */
  lemma TimeoutTakesEffect(w: World, k: Key, until: int, now: int)
    requires Resolvable(w.tables, k) && w.tables.owners[k.server] != k.user
      && !InBase(Fetch(w.tables, k), ADMINISTRATOR)
    requires 0 < until && now < until
    ensures
      var w' := Step(w, SetTimeout(k.user, k.server, Some(until)), now);
      Resolvable(w'.tables, k) && Answer(w'.tables, w'.cache, k, now) == {VIEW_CHANNEL, READ_MESSAGE_HISTORY}
  {
    var t' := Write(w.tables, SetTimeout(k.user, k.server, Some(until)));
    TimeoutKeepsBase(w.tables, k, Some(until));
    TimedOutTruth(t', k, now);
  }
}
