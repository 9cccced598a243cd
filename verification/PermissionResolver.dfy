/**
 The two permission resolvers and the invalidating handlers as the chat service runs them
 (server/cmd/chat/service.go and its siblings, server/internal/permissions/cache.go) over the
 override queries (server/internal/store/permission_override_store.go).  The database may return the
 rows of a query in any order: they are parameters, constrained only by what the query selects.
 */
module PermissionResolver {
  import opened Common
  import opened Permissions
  import opened PermissionCache

  /** A row of the override query, with the channel it is joined to. */
  datatype Row = Row(channel: string, isGroup: bool, isRole: bool, override: Override)

  datatype Overrides = Overrides(
    groupRoles: seq<Override>, channelRoles: seq<Override>, groupUser: Option<Override>, channelUser: Option<Override>)

  const NO_OVERRIDES := Overrides([], [], None, None)

  /** The rows are those the query selects for the user's key on each channel. */
  ghost predicate Selected(t: Tables, user: string, server: string, channels: set<string>, rows: seq<Row>) {
    forall row :: row in rows <==> row.channel in channels && FromSlot(t, Key(user, server, row.channel), row)
  }

  ghost predicate FromSlot(t: Tables, k: Key, row: Row) {
    Resolvable(t, k) && exists slot ::
      Relevant(t, k, slot) && slot.isGroup == row.isGroup && slot.who.RoleWho? == row.isRole
        && t.overrides[slot] == row.override
  }

  /** The switch of the scanning loops. */
  function Append(o: Overrides, row: Row): Overrides {
    if row.isRole then
      if row.isGroup then o.(groupRoles := o.groupRoles + [row.override])
        else o.(channelRoles := o.channelRoles + [row.override])
    else if row.isGroup then o.(groupUser := Some(row.override))
    else o.(channelUser := Some(row.override))
  }

  /** The overrides scanned for one channel. */
  function Collected(rows: seq<Row>, channel: string): Overrides {
    if rows == [] then NO_OVERRIDES
    else
      var o := Collected(rows[..|rows| - 1], channel);
      var row := rows[|rows| - 1];
      if row.channel == channel then Append(o, row) else o
  }

  lemma {:induction false} CollectedRoles(rows: seq<Row>, channel: string, o: Override)
    ensures o in Collected(rows, channel).groupRoles <==> Row(channel, true, true, o) in rows
    ensures o in Collected(rows, channel).channelRoles <==> Row(channel, false, true, o) in rows
  {
    if rows != [] {
      CollectedRoles(rows[..|rows| - 1], channel, o);
      assert rows == rows[..|rows| - 1] + [rows[|rows| - 1]];
    }
  }

  function UserOf(o: Overrides, isGroup: bool): Option<Override> {
    if isGroup then o.groupUser else o.channelUser
  }

  /** The user override found is one of the rows, and none is missed. */
  ghost predicate Reflects(found: Option<Override>, rows: seq<Row>, channel: string, isGroup: bool) {
    match found
    case Some(o) => Row(channel, isGroup, false, o) in rows
    case None => forall o :: Row(channel, isGroup, false, o) !in rows
  }

  lemma ReflectsSnoc(found: Option<Override>, rows: seq<Row>, row: Row, channel: string, isGroup: bool)
    requires Reflects(found, rows, channel, isGroup)
    ensures
      var found' :=
        if row.channel == channel && row.isGroup == isGroup && !row.isRole then Some(row.override)
        else found;
      Reflects(found', rows + [row], channel, isGroup)
  {
  }

  lemma {:induction false} CollectedUsers(rows: seq<Row>, channel: string, isGroup: bool)
    ensures Reflects(UserOf(Collected(rows, channel), isGroup), rows, channel, isGroup)
  {
    if rows != [] {
      var n := |rows| - 1;
      CollectedUsers(rows[..n], channel, isGroup);
      ReflectsSnoc(UserOf(Collected(rows[..n], channel), isGroup), rows[..n], rows[n], channel, isGroup);
      assert rows == rows[..n] + [rows[n]];
    }
  }

  ghost predicate RoleRows(t: Tables, k: Key, rolePerms: seq<Bits>) {
    Resolvable(t, k) ==> SetOf(rolePerms) == RolePerms(t, k)
  }

  function InputOf(t: Tables, k: Key, rolePerms: seq<Bits>, o: Overrides): Input
    requires Resolvable(t, k)
  {
    Input(
      t.roles[k.server].perms, rolePerms, t.owners[k.server] == k.user,
      match t.members[(k.user, k.server)].timedOutUntil { case Some(until) => until case None => 0 },
      o.groupRoles, o.channelRoles, o.groupUser, o.channelUser)
  }

  lemma CollectedRoleSets(t: Tables, k: Key, channels: set<string>, rows: seq<Row>)
    requires Resolvable(t, k) && k.channel in channels && Selected(t, k.user, k.server, channels, rows)
    ensures
      var c := Collected(rows, k.channel);
      SetOf(c.groupRoles) == RoleOverrides(t, k, true) && SetOf(c.channelRoles) == RoleOverrides(t, k, false)
  {
    forall o ensures o in Collected(rows, k.channel).groupRoles <==> o in RoleOverrides(t, k, true)
      ensures o in Collected(rows, k.channel).channelRoles <==> o in RoleOverrides(t, k, false)
    {
      CollectedRoles(rows, k.channel, o);
      assert Row(k.channel, true, true, o) in rows <==> FromSlot(t, k, Row(k.channel, true, true, o));
      assert Row(k.channel, false, true, o) in rows <==> FromSlot(t, k, Row(k.channel, false, true, o));
    }
  }

  lemma CollectedUserSet(t: Tables, k: Key, channels: set<string>, rows: seq<Row>, isGroup: bool)
    requires Resolvable(t, k) && k.channel in channels && Selected(t, k.user, k.server, channels, rows)
    ensures
      OptionSet(UserOf(Collected(rows, k.channel), isGroup)) == UserOverrides(t, k, isGroup)
  {
    CollectedUsers(rows, k.channel, isGroup);
    OneUserOverride(t, k, isGroup);
    var found := UserOf(Collected(rows, k.channel), isGroup);
    forall o ensures o in UserOverrides(t, k, isGroup) <==> Row(k.channel, isGroup, false, o) in rows {
      assert Row(k.channel, isGroup, false, o) in rows <==> FromSlot(t, k, Row(k.channel, isGroup, false, o));
    }
    if found.Some? {
      assert found.value in UserOverrides(t, k, isGroup);
    }
  }

  /** What either query collects for a channel is what resolution reads from the tables. */
  lemma CollectedReads(t: Tables, k: Key, channels: set<string>, rows: seq<Row>, rolePerms: seq<Bits>)
    requires Resolvable(t, k) && k.channel in channels && Selected(t, k.user, k.server, channels, rows)
    requires RoleRows(t, k, rolePerms)
    ensures Reads(t, k, InputOf(t, k, rolePerms, Collected(rows, k.channel)))
  {
    CollectedRoleSets(t, k, channels, rows);
    CollectedUserSet(t, k, channels, rows, true);
    CollectedUserSet(t, k, channels, rows, false);
  }

  /** GetAllOverridesForChannels: one scan, split by channel; a channel without rows has no entry. */
  method SplitByChannel(rows: seq<Row>) returns (r: map<string, Overrides>)
    ensures forall ch :: (if ch in r then r[ch] else NO_OVERRIDES) == Collected(rows, ch)
  {
    r := map[];
    for i := 0 to |rows|
      invariant forall ch :: (if ch in r then r[ch] else NO_OVERRIDES) == Collected(rows[..i], ch)
    {
      var row := rows[i];
      ghost var was := r;
      var o := if row.channel in r then r[row.channel] else NO_OVERRIDES;
      r := r[row.channel := Append(o, row)];
      forall ch ensures (if ch in r then r[ch] else NO_OVERRIDES) == Collected(rows[..i + 1], ch) {
        assert rows[..i + 1][..i] == rows[..i];
        assert (if ch in was then was[ch] else NO_OVERRIDES) == Collected(rows[..i], ch);
      }
    }
    assert rows[..|rows|] == rows;
  }

  lemma HeadIsIn(rows: seq<Row>)
    requires rows != []
    ensures exists row :: row in rows
  {
    assert rows[0] in rows;
  }

  lemma NoRowsAtServerLevel(t: Tables, user: string, server: string, rows: seq<Row>)
    requires Selected(t, user, server, {""}, rows)
    ensures rows == []
  {
    if rows != [] {
      HeadIsIn(rows);
    }
  }

  /** Resolution from fetched rows: the truth of the tables, whichever query and order they came in. */
  method ResolveFrom(t: Tables, k: Key, rolePerms: seq<Bits>, o: Overrides, now: int, ghost channels: set<string>,
      ghost rows: seq<Row>)
    returns (bits: Bits)
    requires Resolvable(t, k) && k.channel in channels && Selected(t, k.user, k.server, channels, rows)
    requires RoleRows(t, k, rolePerms) && o == Collected(rows, k.channel)
    ensures bits == Truth(t, k, now)
  {
    var input := InputOf(t, k, rolePerms, o);
    bits := ResolveEffective(input, now);
    CollectedReads(t, k, channels, rows, rolePerms);
    OrderIsIrrelevant(t, k, input, now);
  }

  /** A miss, resolved by the single query. */
  method ResolveMiss(t: Tables, k: Key, rolePerms: seq<Bits>, rows: seq<Row>, now: int) returns (bits: Bits)
    requires Resolvable(t, k) && RoleRows(t, k, rolePerms) && Selected(t, k.user, k.server, {k.channel}, rows)
    ensures bits == Truth(t, k, now)
  {
    var o := NO_OVERRIDES;
    if k.channel != "" {
      var split := SplitByChannel(rows);
      o := if k.channel in split then split[k.channel] else NO_OVERRIDES;
    } else {
      NoRowsAtServerLevel(t, k.user, k.server, rows);
    }
    bits := ResolveFrom(t, k, rolePerms, o, now, {k.channel}, rows);
  }

  ghost predicate AllResolved(t: Tables, c: Cache, user: string, server: string, channels: seq<string>, now: int,
      r: map<string, Bits>) {
    && r.Keys == SetOf(channels)
    && forall ch :: ch in channels ==>
         var k := Key(user, server, ch);
         (Hit(c, k, now) || Resolvable(t, k)) && r[ch] == Answer(t, c, k, now)
  }

  /** The channels the cache does not answer, in order. */
  function Misses(c: Cache, user: string, server: string, channels: seq<string>, now: int): seq<string> {
    if channels == [] then []
    else
      var rest := Misses(c, user, server, channels[..|channels| - 1], now);
      var ch := channels[|channels| - 1];
      if Hit(c, Key(user, server, ch), now) then rest else rest + [ch]
  }

  lemma {:induction false} MissesAre(c: Cache, user: string, server: string, channels: seq<string>, now: int)
    ensures forall ch :: ch in Misses(c, user, server, channels, now) <==>
      ch in channels && !Hit(c, Key(user, server, ch), now)
  {
    if channels != [] {
      MissesAre(c, user, server, channels[..|channels| - 1], now);
      assert channels == channels[..|channels| - 1] + [channels[|channels| - 1]];
    }
  }

  /** The first loop of the batch resolver: hits answered, misses listed. */
  method SplitHits(c: Cache, user: string, server: string, channels: seq<string>, now: int)
    returns (hits: map<string, Bits>, misses: seq<string>)
    ensures forall ch :: ch in hits <==> ch in channels && Hit(c, Key(user, server, ch), now)
    ensures forall ch :: ch in hits ==> Key(user, server, ch) in c && hits[ch] == c[Key(user, server, ch)].bits
    ensures misses == Misses(c, user, server, channels, now)
  {
    hits, misses := map[], [];
    for i := 0 to |channels|
      invariant forall ch :: ch in hits <==> ch in channels[..i] && Hit(c, Key(user, server, ch), now)
      invariant forall ch :: ch in hits ==> Key(user, server, ch) in c && hits[ch] == c[Key(user, server, ch)].bits
      invariant misses == Misses(c, user, server, channels[..i], now)
    {
      var k := Key(user, server, channels[i]);
      SetOfPrefix(channels, i);
      assert forall ch :: ch in channels[..i + 1] <==> ch in channels[..i] || ch == channels[i];
      if Hit(c, k, now) {
        hits := hits[channels[i] := c[k].bits];
      } else {
        misses := misses + [channels[i]];
      }
    }
    assert channels[..|channels|] == channels;
  }

  /** The cache after resolving the channels one by one, given what each key resolves to. */
  ghost function FillEach(truth: Key -> Bits, c: Cache, user: string, server: string, channels: seq<string>,
      now: int): Cache {
    if channels == [] then c
    else FillWith(truth, FillEach(truth, c, user, server, channels[..|channels| - 1], now),
      Key(user, server, channels[|channels| - 1]), now)
  }

  ghost function FillWith(truth: Key -> Bits, c: Cache, k: Key, now: int): Cache {
    if Hit(c, k, now) then c else c[k := Entry(truth(k), now)]
  }

  ghost function Truths(t: Tables, now: int): Key -> Bits {
    k => if Resolvable(t, k) then Truth(t, k, now) else {}
  }

  lemma FillIs(t: Tables, c: Cache, k: Key, now: int)
    requires Resolvable(t, k)
    ensures Fill(t, c, k, now) == FillWith(Truths(t, now), c, k, now)
  {
  }

  lemma {:induction false} FillAllIs(t: Tables, c: Cache, user: string, server: string, channels: seq<string>, now: int)
    requires Resolvable(t, Key(user, server, ""))
    ensures FillAll(t, c, user, server, channels, now) == FillEach(Truths(t, now), c, user, server, channels, now)
  {
    if channels != [] {
      var n := |channels| - 1;
      FillAllIs(t, c, user, server, channels[..n], now);
      FillIs(t, FillAll(t, c, user, server, channels[..n], now), Key(user, server, channels[n]), now);
    }
  }

  ghost predicate Missing(c: Cache, user: string, server: string, channels: seq<string>, now: int) {
    forall i :: 0 <= i < |channels| ==> !Hit(c, Key(user, server, channels[i]), now)
  }

  ghost predicate SameAt(c: Cache, c': Cache, k: Key) {
    (k in c' <==> k in c) && (k in c ==> c'[k] == c[k])
  }

  /** `k` holds the value resolved at `now`. */
  ghost predicate FilledAt(truth: Key -> Bits, c: Cache, k: Key, now: int) {
    k in c && c[k] == Entry(truth(k), now)
  }

  lemma MissingPrefix(c: Cache, user: string, server: string, channels: seq<string>, now: int, n: nat)
    requires Missing(c, user, server, channels, now) && n <= |channels|
    ensures Missing(c, user, server, channels[..n], now)
  {
    forall i | 0 <= i < n ensures !Hit(c, Key(user, server, channels[..n][i]), now) {
      assert channels[..n][i] == channels[i];
    }
  }

  /** After filling some misses, a channel's entry is the filled one or still the old one. */
  lemma {:induction false} FilledEntry(truth: Key -> Bits, c: Cache, user: string, server: string,
      channels: seq<string>, now: int, ch: string)
    requires Missing(c, user, server, channels, now)
    ensures
      var k, c' := Key(user, server, ch), FillEach(truth, c, user, server, channels, now);
      if ch in channels then FilledAt(truth, c', k, now) else SameAt(c, c', k)
  {
    if channels != [] {
      var n := |channels| - 1;
      MissingPrefix(c, user, server, channels, now, n);
      FilledEntry(truth, c, user, server, channels[..n], now, ch);
      assert ch in channels <==> ch in channels[..n] || ch == channels[n];
      assert !Hit(c, Key(user, server, channels[n]), now);
    }
  }

  lemma SetOfPrefix(q: seq<string>, i: nat)
    requires i < |q|
    ensures q[..i + 1][..i] == q[..i] && SetOf(q[..i + 1]) == SetOf(q[..i]) + {q[i]}
  {
    assert q[..i + 1] == q[..i] + [q[i]];
  }

  /** Filling one more miss is one more write, even for a channel asked for twice. */
  lemma FillOneMore(truth: Key -> Bits, c: Cache, user: string, server: string, misses: seq<string>, i: nat, now: int)
    requires Missing(c, user, server, misses, now) && i < |misses|
    ensures
      var k := Key(user, server, misses[i]);
      FillEach(truth, c, user, server, misses[..i + 1], now) ==
        FillEach(truth, c, user, server, misses[..i], now)[k := Entry(truth(k), now)]
  {
    MissingPrefix(c, user, server, misses, now, i);
    FilledEntry(truth, c, user, server, misses[..i], now, misses[i]);
    SetOfPrefix(misses, i);
  }

  /** The first `i` misses are resolved and cached. */
  ghost predicate Reached(truth: Key -> Bits, c: Cache, user: string, server: string, misses: seq<string>, now: int,
      i: nat, c': Cache, r: map<string, Bits>) {
    && i <= |misses| && c' == FillEach(truth, c, user, server, misses[..i], now)
    && r.Keys == SetOf(misses[..i]) && forall ch :: ch in r ==> r[ch] == truth(Key(user, server, ch))
  }

  lemma ReachedNext(truth: Key -> Bits, c: Cache, user: string, server: string, misses: seq<string>, now: int, i: nat,
      c': Cache, r: map<string, Bits>)
    requires Missing(c, user, server, misses, now) && i < |misses|
      && Reached(truth, c, user, server, misses, now, i, c', r)
    ensures
      var k := Key(user, server, misses[i]);
      Reached(truth, c, user, server, misses, now, i + 1, c'[k := Entry(truth(k), now)], r[misses[i] := truth(k)])
  {
    FillOneMore(truth, c, user, server, misses, i, now);
    SetOfPrefix(misses, i);
  }

  /** What the second loop computes for its channel. */
  method ResolveJoined(t: Tables, user: string, server: string, misses: seq<string>, i: nat,
      split: map<string, Overrides>, rolePerms: seq<Bits>, ghost rows: seq<Row>, now: int) returns (bits: Bits)
    requires i < |misses| && Selected(t, user, server, SetOf(misses), rows)
    requires Resolvable(t, Key(user, server, misses[i])) && RoleRows(t, Key(user, server, misses[i]), rolePerms)
    requires forall ch :: (if ch in split then split[ch] else NO_OVERRIDES) == Collected(rows, ch)
    ensures bits == Truths(t, now)(Key(user, server, misses[i]))
  {
    var ch := misses[i];
    var o := if ch in split then split[ch] else NO_OVERRIDES;
    bits := ResolveFrom(t, Key(user, server, ch), rolePerms, o, now, SetOf(misses), rows);
  }

  /** The second loop: every miss resolved from the one joined query and cached. */
  method ResolveMisses(t: Tables, c: Cache, user: string, server: string, misses: seq<string>, rolePerms: seq<Bits>,
      rows: seq<Row>, now: int)
    returns (c': Cache, r: map<string, Bits>)
    requires Missing(c, user, server, misses, now) && Resolvable(t, Key(user, server, ""))
    requires forall i :: 0 <= i < |misses| ==> RoleRows(t, Key(user, server, misses[i]), rolePerms)
    requires Selected(t, user, server, SetOf(misses), rows)
    ensures c' == FillEach(Truths(t, now), c, user, server, misses, now)
    ensures r.Keys == SetOf(misses) && forall ch :: ch in r ==> r[ch] == Truths(t, now)(Key(user, server, ch))
  {
    var split := SplitByChannel(rows);
    ghost var truth := Truths(t, now);
    c', r := c, map[];
    for i := 0 to |misses|
      invariant Reached(truth, c, user, server, misses, now, i, c', r)
    {
      var bits := ResolveJoined(t, user, server, misses, i, split, rolePerms, rows, now);
      ReachedNext(truth, c, user, server, misses, now, i, c', r);
      c' := c'[Key(user, server, misses[i]) := Entry(bits, now)];
      r := r[misses[i] := bits];
    }
    ReachedAll(truth, c, user, server, misses, now, c', r);
  }

  lemma ReachedAll(truth: Key -> Bits, c: Cache, user: string, server: string, misses: seq<string>, now: int,
      c': Cache, r: map<string, Bits>)
    requires Reached(truth, c, user, server, misses, now, |misses|, c', r)
    ensures c' == FillEach(truth, c, user, server, misses, now)
    ensures r.Keys == SetOf(misses) && forall ch :: ch in r ==> r[ch] == truth(Key(user, server, ch))
  {
    assert misses[..|misses|] == misses;
  }

  lemma MissesAreMissing(c: Cache, user: string, server: string, channels: seq<string>, now: int)
    ensures Missing(c, user, server, Misses(c, user, server, channels, now), now)
  {
    MissesAre(c, user, server, channels, now);
    var misses := Misses(c, user, server, channels, now);
    forall i | 0 <= i < |misses| ensures !Hit(c, Key(user, server, misses[i]), now) {
      assert misses[i] in misses;
    }
  }

  /** Resolving the channels one by one writes the misses and nothing else. */
  lemma {:induction false} FillSkipsHits(truth: Key -> Bits, c: Cache, user: string, server: string,
      channels: seq<string>, now: int)
    ensures FillEach(truth, c, user, server, channels, now) ==
      FillEach(truth, c, user, server, Misses(c, user, server, channels, now), now)
  {
    if channels != [] {
      var n := |channels| - 1;
      FillSkipsHits(truth, c, user, server, channels[..n], now);
      var rest := Misses(c, user, server, channels[..n], now);
      var k := Key(user, server, channels[n]);
      if Hit(c, k, now) {
        MissesAre(c, user, server, channels[..n], now);
        MissesAreMissing(c, user, server, channels[..n], now);
        FilledEntry(truth, c, user, server, rest, now, channels[n]);
      } else {
        assert (rest + [channels[n]])[..|rest|] == rest;
      }
    }
  }

  /** The joined query loses nothing by requiring the channel row. */
  lemma JoinFindsTheChannel(t: Tables, k: Key, slot: Slot)
    requires SlotsFit(t) && Resolvable(t, k) && Relevant(t, k, slot)
    ensures k.channel in t.channels
  {
    assert TargetServer(t, slot).Some?;
  }

  /** Channel by channel, the answers are the single resolver's. */
  lemma MergedAnswers(t: Tables, c: Cache, user: string, server: string, channels: seq<string>, now: int,
      hits: map<string, Bits>, found: map<string, Bits>)
    requires Resolvable(t, Key(user, server, ""))
    requires forall ch :: ch in hits <==> ch in channels && Hit(c, Key(user, server, ch), now)
    requires forall ch :: ch in hits ==> Key(user, server, ch) in c && hits[ch] == c[Key(user, server, ch)].bits
    requires found.Keys == SetOf(Misses(c, user, server, channels, now))
    requires forall ch :: ch in found ==> found[ch] == Truths(t, now)(Key(user, server, ch))
    ensures AllResolved(t, c, user, server, channels, now, hits + found)
  {
    MissesAre(c, user, server, channels, now);
    assert (hits + found).Keys == SetOf(channels);
  }

  class Resolver {
    var tables: Tables
    var cache: Cache

    constructor (t: Tables)
      ensures tables == t && cache == map[]
    {
      tables, cache := t, map[];
    }

    /** resolvePermissions: one channel, or the server level for an empty channel. */
    method ResolvePermissions(k: Key, rolePerms: seq<Bits>, rows: seq<Row>, now: int) returns (r: Option<Bits>)
      requires RoleRows(tables, k, rolePerms) && Selected(tables, k.user, k.server, {k.channel}, rows)
      modifies this`cache
      ensures cache == Fill(tables, old(cache), k, now)
      ensures r.Some? <==> Hit(old(cache), k, now) || Resolvable(tables, k)
      ensures r.Some? ==> r.value == Answer(tables, old(cache), k, now)
    {
      if Hit(cache, k, now) {
        return Some(cache[k].bits);
      }
      if !Resolvable(tables, k) {
        return None;
      }
      var bits := ResolveMiss(tables, k, rolePerms, rows, now);
      cache := cache[k := Entry(bits, now)];
      return Some(bits);
    }

    /**
     resolvePermissionsBatch: on success its answers are the single resolver's, channel by channel, and
     the cache is the one that resolving them one after another would leave.
     */
    method ResolvePermissionsBatch(user: string, server: string, channels: seq<string>, rolePerms: seq<Bits>,
        rows: seq<Row>, now: int)
      returns (r: Option<map<string, Bits>>)
      requires forall i :: 0 <= i < |channels| ==> RoleRows(tables, Key(user, server, channels[i]), rolePerms)
      requires Selected(tables, user, server, SetOf(Misses(cache, user, server, channels, now)), rows)
      modifies this`cache
      ensures r.None? <==>
        Misses(old(cache), user, server, channels, now) != [] && !Resolvable(tables, Key(user, server, ""))
      ensures r.None? ==> cache == old(cache)
      ensures r.Some? ==> AllResolved(tables, old(cache), user, server, channels, now, r.value)
      ensures r.Some? ==> cache == FillAll(tables, old(cache), user, server, channels, now)
    {
      ghost var was := cache;
      var hits, misses := SplitHits(cache, user, server, channels, now);
      MissesAre(cache, user, server, channels, now);
      if misses == [] {
        AllHits(tables, cache, user, server, channels, now);
        return Some(hits);
      }
      if !Resolvable(tables, Key(user, server, "")) {
        return None;
      }
      MissesAreMissing(cache, user, server, channels, now);
      forall i | 0 <= i < |misses| ensures RoleRows(tables, Key(user, server, misses[i]), rolePerms) {
        assert misses[i] in channels;
      }
      var filled, found := ResolveMisses(tables, cache, user, server, misses, rolePerms, rows, now);
      FillSkipsHits(Truths(tables, now), cache, user, server, channels, now);
      FillAllIs(tables, cache, user, server, channels, now);
      MergedAnswers(tables, cache, user, server, channels, now, hits, found);
      cache := filled;
      return Some(hits + found);
    }

    /** The write and its invalidation, after which every cached value is still what the tables give. */
    ghost predicate Did(was: World, a: Action)
      reads this
    {
      && IsWrite(a) && tables == Write(was.tables, a) && cache == Invalidate(was.tables, was.cache, a)
      && (Legal(was.tables, a) && Trusted(was.tables, was.cache) ==> Trusted(tables, cache))
    }

    lemma WriteIsDone(was: World, a: Action)
      requires IsWrite(a) && tables == Write(was.tables, a) && cache == Invalidate(was.tables, was.cache, a)
      ensures Did(was, a)
    {
      if Legal(was.tables, a) && Trusted(was.tables, was.cache) {
        WriteKeepsForm(was.tables, a);
        WriteKeepsSound(was.tables, was.cache, a);
      }
    }

    method SetMemberRoles(user: string, server: string, roles: seq<string>)
      requires (user, server) in tables.members
      modifies this
      ensures Did(old(World(tables, cache)), Action.SetMemberRoles(user, server, roles))
    {
      ghost var was := World(tables, cache);
      var m := tables.members[(user, server)];
      tables := tables.(members := tables.members[(user, server) := Member(roles, m.timedOutUntil)]);
      cache := DeleteByPattern(cache, UserPattern(user, server));
      WriteIsDone(was, Action.SetMemberRoles(user, server, roles));
    }

    /** TimeoutMember, and RemoveTimeout with None. */
    method TimeoutMember(user: string, server: string, until: Option<int>)
      requires (user, server) in tables.members
      modifies this
      ensures Did(old(World(tables, cache)), SetTimeout(user, server, until))
    {
      ghost var was := World(tables, cache);
      var m := tables.members[(user, server)];
      tables := tables.(members := tables.members[(user, server) := Member(m.roles, until)]);
      cache := DeleteByPattern(cache, UserPattern(user, server));
      WriteIsDone(was, SetTimeout(user, server, until));
    }

    method UpdateRole(role: string, perms: Bits)
      requires role in tables.roles
      modifies this
      ensures Did(old(World(tables, cache)), Action.UpdateRole(role, perms))
    {
      ghost var was := World(tables, cache);
      var server := tables.roles[role].server;
      tables := tables.(roles := tables.roles[role := RoleRow(server, perms)]);
      cache := DeleteByPattern(cache, ServerPattern(server));
      WriteIsDone(was, Action.UpdateRole(role, perms));
    }

    /** The role goes, and with it its assignments and its overrides. */
    method DeleteRole(role: string)
      requires role in tables.roles
      modifies this
      ensures Did(old(World(tables, cache)), Action.DeleteRole(role))
    {
      ghost var was := World(tables, cache);
      var server := tables.roles[role].server;
      tables := tables.(
        roles := tables.roles - {role},
        members := map m | m in tables.members :: tables.members[m].(roles := Without(tables.members[m].roles, role)),
        overrides := map slot | slot in tables.overrides && slot.who != RoleWho(role) :: tables.overrides[slot]);
      cache := DeleteByPattern(cache, ServerPattern(server));
      WriteIsDone(was, Action.DeleteRole(role));
    }

    /** Positions do not enter resolution; the server's entries go all the same. */
    method ReorderRoles(server: string)
      modifies this
      ensures Did(old(World(tables, cache)), Action.ReorderRoles(server))
    {
      ghost var was := World(tables, cache);
      cache := DeleteByPattern(cache, ServerPattern(server));
      WriteIsDone(was, Action.ReorderRoles(server));
    }

    method SetPermissionOverride(slot: Slot, o: Override)
      requires TargetServer(tables, slot).Some?
      modifies this
      ensures Did(old(World(tables, cache)), SetOverride(slot, o))
    {
      var server := TargetServer(tables, slot).value;
      ghost var was := World(tables, cache);
      var overrides := tables.overrides[slot := o];
      if !slot.isGroup && tables.channels[slot.target].companion.Some? {
        overrides := overrides[slot.(target := tables.channels[slot.target].companion.value) := o];
      }
      assert overrides == Write(was.tables, SetOverride(slot, o)).overrides;
      tables := tables.(overrides := overrides);
      cache := DeleteByPattern(cache, ServerPattern(server));
      WriteIsDone(was, SetOverride(slot, o));
    }

    method DeletePermissionOverride(slot: Slot)
      requires TargetServer(tables, slot).Some?
      modifies this
      ensures Did(old(World(tables, cache)), DeleteOverride(slot))
    {
      var server := TargetServer(tables, slot).value;
      ghost var was := World(tables, cache);
      var overrides := tables.overrides - {slot};
      if !slot.isGroup && tables.channels[slot.target].companion.Some? {
        overrides := overrides - {slot.(target := tables.channels[slot.target].companion.value)};
      }
      assert overrides == Write(was.tables, DeleteOverride(slot)).overrides;
      tables := tables.(overrides := overrides);
      cache := DeleteByPattern(cache, ServerPattern(server));
      WriteIsDone(was, DeleteOverride(slot));
    }

    /** A channel without a companion: its own rows go, and the entries of the channel. */
    method SyncChannelPermissions(channel: string)
      modifies this
      ensures Did(old(World(tables, cache)), SyncChannel(channel))
    {
      ghost var was := World(tables, cache);
      tables := tables.(overrides :=
        map slot | slot in tables.overrides && (slot.isGroup || slot.target != channel) :: tables.overrides[slot]);
      cache := DeleteByPattern(cache, ChannelPattern(channel));
      WriteIsDone(was, SyncChannel(channel));
    }
  }

  /** Every cached value is what the tables give for the time it was cached at. */
  ghost predicate Trusted(t: Tables, c: Cache) {
    WellFormed(t) && Sound(t, c)
  }

  lemma {:induction false} AllHits(t: Tables, c: Cache, user: string, server: string, channels: seq<string>, now: int)
    requires Misses(c, user, server, channels, now) == []
    ensures FillAll(t, c, user, server, channels, now) == c
    ensures forall i :: 0 <= i < |channels| ==> Hit(c, Key(user, server, channels[i]), now)
  {
    if channels != [] {
      AllHits(t, c, user, server, channels[..|channels| - 1], now);
      assert channels == channels[..|channels| - 1] + [channels[|channels| - 1]];
    }
  }

  // ----- the mutators and their invalidation

  /** The three key patterns of the cache. */
  datatype Pattern =
    | UserPattern(user: string, server: string)
    | ServerPattern(server: string)
    | ChannelPattern(channel: string)

  predicate Matches(p: Pattern, k: Key) {
    match p
    case UserPattern(user, server) => k.user == user && k.server == server
    case ServerPattern(server) => k.server == server
    case ChannelPattern(channel) => k.channel == channel
  }

  function Remaining(c: Cache, p: Pattern): Cache {
    map k | k in c && !Matches(p, k) :: c[k]
  }

  /** deleteByPattern: scans the keys in any order and deletes those that match. */
  method DeleteByPattern(c: Cache, p: Pattern) returns (r: Cache)
    ensures r == Remaining(c, p)
  {
    r := c;
    var rest := c.Keys;
    while rest != {}
      invariant rest <= c.Keys
      invariant r == map k | k in c && (k in rest || !Matches(p, k)) :: c[k]
      decreases rest
    {
      var k :| k in rest;
      if Matches(p, k) {
        r := r - {k};
      }
      rest := rest - {k};
    }
  }
}
