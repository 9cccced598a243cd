/**
 Which rows permission resolution reads, said of the tables alone, and what follows for a channel that is
 hidden from @everyone.
 */
module ResolutionLaws {
  import opened Common
  import opened Permissions
  import opened PermissionCache

  /** A role override of the target for @everyone, whose role has the server's id, or for a role of the member. */
  ghost predicate RoleRowOn(t: Tables, user: string, server: string, isGroup: bool, target: string, o: Override)
    requires (user, server) in t.members
  {
    exists r ::
      && (r == server || r in t.members[(user, server)].roles)
      && Slot(isGroup, target, RoleWho(r)) in t.overrides && o == t.overrides[Slot(isGroup, target, RoleWho(r))]
  }

  /** The override of the target for the user, if there is one. */
  ghost function UserRowOn(t: Tables, user: string, isGroup: bool, target: string): Option<Override> {
    if Slot(isGroup, target, UserWho(user)) in t.overrides then Some(t.overrides[Slot(isGroup, target, UserWho(user))])
    else None
  }

  /** The category of a channel that exists and is in one. */
  function CategoryOf(t: Tables, channel: string): Option<string> {
    if channel in t.channels then t.channels[channel].group else None
  }

  /** The input that member and channel have by the tables, in some order of rows. */
  ghost predicate Describes(t: Tables, user: string, server: string, channel: string, i: Input)
    requires server in t.owners && server in t.roles && (user, server) in t.members
  {
    var m, category := t.members[(user, server)], CategoryOf(t, channel);
    && i.everyone == t.roles[server].perms && (i.isOwner <==> t.owners[server] == user)
    && i.timedOutUntil == (if m.timedOutUntil.Some? then m.timedOutUntil.value else 0)
    && (forall p :: p in i.roles <==>
          exists r :: r in m.roles && r in t.roles && t.roles[r].server == server && p == t.roles[r].perms)
    && (forall o :: o in i.channelRoles <==> channel != "" && RoleRowOn(t, user, server, false, channel, o))
    && (forall o :: o in i.groupRoles <==>
          channel != "" && category.Some? && RoleRowOn(t, user, server, true, category.value, o))
    && i.channelUser == (if channel != "" then UserRowOn(t, user, false, channel) else None)
    && i.groupUser == (if channel != "" && category.Some? then UserRowOn(t, user, true, category.value) else None)
  }

  /**
   A row is read exactly when it lies on the channel or its category and is for @everyone, a role of the
   member, or the member.
   */
  lemma RowIsReadIff(t: Tables, user: string, server: string, channel: string, slot: Slot)
    requires server in t.owners && server in t.roles && (user, server) in t.members
    ensures Relevant(t, Key(user, server, channel), slot) <==>
      && slot in t.overrides && channel != ""
      && (if slot.isGroup then CategoryOf(t, channel) == Some(slot.target) else slot.target == channel)
      && (|| slot.who == RoleWho(server) || slot.who == UserWho(user)
          || exists r :: r in t.members[(user, server)].roles && slot.who == RoleWho(r))
  {
  }

  lemma ChannelRowsAre(t: Tables, user: string, server: string, channel: string, o: Override)
    requires server in t.owners && server in t.roles && (user, server) in t.members
    ensures o in RoleOverrides(t, Key(user, server, channel), false) <==>
      channel != "" && RoleRowOn(t, user, server, false, channel, o)
  {
    var k := Key(user, server, channel);
    if o in RoleOverrides(t, k, false) {
      var slot :|
        && slot in t.overrides && !slot.isGroup && slot.who.RoleWho? && Relevant(t, k, slot)
        && o == t.overrides[slot];
      RowIsReadIff(t, user, server, channel, slot);
      assert slot == Slot(false, channel, RoleWho(slot.who.id));
    }
    if channel != "" && RoleRowOn(t, user, server, false, channel, o) {
      var r :|
        && (r == server || r in t.members[(user, server)].roles)
        && Slot(false, channel, RoleWho(r)) in t.overrides && o == t.overrides[Slot(false, channel, RoleWho(r))];
      RowIsReadIff(t, user, server, channel, Slot(false, channel, RoleWho(r)));
    }
  }

  lemma CategoryRowsAre(t: Tables, user: string, server: string, channel: string, o: Override)
    requires server in t.owners && server in t.roles && (user, server) in t.members
    ensures o in RoleOverrides(t, Key(user, server, channel), true) <==>
      && channel != "" && CategoryOf(t, channel).Some?
      && RoleRowOn(t, user, server, true, CategoryOf(t, channel).value, o)
  {
    var k, category := Key(user, server, channel), CategoryOf(t, channel);
    if o in RoleOverrides(t, k, true) {
      var slot :|
        && slot in t.overrides && slot.isGroup && slot.who.RoleWho? && Relevant(t, k, slot)
        && o == t.overrides[slot];
      RowIsReadIff(t, user, server, channel, slot);
      assert slot == Slot(true, category.value, RoleWho(slot.who.id));
    }
    if channel != "" && category.Some? && RoleRowOn(t, user, server, true, category.value, o) {
      var r :|
        && (r == server || r in t.members[(user, server)].roles)
        && Slot(true, category.value, RoleWho(r)) in t.overrides
        && o == t.overrides[Slot(true, category.value, RoleWho(r))];
      RowIsReadIff(t, user, server, channel, Slot(true, category.value, RoleWho(r)));
    }
  }

  lemma UserRowsAre(t: Tables, user: string, server: string, channel: string)
    requires server in t.owners && server in t.roles && (user, server) in t.members
    ensures
      var k, category := Key(user, server, channel), CategoryOf(t, channel);
      && UserOverrides(t, k, false) == OptionSet(if channel != "" then UserRowOn(t, user, false, channel) else None)
      && UserOverrides(t, k, true) ==
           OptionSet(if channel != "" && category.Some? then UserRowOn(t, user, true, category.value) else None)
  {
    var k, category := Key(user, server, channel), CategoryOf(t, channel);
    forall slot ensures Relevant(t, k, slot) && slot.who.UserWho? ==>
      slot == Slot(slot.isGroup, if slot.isGroup then category.value else channel, UserWho(user))
    {
      RowIsReadIff(t, user, server, channel, slot);
    }
    RowIsReadIff(t, user, server, channel, Slot(false, channel, UserWho(user)));
    if category.Some? {
      RowIsReadIff(t, user, server, channel, Slot(true, category.value, UserWho(user)));
    }
  }

  lemma SetOfIs<T>(q: seq<T>, s: set<T>)
    ensures SetOf(q) == s <==> forall x :: x in q <==> x in s
  {
    assert forall x :: x in SetOf(q) <==> x in q;
  }

  lemma OptionSetIs(o: Option<Override>, p: Option<Override>)
    ensures OptionSet(o) == OptionSet(p) <==> o == p
  {
    if OptionSet(o) == OptionSet(p) {
      SameOption(o, p);
    }
  }

  lemma RolesAre(t: Tables, user: string, server: string, channel: string, i: Input)
    requires server in t.owners && server in t.roles && (user, server) in t.members
    ensures SetOf(i.roles) == RolePerms(t, Key(user, server, channel)) <==>
      forall p :: p in i.roles <==>
        exists r ::
          && r in t.members[(user, server)].roles && r in t.roles && t.roles[r].server == server
          && p == t.roles[r].perms
  {
    SetOfIs(i.roles, RolePerms(t, Key(user, server, channel)));
  }

  lemma RoleRowsAre(t: Tables, user: string, server: string, channel: string, i: Input)
    requires server in t.owners && server in t.roles && (user, server) in t.members
    ensures SetOf(i.channelRoles) == RoleOverrides(t, Key(user, server, channel), false) <==>
      forall o :: o in i.channelRoles <==> channel != "" && RoleRowOn(t, user, server, false, channel, o)
    ensures SetOf(i.groupRoles) == RoleOverrides(t, Key(user, server, channel), true) <==>
      forall o :: o in i.groupRoles <==>
        && channel != "" && CategoryOf(t, channel).Some?
        && RoleRowOn(t, user, server, true, CategoryOf(t, channel).value, o)
  {
    var k := Key(user, server, channel);
    SetOfIs(i.channelRoles, RoleOverrides(t, k, false));
    SetOfIs(i.groupRoles, RoleOverrides(t, k, true));
    forall o {
      ChannelRowsAre(t, user, server, channel, o);
    }
    forall o {
      CategoryRowsAre(t, user, server, channel, o);
    }
  }

  /** The queries read exactly these rows. */
  lemma DescribedIsRead(t: Tables, user: string, server: string, channel: string, i: Input)
    requires server in t.owners && server in t.roles && (user, server) in t.members
    ensures Describes(t, user, server, channel, i) <==> Reads(t, Key(user, server, channel), i)
  {
    var category := CategoryOf(t, channel);
    RolesAre(t, user, server, channel, i);
    RoleRowsAre(t, user, server, channel, i);
    UserRowsAre(t, user, server, channel);
    OptionSetIs(i.channelUser, if channel != "" then UserRowOn(t, user, false, channel) else None);
    OptionSetIs(i.groupUser,
                if channel != "" && category.Some? then UserRowOn(t, user, true, category.value) else None);
  }

  /** What the resolver answers is what the bit rule grants on any input the tables describe. */
  lemma AnswerIsGranted(t: Tables, user: string, server: string, channel: string, i: Input, now: int)
    requires server in t.owners && server in t.roles && (user, server) in t.members
    requires Describes(t, user, server, channel, i)
    ensures forall b: nat :: b in Truth(t, Key(user, server, channel), now) <==> Granted(i, now, b)
  {
    DescribedIsRead(t, user, server, channel, i);
    OrderIsIrrelevant(t, Key(user, server, channel), i, now);
  }

  /** The tables describe some input, so the answer is determined by them. */
  lemma SomethingIsDescribed(t: Tables, user: string, server: string, channel: string) returns (i: Input)
    requires server in t.owners && server in t.roles && (user, server) in t.members
    ensures Describes(t, user, server, channel, i)
  {
    i := Fetch(t, Key(user, server, channel));
    DescribedIsRead(t, user, server, channel, i);
  }

  // ----- a hidden channel

  /** Neither owner, nor administrator, nor timed out. */
  ghost predicate Ordinary(t: Tables, user: string, server: string, now: int)
    requires server in t.owners && server in t.roles && (user, server) in t.members
  {
    var m := t.members[(user, server)];
    && t.owners[server] != user && ADMINISTRATOR !in t.roles[server].perms
    && (forall r :: r in m.roles && r in t.roles && t.roles[r].server == server ==> ADMINISTRATOR !in t.roles[r].perms)
    && (m.timedOutUntil.Some? && m.timedOutUntil.value > 0 ==> m.timedOutUntil.value <= now)
  }

  /** No row on the channel for @everyone or a role of the member, and none for the member, allows viewing. */
  ghost predicate NothingShows(t: Tables, user: string, server: string, channel: string)
    requires (user, server) in t.members
  {
    && (forall r ::
          && (r == server || r in t.members[(user, server)].roles)
          && Slot(false, channel, RoleWho(r)) in t.overrides ==>
          VIEW_CHANNEL !in t.overrides[Slot(false, channel, RoleWho(r))].allow)
    && (Slot(false, channel, UserWho(user)) in t.overrides ==>
          VIEW_CHANNEL !in t.overrides[Slot(false, channel, UserWho(user))].allow)
    && (CategoryOf(t, channel).Some? && Slot(true, CategoryOf(t, channel).value, UserWho(user)) in t.overrides ==>
          VIEW_CHANNEL !in t.overrides[Slot(true, CategoryOf(t, channel).value, UserWho(user))].allow)
  }

  /**
   A private channel: its @everyone row denies viewing.  Whoever is neither owner, administrator nor timed
   out, and is shown it by no row of their own or their roles, has no permission there at all.
   */
  lemma HiddenFromEveryone(t: Tables, user: string, server: string, channel: string, now: int)
    requires server in t.owners && server in t.roles && (user, server) in t.members && channel != ""
    requires Slot(false, channel, RoleWho(server)) in t.overrides
    requires VIEW_CHANNEL in t.overrides[Slot(false, channel, RoleWho(server))].deny
    requires Ordinary(t, user, server, now) && NothingShows(t, user, server, channel)
    ensures Truth(t, Key(user, server, channel), now) == {}
  {
    var i := SomethingIsDescribed(t, user, server, channel);
    AnswerIsGranted(t, user, server, channel, i, now);
    NotAdministrator(t, user, server, channel, i, now);
    ViewingIsDenied(t, user, server, channel, i);
    forall b: nat ensures !Granted(i, now, b) {
    }
  }

  lemma NotAdministrator(t: Tables, user: string, server: string, channel: string, i: Input, now: int)
    requires server in t.owners && server in t.roles && (user, server) in t.members
    requires Describes(t, user, server, channel, i) && Ordinary(t, user, server, now)
    ensures !i.isOwner && !InBase(i, ADMINISTRATOR) && !TimedOut(i, now)
  {
    forall k | 0 <= k < |i.roles| ensures ADMINISTRATOR !in i.roles[k] {
      assert i.roles[k] in i.roles;
      var r :| r in t.members[(user, server)].roles && r in t.roles && t.roles[r].server == server
        && i.roles[k] == t.roles[r].perms;
    }
  }

  lemma ViewingIsDenied(t: Tables, user: string, server: string, channel: string, i: Input)
    requires server in t.owners && server in t.roles && (user, server) in t.members && channel != ""
    requires Describes(t, user, server, channel, i) && NothingShows(t, user, server, channel)
    requires Slot(false, channel, RoleWho(server)) in t.overrides
    requires VIEW_CHANNEL in t.overrides[Slot(false, channel, RoleWho(server))].deny
    ensures !Decided(i, VIEW_CHANNEL)
  {
    var row := t.overrides[Slot(false, channel, RoleWho(server))];
    assert RoleRowOn(t, user, server, false, channel, row);
    var k :| 0 <= k < |i.channelRoles| && i.channelRoles[k] == row;
    assert Mentions(row, VIEW_CHANNEL) && AnyMentions(i.channelRoles, VIEW_CHANNEL);
    forall j | 0 <= j < |i.channelRoles| ensures VIEW_CHANNEL !in i.channelRoles[j].allow {
      assert i.channelRoles[j] in i.channelRoles;
    }
  }

  // ----- what a change writes, and which entries it drops

  /** Everything but the named table is as it was. */
  ghost predicate OnlyTable(t: Tables, r: Tables, roles: bool, members: bool, overrides: bool) {
    && r.owners == t.owners && r.channels == t.channels && r.groups == t.groups
    && (roles || r.roles == t.roles) && (members || r.members == t.members) && (overrides || r.overrides == t.overrides)
  }

  lemma MemberWrites(t: Tables, user: string, server: string, roles: seq<string>, until: Option<int>)
    requires (user, server) in t.members
    ensures
      var r := Write(t, SetMemberRoles(user, server, roles));
      && OnlyTable(t, r, false, true, false) && r.members.Keys == t.members.Keys
      && (forall m :: m in t.members && m != (user, server) ==> r.members[m] == t.members[m])
      && r.members[(user, server)] == Member(roles, t.members[(user, server)].timedOutUntil)
    ensures
      var r := Write(t, SetTimeout(user, server, until));
      && OnlyTable(t, r, false, true, false) && r.members.Keys == t.members.Keys
      && (forall m :: m in t.members && m != (user, server) ==> r.members[m] == t.members[m])
      && r.members[(user, server)] == Member(t.members[(user, server)].roles, until)
  {
  }

  lemma RoleWrites(t: Tables, role: string, server: string, perms: Bits)
    ensures
      var r := Write(t, CreateRole(role, server, perms));
      && OnlyTable(t, r, true, false, false) && r.roles.Keys == t.roles.Keys + {role}
      && r.roles[role] == RoleRow(server, perms) && forall x :: x in t.roles && x != role ==> r.roles[x] == t.roles[x]
    ensures
      role in t.roles ==>
        var r := Write(t, UpdateRole(role, perms));
        && OnlyTable(t, r, true, false, false) && r.roles.Keys == t.roles.Keys
        && r.roles[role] == RoleRow(t.roles[role].server, perms)
        && forall x :: x in t.roles && x != role ==> r.roles[x] == t.roles[x]
    ensures
      var r := Write(t, DeleteRole(role));
      && OnlyTable(t, r, true, true, true) && r.roles == t.roles - {role} && r.members.Keys == t.members.Keys
      && (forall m :: m in t.members ==>
            && r.members[m].timedOutUntil == t.members[m].timedOutUntil
            && forall x :: x in r.members[m].roles <==> x in t.members[m].roles && x != role)
      && forall slot ::
           && (slot in r.overrides <==> slot in t.overrides && slot.who != RoleWho(role))
           && (slot in r.overrides ==> r.overrides[slot] == t.overrides[slot])
    ensures Write(t, ReorderRoles(server)) == t
  {
  }

  /** The row of the slot, and for a voice channel the same row of its companion. */
  ghost predicate Touched(t: Tables, slot: Slot, x: Slot) {
    || x == slot
    || (&& !slot.isGroup && slot.target in t.channels && t.channels[slot.target].companion.Some?
        && x == Slot(false, t.channels[slot.target].companion.value, slot.who))
  }

  lemma SetWrites(t: Tables, slot: Slot, o: Override)
    ensures
      var r := Write(t, SetOverride(slot, o));
      && OnlyTable(t, r, false, false, true)
      && forall x ::
           && (x in r.overrides <==> x in t.overrides || Touched(t, slot, x))
           && (x in r.overrides ==> r.overrides[x] == if Touched(t, slot, x) then o else t.overrides[x])
  {
    assert forall x :: x in Mirrored(t, slot) <==> Touched(t, slot, x);
  }

  lemma DeleteWrites(t: Tables, slot: Slot)
    ensures
      var r := Write(t, DeleteOverride(slot));
      && OnlyTable(t, r, false, false, true)
      && forall x ::
           && (x in r.overrides <==> x in t.overrides && !Touched(t, slot, x))
           && (x in r.overrides ==> r.overrides[x] == t.overrides[x])
  {
    assert forall x :: x in Mirrored(t, slot) <==> Touched(t, slot, x);
  }

  lemma SyncWrites(t: Tables, channel: string)
    ensures
      var r := Write(t, SyncChannel(channel));
      && OnlyTable(t, r, false, false, true)
      && forall x ::
           && (x in r.overrides <==> x in t.overrides && (x.isGroup || x.target != channel))
           && (x in r.overrides ==> r.overrides[x] == t.overrides[x])
  {
  }

  /** The entries that a change drops; every other entry stays as it is. */
  ghost predicate Drops(t: Tables, a: Action, k: Key) {
    match a
    case SetMemberRoles(user, server, _) => k.user == user && k.server == server
    case SetTimeout(user, server, _) => k.user == user && k.server == server
    case UpdateRole(role, _) => role in t.roles && k.server == t.roles[role].server
    case DeleteRole(role) => role in t.roles && k.server == t.roles[role].server
    case ReorderRoles(server) => k.server == server
    case SetOverride(slot, _) => OfTarget(t, slot, k.server)
    case DeleteOverride(slot) => OfTarget(t, slot, k.server)
    case SyncChannel(channel) => k.channel == channel
    case Expire(keys) => k in keys
    case _ => false
  }

  /** The category or channel of the slot is the server's. */
  ghost predicate OfTarget(t: Tables, slot: Slot, server: string) {
    if slot.isGroup then slot.target in t.groups && t.groups[slot.target] == server
    else slot.target in t.channels && t.channels[slot.target].server == server
  }

  lemma InvalidationIs(t: Tables, c: Cache, a: Action)
    ensures forall k ::
      && (k in Invalidate(t, c, a) <==> k in c && !Drops(t, a, k))
      && (k in Invalidate(t, c, a) ==> Invalidate(t, c, a)[k] == c[k])
  {
  }

  /** A resolution is cached for five minutes, and changes no other entry. */
  lemma FillIs(t: Tables, c: Cache, k: Key, now: int)
    requires k.server in t.owners && k.server in t.roles && (k.user, k.server) in t.members
    ensures
      var r := Fill(t, c, k, now);
      && (k in c && now < c[k].at + 300 ==> r == c)
      && (!(k in c && now < c[k].at + 300) ==> k in r && r[k] == Entry(Truth(t, k, now), now))
      && forall x :: x != k ==> (x in r <==> x in c) && (x in r ==> r[x] == c[x])
  {
  }
}
