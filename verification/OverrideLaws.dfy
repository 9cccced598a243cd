/**
 What each call of the override model needs and leads to: the whole override table, channel table and
 categories after it, row by row.
 */
module OverrideLaws {
  import opened Common
  import opened Permissions
  import opened OverrideMirror
  import H = OverrideHandlers
  import Roles
  import RL = RoleLaws

  /** The tables but for those named are as they were. */
  ghost predicate Only(s: State, r: State, groups: bool, channels: bool, overrides: bool) {
    && (groups || r.groups == s.groups) && (channels || r.channels == s.channels)
    && (overrides || r.overrides == s.overrides)
  }

  /** Some voice channel has the channel for its companion. */
  ghost predicate Companion(s: State, ch: string) {
    exists v :: v in s.channels && s.channels[v].companion == Some(ch)
  }

  /** The row of the target and, where the target is a voice channel, that of its companion. */
  ghost predicate Touched(s: State, target: string, who: Who, x: Slot) {
    || x == Slot(target in s.groups, target, who)
    || (&& target !in s.groups && target in s.channels && s.channels[target].companion.Some?
        && x == Slot(false, s.channels[target].companion.value, who))
  }

  /** The row is on the channel or on its companion. */
  ghost predicate OnPair(s: State, ch: string, x: Slot) {
    !x.isGroup && (x.target == ch || (ch in s.channels && s.channels[ch].companion == Some(x.target)))
  }

  /** A category, or a channel that is nobody's companion. */
  ghost predicate Addressable(s: State, target: string) {
    target in s.groups || (target in s.channels && !Companion(s, target))
  }

  lemma SetLaw(s: State, target: string, who: Who, o: Override)
    ensures
      var r := Step(s, SetOverride(target, who, o));
      if Addressable(s, target) && (forall b :: b in o.allow + o.deny ==> Scoped(b)) then
        && Only(s, r, false, false, true)
        && forall x ::
             && (x in r.overrides <==> x in s.overrides || Touched(s, target, who, x))
             && (x in r.overrides ==> r.overrides[x] == if Touched(s, target, who, x) then o else s.overrides[x])
      else r == s
  {
  }

  /** The row asked for must be there; its companion's goes along. */
  lemma DeleteLaw(s: State, target: string, who: Who)
    ensures
      var r := Step(s, DeleteOverride(target, who));
      if Addressable(s, target) && Slot(target in s.groups, target, who) in s.overrides then
        && Only(s, r, false, false, true)
        && forall x ::
             && (x in r.overrides <==> x in s.overrides && !Touched(s, target, who, x))
             && (x in r.overrides ==> r.overrides[x] == s.overrides[x])
      else r == s
  {
  }

  /** Rows of the channel and of its companion go, and no others. */
  lemma SyncLaw(s: State, ch: string)
    ensures
      var r := Step(s, SyncChannel(ch));
      if ch in s.channels && s.channels[ch].group.Some? && !Companion(s, ch) then
        && Only(s, r, false, false, true)
        && forall x ::
             && (x in r.overrides <==> x in s.overrides && !OnPair(s, ch, x))
             && (x in r.overrides ==> r.overrides[x] == s.overrides[x])
      else r == s
  {
  }

  lemma DeleteRoleLaw(s: State, role: string)
    ensures
      var r := Step(s, DeleteRole(role));
      && Only(s, r, false, false, true)
      && forall x ::
           && (x in r.overrides <==> x in s.overrides && x.who != RoleWho(role))
           && (x in r.overrides ==> r.overrides[x] == s.overrides[x])
  {
  }

  /** A channel goes with its companion and the rows of both. */
  lemma DeleteChannelLaw(s: State, ch: string)
    ensures
      var r := Step(s, DeleteChannel(ch));
      if ch in s.channels && !Companion(s, ch) then
        && Only(s, r, false, true, true)
        && (forall c ::
              && (c in r.channels <==> c in s.channels && c != ch && s.channels[ch].companion != Some(c))
              && (c in r.channels ==> r.channels[c] == s.channels[c]))
        && forall x ::
             && (x in r.overrides <==> x in s.overrides && !OnPair(s, ch, x))
             && (x in r.overrides ==> r.overrides[x] == s.overrides[x])
      else r == s
  {
  }

  lemma CreateGroupLaw(s: State, g: string)
    ensures
      var r := Step(s, CreateGroup(g));
      Only(s, r, true, false, false) && forall x :: x in r.groups <==> x in s.groups || x == g
  {
  }

  /** The channel of a new row. */
  ghost predicate New(c: Call, ch: string)
    requires c.CreateChannel?
  {
    ch == c.id || c.companion == Some(ch)
  }

  /** Both channels are in the category asked for, which must exist; the voice channel names its companion. */
  lemma CreateChannelLaw(s: State, c: Call)
    requires c.CreateChannel? && c.companion != Some(c.id)
    ensures
      var r := Step(s, c);
      if c.group.Some? ==> c.group.value in s.groups then
        && Only(s, r, false, true, true)
        && (forall ch :: ch in r.channels <==> ch in s.channels || New(c, ch))
        && (forall ch :: ch in r.channels ==>
              r.channels[ch] ==
                if c.companion == Some(ch) then Channel(c.group, None)
                else if ch == c.id then Channel(c.group, c.companion)
                else s.channels[ch])
      else r == s
  {
  }

  /** What a row of a new channel holds: the category's for that role, or else the deny of a private channel. */
  ghost function Starting(s: State, c: Call, who: Who): Option<Override>
    requires c.CreateChannel?
  {
    if c.group.Some? && who.RoleWho? && Slot(true, c.group.value, who) in s.overrides then
      Some(s.overrides[Slot(true, c.group.value, who)])
    else if c.isPrivate && who == RoleWho(c.everyone) then Some(Override({}, {13}))
    else None
  }

  lemma CreateRowsLaw(s: State, c: Call, x: Slot)
    requires c.CreateChannel? && (c.group.Some? ==> c.group.value in s.groups)
    ensures
      var r := Step(s, c);
      var mine := !x.isGroup && New(c, x.target) && Starting(s, c, x.who).Some?;
      && (x in r.overrides <==> x in s.overrides || mine)
      && (x in r.overrides ==> r.overrides[x] == if mine then Starting(s, c, x.who).value else s.overrides[x])
  {
    CreatedRows(s, c, x);
  }

  /** A row that a category leaves on one of its channels: what stood there, or else the category's. */
  ghost predicate Settles(s: State, g: string, x: Slot) {
    && !x.isGroup && x !in s.overrides && x.target in s.channels && s.channels[x.target].group == Some(g)
    && Slot(true, g, x.who) in s.overrides
  }

  /** A category goes; its channels stay, outside any category, with its rows where they had none. */
  lemma DeleteGroupLaw(s: State, g: string)
    ensures
      var r := Step(s, DeleteGroup(g));
      if g in s.groups then
        && (forall x :: x in r.groups <==> x in s.groups && x != g)
        && r.channels.Keys == s.channels.Keys
        && (forall ch :: ch in s.channels ==>
              r.channels[ch].companion == s.channels[ch].companion
              && r.channels[ch].group == if s.channels[ch].group == Some(g) then None else s.channels[ch].group)
      else r == s
  {
  }

  lemma DeleteGroupRowsLaw(s: State, g: string, x: Slot)
    requires g in s.groups
    ensures
      var r := Step(s, DeleteGroup(g));
      && (x in r.overrides <==> (x in s.overrides && !(x.isGroup && x.target == g)) || Settles(s, g, x))
      && (x in r.overrides ==>
            r.overrides[x] == if Settles(s, g, x) then s.overrides[Slot(true, g, x.who)] else s.overrides[x])
  {
    if !x.isGroup {
      SnapshotRows(s, g, x.target, x.who);
      assert x == Slot(false, x.target, x.who);
    }
  }

  // ----- who may make which call

  /** The caller stands above a role that exists, or above a user who is a member. */
  ghost predicate Over(srv: Roles.Server, caller: string, who: Who) {
    match who
    case RoleWho(r) => r in srv.roles ==> RL.Above(srv, caller, srv.roles[r].position)
    case UserWho(u) => u in srv.members ==> RL.AboveMember(srv, caller, u)
  }

  lemma OverIs(srv: Roles.Server, caller: string, who: Who)
    ensures H.StandsAbove(srv, caller, who) <==> Over(srv, caller, who)
  {
    match who
    case RoleWho(r) =>
      if r in srv.roles {
        RL.OutranksIs(srv, caller, srv.roles[r].position);
      }
    case UserWho(u) => RL.OutranksMemberIs(srv, caller, u);
  }

  /** Setting needs a role that exists or a member who is not the owner, below the caller, and bits the caller holds. */
  lemma MaySetIs(srv: Roles.Server, s: State, caller: string, target: string, roleId: string, userId: string,
      o: Override)
    ensures H.Allowed(srv, s, caller, H.Set(target, roleId, userId, o)) <==>
      && target != "" && Addressable(s, target)
      && (forall b :: b in o.allow + o.deny ==> Scoped(b)) && RL.MayDo(srv, caller, MANAGE_ROLES)
      && (|| (roleId != "" && userId == "" && roleId in srv.roles && Over(srv, caller, RoleWho(roleId)))
          || (&& roleId == "" && userId != "" && userId in srv.members && userId != srv.owner
              && Over(srv, caller, UserWho(userId))))
      && RL.HoldsAll(srv, caller, o.allow) && RL.HoldsAll(srv, caller, o.deny)
  {
    RL.PermittedIs(srv, caller, MANAGE_ROLES);
    OverIs(srv, caller, H.WhoOf(roleId, userId));
    if RL.MayDo(srv, caller, MANAGE_ROLES) {
      RL.MayGrantIs(srv, caller, o.allow);
      RL.MayGrantIs(srv, caller, o.deny);
    }
  }

  /** Deleting needs the row; a user who has left does not count as anybody. */
  lemma MayDeleteIs(srv: Roles.Server, s: State, caller: string, target: string, roleId: string, userId: string)
    ensures H.Allowed(srv, s, caller, H.Delete(target, roleId, userId)) <==>
      && target != "" && Addressable(s, target) && RL.MayDo(srv, caller, MANAGE_ROLES)
      && (|| (&& roleId != "" && userId == "" && roleId in srv.roles && Over(srv, caller, RoleWho(roleId))
              && Slot(target in s.groups, target, RoleWho(roleId)) in s.overrides)
          || (&& roleId == "" && userId != "" && userId != srv.owner && Over(srv, caller, UserWho(userId))
              && Slot(target in s.groups, target, UserWho(userId)) in s.overrides))
  {
    RL.PermittedIs(srv, caller, MANAGE_ROLES);
    OverIs(srv, caller, H.WhoOf(roleId, userId));
  }

  /** Syncing needs rank over everybody with a row on the channel. */
  lemma MaySyncIs(srv: Roles.Server, s: State, caller: string, ch: string)
    ensures H.Allowed(srv, s, caller, H.Sync(ch)) <==>
      && ch != "" && ch in s.channels && s.channels[ch].group.Some? && !Companion(s, ch)
      && RL.MayDo(srv, caller, MANAGE_ROLES)
      && forall who :: Slot(false, ch, who) in s.overrides ==> Over(srv, caller, who)
  {
    RL.PermittedIs(srv, caller, MANAGE_ROLES);
    forall who ensures H.StandsAbove(srv, caller, who) <==> Over(srv, caller, who) {
      OverIs(srv, caller, who);
    }
    if H.Allowed(srv, s, caller, H.Sync(ch)) {
      forall who | Slot(false, ch, who) in s.overrides ensures Over(srv, caller, who) {
        var slot := Slot(false, ch, who);
        assert slot in s.overrides && !slot.isGroup && slot.target == ch && slot.who == who;
      }
    }
    if forall who :: Slot(false, ch, who) in s.overrides ==> Over(srv, caller, who) {
      forall slot | slot in s.overrides && !slot.isGroup && slot.target == ch
        ensures H.StandsAbove(srv, caller, slot.who)
      {
        assert slot == Slot(false, ch, slot.who);
      }
    }
  }

  /** A request does what the override model says if it is allowed, and nothing otherwise. */
  lemma ServeIs(srv: Roles.Server, s: State, caller: string, target: string, roleId: string, userId: string,
      o: Override)
    ensures
      var who := if roleId != "" then RoleWho(roleId) else UserWho(userId);
      && H.Serve(srv, s, caller, H.Set(target, roleId, userId, o)) ==
           (if H.Allowed(srv, s, caller, H.Set(target, roleId, userId, o)) then
             Step(s, SetOverride(target, who, o)) else s)
      && H.Serve(srv, s, caller, H.Delete(target, roleId, userId)) ==
           (if H.Allowed(srv, s, caller, H.Delete(target, roleId, userId)) then
             Step(s, DeleteOverride(target, who)) else s)
      && H.Serve(srv, s, caller, H.Sync(target)) ==
           if H.Allowed(srv, s, caller, H.Sync(target)) then Step(s, SyncChannel(target)) else s
  {
  }
}
