/**
 The override handlers (server/cmd/chat/service_permission_overrides.go, CreateChannel in service.go) with
 the checks they make, in their order: the request, the target, the caller's permission, rank and bits.
 A `Server` is what the role tables hold at the time of the call; the tables are those of one server.
 */
module OverrideHandlers {
  import opened Common
  import opened Permissions
  import opened Roles
  import opened RoleService
  import M = OverrideMirror

  /** A request names a role or a user; the other id is empty. */
  datatype Request =
    | Set(target: string, roleId: string, userId: string, override: Override)
    | Delete(target: string, roleId: string, userId: string)
    | Sync(channel: string)

  function WhoOf(roleId: string, userId: string): Who {
    if roleId != "" then RoleWho(roleId) else UserWho(userId)
  }

  function CallOf(r: Request): M.Call {
    match r
    case Set(target, roleId, userId, o) => M.SetOverride(target, WhoOf(roleId, userId), o)
    case Delete(target, roleId, userId) => M.DeleteOverride(target, WhoOf(roleId, userId))
    case Sync(channel) => M.SyncChannel(channel)
  }

  // ----- who may do what

  /** The caller stands above the role or user; what no longer exists or has left is below everyone. */
  predicate StandsAbove(srv: Server, caller: string, who: Who) {
    match who
    case RoleWho(r) => r in srv.roles ==> Outranks(srv, caller, srv.roles[r].position)
    case UserWho(u) => u in srv.members ==> OutranksMember(srv, caller, u)
  }

  predicate Known(srv: Server, who: Who) {
    if who.RoleWho? then who.id in srv.roles else who.id in srv.members
  }

  predicate OnOwner(srv: Server, who: Who) {
    who == UserWho(srv.owner)
  }

  /** What the three handlers demand, apart from what the mirror model demands of the target. */
  predicate Allowed(srv: Server, s: M.State, caller: string, r: Request) {
    && M.Accepts(s, CallOf(r))
    && Permitted(srv, caller, MANAGE_ROLES)
    && match r
       case Set(target, roleId, userId, o) =>
         var who := WhoOf(roleId, userId);
         && target != "" && (roleId == "" <==> userId != "")
         && Known(srv, who) && !OnOwner(srv, who) && StandsAbove(srv, caller, who)
         && MayGrant(srv, caller, o.allow) && MayGrant(srv, caller, o.deny)
       case Delete(target, roleId, userId) =>
         var who := WhoOf(roleId, userId);
         && target != "" && (roleId == "" <==> userId != "")
         && (who.RoleWho? ==> Known(srv, who)) && !OnOwner(srv, who) && StandsAbove(srv, caller, who)
       case Sync(channel) =>
         && channel != ""
         && forall slot :: slot in s.overrides && !slot.isGroup && slot.target == channel ==>
           StandsAbove(srv, caller, slot.who)
  }

  function Serve(srv: Server, s: M.State, caller: string, r: Request): M.State {
    if Allowed(srv, s, caller, r) then M.Step(s, CallOf(r)) else s
  }

  // ----- the checks

  /** Rank of the target of an override: its position, or the highest of its roles. */
  method Outranked(srv: Server, st: Standing, caller: string, who: Who) returns (ok: bool)
    requires Describes(st, srv, caller)
    ensures ok <==> StandsAbove(srv, caller, who)
  {
    match who {
      case RoleWho(r) =>
        if r !in srv.roles {
          return true;
        }
        OverIsOutranks(st, srv, caller, srv.roles[r].position);
        return Over(st, srv.roles[r].position);
      case UserWho(u) =>
        if u !in srv.members {
          return true;
        }
        var _, top := Tally(srv, u);
        OverIsOutranksMember(st, srv, caller, u, top);
        return Over(st, top);
    }
  }

  /** The loop of the sync over the channel's rows, whichever order the listing has. */
  method AllOutranked(srv: Server, st: Standing, caller: string, listing: seq<Slot>) returns (ok: bool)
    requires Describes(st, srv, caller)
    ensures ok <==> forall slot :: slot in listing ==> StandsAbove(srv, caller, slot.who)
  {
    for i := 0 to |listing|
      invariant forall j :: 0 <= j < i ==> StandsAbove(srv, caller, listing[j].who)
    {
      var above := Outranked(srv, st, caller, listing[i].who);
      if !above {
        return false;
      }
    }
    return true;
  }

  /** Bits outside the channel scope are refused before anything is looked up. */
  predicate ChannelScoped(bits: Bits) {
    forall b :: b in bits ==> Scoped(b)
  }

  class OverrideService {
    var s: M.State

    constructor ()
      ensures s == M.State({}, map[], map[])
    {
      s := M.State({}, map[], map[]);
    }

    /** `listing` is the category's rows in the order the store returns them. */
    method Create(srv: Server, caller: string, name: string, id: string, companion: Option<string>,
        group: Option<string>, isPrivate: bool, everyone: string, listing: seq<Slot>)
      returns (ok: bool)
      requires group.Some? ==> M.Lists(s, group.value, listing)
      modifies this
      ensures ok <==>
        name != "" && Permitted(srv, caller, MANAGE_CHANNELS) && (group.Some? ==> group.value in old(s).groups)
      ensures s == if ok then M.Step(old(s), M.CreateChannel(id, companion, group, isPrivate, everyone)) else old(s)
    {
      if name == "" {
        return false;
      }
      var st := RequirePermission(srv, caller, MANAGE_CHANNELS);
      if st.Denied? {
        return false;
      }
      if group.Some? && group.value !in s.groups {
        return false;
      }
      var overrides := M.CreateRows(s, id, companion, group, isPrivate, everyone, listing);
      M.StartsIsStep(s, M.CreateChannel(id, companion, group, isPrivate, everyone), overrides);
      var channels := s.channels[id := M.Channel(group, companion)];
      if companion.Some? {
        channels := channels[companion.value := M.Channel(group, None)];
      }
      s := M.State(s.groups, channels, overrides);
      return true;
    }

    method SetPermissionOverride(srv: Server, caller: string, target: string, roleId: string, userId: string,
        o: Override)
      returns (ok: bool)
      requires M.WellPaired(s)
      modifies this
      ensures ok <==> Allowed(srv, old(s), caller, Set(target, roleId, userId, o))
      ensures s == Serve(srv, old(s), caller, Set(target, roleId, userId, o))
    {
      if target == "" || (roleId == "") == (userId == "") || !ChannelScoped(o.allow) || !ChannelScoped(o.deny) {
        return false;
      }
      if target !in s.groups && target !in s.channels {
        return false;
      }
      if target !in s.groups && M.IsCompanion(s, target) {
        return false;
      }
      var st := RequirePermission(srv, caller, MANAGE_ROLES);
      if st.Denied? {
        return false;
      }
      var who := WhoOf(roleId, userId);
      if !Known(srv, who) || OnOwner(srv, who) {
        return false;
      }
      var above := Outranked(srv, st, caller, who);
      if !above {
        return false;
      }
      if !st.isOwner && (Exceeds(o.allow, EffectivePerms(st)) || Exceeds(o.deny, EffectivePerms(st))) {
        return false;
      }
      Upsert(target, who, o);
      return true;
    }

    /** The row of the target and, for a voice channel, that of its companion. */
    method Upsert(target: string, who: Who, o: Override)
      requires M.WellPaired(s) && M.Accepts(s, M.SetOverride(target, who, o))
      modifies this
      ensures s == M.Step(old(s), M.SetOverride(target, who, o))
    {
      if target in s.groups {
        s := s.(overrides := s.overrides[Slot(true, target, who) := o]);
        return;
      }
      ghost var was := s;
      var overrides := s.overrides[Slot(false, target, who) := o];
      if s.channels[target].companion.Some? {
        overrides := overrides[Slot(false, s.channels[target].companion.value, who) := o];
      }
      assert overrides == M.Step(was, M.SetOverride(target, who, o)).overrides;
      s := s.(overrides := overrides);
    }

    method DeletePermissionOverride(srv: Server, caller: string, target: string, roleId: string, userId: string)
      returns (ok: bool)
      requires M.WellPaired(s)
      modifies this
      ensures ok <==> Allowed(srv, old(s), caller, Delete(target, roleId, userId))
      ensures s == Serve(srv, old(s), caller, Delete(target, roleId, userId))
    {
      if target == "" || (roleId == "") == (userId == "") || (target !in s.groups && target !in s.channels) {
        return false;
      }
      if target !in s.groups && M.IsCompanion(s, target) {
        return false;
      }
      var st := RequirePermission(srv, caller, MANAGE_ROLES);
      if st.Denied? {
        return false;
      }
      var who := WhoOf(roleId, userId);
      if (who.RoleWho? && !Known(srv, who)) || OnOwner(srv, who) {
        return false;
      }
      var above := Outranked(srv, st, caller, who);
      if !above {
        return false;
      }
      ok := Remove(target, who);
    }

    /** A DELETE that hits no row fails; the companion's is not asked. */
    method Remove(target: string, who: Who) returns (ok: bool)
      requires M.WellPaired(s) && (target in s.groups || (target in s.channels && !M.IsCompanion(s, target)))
      modifies this
      ensures ok <==> M.Accepts(old(s), M.DeleteOverride(target, who))
      ensures s == M.Step(old(s), M.DeleteOverride(target, who))
    {
      if Slot(target in s.groups, target, who) !in s.overrides {
        return false;
      }
      if target in s.groups {
        s := s.(overrides := s.overrides - {Slot(true, target, who)});
        return true;
      }
      ghost var was := s;
      var overrides := s.overrides - {Slot(false, target, who)};
      if s.channels[target].companion.Some? {
        overrides := overrides - {Slot(false, s.channels[target].companion.value, who)};
      }
      assert overrides == M.Step(was, M.DeleteOverride(target, who)).overrides;
      s := s.(overrides := overrides);
      return true;
    }

    /** `listing` is the channel's rows in the order the store returns them. */
    method SyncChannelPermissions(srv: Server, caller: string, channel: string, listing: seq<Slot>) returns (ok: bool)
      requires forall slot :: slot in listing <==> slot in s.overrides && !slot.isGroup && slot.target == channel
      modifies this
      ensures ok <==> Allowed(srv, old(s), caller, Sync(channel))
      ensures s == Serve(srv, old(s), caller, Sync(channel))
    {
      if channel == "" || channel !in s.channels || s.channels[channel].group.None? || M.IsCompanion(s, channel) {
        return false;
      }
      var st := RequirePermission(srv, caller, MANAGE_ROLES);
      if st.Denied? {
        return false;
      }
      var above := AllOutranked(srv, st, caller, listing);
      if !above {
        return false;
      }
      ClearChannel(channel);
      return true;
    }

    /** SyncChannelToCategory: both halves in one transaction. */
    method ClearChannel(channel: string)
      requires M.Accepts(s, M.SyncChannel(channel))
      modifies this
      ensures s == M.Step(old(s), M.SyncChannel(channel))
    {
      ghost var was := s;
      var overrides := M.OverridesOff(s, {channel});
      if s.channels[channel].companion.Some? {
        overrides := M.OverridesOff(s.(overrides := overrides), {s.channels[channel].companion.value});
      }
      assert overrides == M.Step(was, M.SyncChannel(channel)).overrides;
      s := s.(overrides := overrides);
    }
  }

  // ----- what no call of a lower caller reaches

  /** The row a slot holds, if any. */
  function RowAt(s: M.State, slot: Slot): Option<Override> {
    if slot in s.overrides then Some(s.overrides[slot]) else None
  }

  /** A row whose role or user the caller does not stand above is as it was, on a companion channel too. */
  lemma RowsAboveStay(srv: Server, s: M.State, caller: string, r: Request, slot: Slot)
    requires M.WellPaired(s) && M.Mirrors(s) && !StandsAbove(srv, caller, slot.who)
    ensures RowAt(Serve(srv, s, caller, r), slot) == RowAt(s, slot)
  {
    if !Allowed(srv, s, caller, r) || r.Set? {
      return;
    }
    if r.Delete? {
      assert WhoOf(r.roleId, r.userId) != slot.who;
      return;
    }
    if !slot.isGroup && slot.target in M.Pair(s, r.channel) {
      var own := Slot(false, r.channel, slot.who);
      assert own !in s.overrides;
      assert M.Lookup(s, r.channel, slot.who).None?;
      if slot.target != r.channel {
        assert M.SameTable(s, r.channel, slot.target);
        assert M.Lookup(s, slot.target, slot.who).None?;
      }
    }
  }

  /** A call of one of the three handlers, with the role tables as they stood then. */
  datatype Attempt = Attempt(srv: Server, caller: string, request: Request)

  ghost function Run(s: M.State, attempts: seq<Attempt>): M.State {
    if attempts == [] then s
    else
      var a := attempts[|attempts| - 1];
      Serve(a.srv, Run(s, attempts[..|attempts| - 1]), a.caller, a.request)
  }

  lemma ServeKeeps(srv: Server, s: M.State, caller: string, r: Request)
    requires M.WellPaired(s) && M.Mirrors(s)
    ensures M.WellPaired(Serve(srv, s, caller, r)) && M.Mirrors(Serve(srv, s, caller, r))
  {
    M.StepPairs(s, CallOf(r));
    M.StepMirrors(s, CallOf(r));
  }

  lemma {:induction false} RunStaysMirrored(s: M.State, attempts: seq<Attempt>)
    requires M.WellPaired(s) && M.Mirrors(s)
    ensures M.WellPaired(Run(s, attempts)) && M.Mirrors(Run(s, attempts))
  {
    if attempts != [] {
      var n := |attempts| - 1;
      RunStaysMirrored(s, attempts[..n]);
      ServeKeeps(attempts[n].srv, Run(s, attempts[..n]), attempts[n].caller, attempts[n].request);
    }
  }

  /**
   However roles change between the calls: while no caller stands above a role or user, every override
   row of that role or user, on categories, channels and companions, stays as it is.
   */
  lemma {:induction false} OverridesAboveStay(s: M.State, attempts: seq<Attempt>, slot: Slot)
    requires M.WellPaired(s) && M.Mirrors(s)
    requires forall i :: 0 <= i < |attempts| ==> !StandsAbove(attempts[i].srv, attempts[i].caller, slot.who)
    ensures RowAt(Run(s, attempts), slot) == RowAt(s, slot)
  {
    if attempts != [] {
      var n := |attempts| - 1;
      OverridesAboveStay(s, attempts[..n], slot);
      RunStaysMirrored(s, attempts[..n]);
      RowsAboveStay(attempts[n].srv, Run(s, attempts[..n]), attempts[n].caller, attempts[n].request, slot);
    }
  }

  /** Whatever row a call writes carries only bits its caller may grant, on either half of a voice channel. */
  lemma WritesOnlyOwnBits(srv: Server, s: M.State, caller: string, r: Request, slot: Slot)
    requires slot in Serve(srv, s, caller, r).overrides && RowAt(s, slot) != RowAt(Serve(srv, s, caller, r), slot)
    ensures MayGrant(srv, caller, Serve(srv, s, caller, r).overrides[slot].allow)
    ensures MayGrant(srv, caller, Serve(srv, s, caller, r).overrides[slot].deny)
    ensures StandsAbove(srv, caller, slot.who)
  {
  }
}
