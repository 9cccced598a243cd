/**
 Roles and permission overrides together: role calls, override calls and the making and deleting of
 channels, in any order.  No run of calls by members other than the owner lets anybody but the owner have
 a permission in a channel that no role and no override allowed at the start.
 */
module Escalation {
  import opened Common
  import opened Permissions
  import Roles
  import M = OverrideMirror
  import H = OverrideHandlers

  datatype Joint = Joint(srv: Roles.Server, s: M.State)

  datatype Call =
    | RoleCall(call: Roles.Call)
    | OverrideCall(caller: string, request: H.Request)
    | PlaceCall(place: M.Call)

  /** The making and deleting of channels and categories, which no check on bits guards. */
  predicate IsPlaceCall(c: M.Call) {
    c.CreateGroup? || c.CreateChannel? || c.DeleteChannel? || c.DeleteGroup?
  }

  /** Deleting a role takes its overrides along. */
  ghost function Next(j: Joint, c: Call): Joint {
    match c
    case RoleCall(call) =>
      Joint(Roles.Step(j.srv, call),
            if call.DeleteRole? && Roles.MayDelete(j.srv, call.caller, call.role)
            then M.Step(j.s, M.DeleteRole(call.role))
            else j.s)
    case OverrideCall(caller, request) => j.(s := H.Serve(j.srv, j.s, caller, request))
    case PlaceCall(place) => if IsPlaceCall(place) then j.(s := M.Step(j.s, place)) else j
  }

  /** The call is not made with the owner's authority. */
  predicate ByOther(owner: string, c: Call) {
    match c
    case RoleCall(call) => Roles.Actor(call) != Some(owner)
    case OverrideCall(caller, _) => caller != owner
    case PlaceCall(_) => true
  }

  ghost function Run(j: Joint, calls: seq<Call>): Joint {
    if calls == [] then j else Next(Run(j, calls[..|calls| - 1]), calls[|calls| - 1])
  }

  // ----- the permissions to be had

  ghost predicate InRoles(srv: Roles.Server, b: nat) {
    exists r :: r in srv.roles && b in Roles.Expand(srv.roles[r].perms)
  }

  ghost predicate InRows(s: M.State, b: nat) {
    exists slot :: slot in s.overrides && b in s.overrides[slot].allow
  }

  /** A role has the bit, Administrator expanded, or an override allows it. */
  ghost predicate Available(j: Joint, b: nat) {
    InRoles(j.srv, b) || InRows(j.s, b)
  }

  lemma GrantableIsAvailable(srv: Roles.Server, user: string, b: nat)
    requires b in Roles.Grantable(srv, user)
    ensures InRoles(srv, b)
  {
    var bit := if b in Roles.Combined(srv, user) then b else ADMINISTRATOR;
    var r :| r in Roles.RolesOf(srv, user) && bit in srv.roles[r].perms;
    assert b in Roles.Expand(srv.roles[r].perms);
  }

  lemma GrantedPermsAreAvailable(srv: Roles.Server, user: string, perms: Bits, b: nat)
    requires user != srv.owner && Roles.MayGrant(srv, user, perms) && b in Roles.Expand(perms)
    ensures InRoles(srv, b)
  {
    if b in perms {
      GrantableIsAvailable(srv, user, b);
    } else {
      assert ADMINISTRATOR in Roles.Grantable(srv, user);
      GrantableIsAvailable(srv, user, ADMINISTRATOR);
      var r :| r in srv.roles && ADMINISTRATOR in Roles.Expand(srv.roles[r].perms);
      AdministratorIsAll(srv.roles[r].perms, b);
    }
  }

  lemma AdministratorIsAll(perms: Bits, b: nat)
    requires ADMINISTRATOR in Roles.Expand(perms) && b in ALL
    ensures b in Roles.Expand(perms)
  {
  }

  lemma RoleStepAvailable(srv: Roles.Server, call: Roles.Call, b: nat)
    requires Roles.Actor(call) != Some(srv.owner) && InRoles(Roles.Step(srv, call), b)
    ensures InRoles(srv, b)
  {
    var srv' := Roles.Step(srv, call);
    var r :| r in srv'.roles && b in Roles.Expand(srv'.roles[r].perms);
    match call
    case CreateRole(caller, name, perms, newId) =>
      if Roles.MayCreate(srv, caller, name, perms) && r == newId {
        GrantedPermsAreAvailable(srv, caller, perms, b);
      }
    case UpdateRole(caller, role, rename, newPerms) =>
      if Roles.MayUpdate(srv, caller, role, rename, newPerms) && newPerms.Some? && r == role {
        GrantedPermsAreAvailable(srv, caller, newPerms.value, b);
      }
    case _ =>
      assert r in srv.roles && srv'.roles[r].perms == srv.roles[r].perms;
  }

  /** Rows that are copied allow nothing new. */
  lemma PlaceStepAvailable(s: M.State, c: M.Call, b: nat)
    requires (IsPlaceCall(c) || c.DeleteRole?) && InRows(M.Step(s, c), b)
    ensures InRows(s, b)
  {
    var slot :| slot in M.Step(s, c).overrides && b in M.Step(s, c).overrides[slot].allow;
    match c
    case CreateChannel(id, companion, group, isPrivate, everyone) =>
      if M.Accepts(s, c) {
        M.CreatedRows(s, c, slot);
      }
    case DeleteGroup(group) =>
      if M.Accepts(s, c) && slot !in s.overrides {
        M.SnapshotRows(s, group, slot.target, slot.who);
      }
    case _ =>
  }

  lemma OverrideStepAvailable(j: Joint, caller: string, r: H.Request, b: nat)
    requires caller != j.srv.owner && InRows(H.Serve(j.srv, j.s, caller, r), b)
    ensures Available(j, b)
  {
    var s' := H.Serve(j.srv, j.s, caller, r);
    var slot :| slot in s'.overrides && b in s'.overrides[slot].allow;
    if H.RowAt(j.s, slot) != H.RowAt(s', slot) {
      H.WritesOnlyOwnBits(j.srv, j.s, caller, r, slot);
      GrantableIsAvailable(j.srv, caller, b);
    }
  }

  lemma NextAvailable(j: Joint, c: Call, b: nat)
    requires ByOther(j.srv.owner, c) && Available(Next(j, c), b)
    ensures Available(j, b)
  {
    match c
    case RoleCall(call) =>
      if InRoles(Roles.Step(j.srv, call), b) {
        RoleStepAvailable(j.srv, call, b);
      } else if call.DeleteRole? && Roles.MayDelete(j.srv, call.caller, call.role) {
        PlaceStepAvailable(j.s, M.DeleteRole(call.role), b);
      }
    case OverrideCall(caller, request) =>
      if !InRoles(j.srv, b) {
        OverrideStepAvailable(j, caller, request, b);
      }
    case PlaceCall(place) =>
      if !InRoles(j.srv, b) && IsPlaceCall(place) {
        PlaceStepAvailable(j.s, place, b);
      }
  }

  lemma OwnerStays(j: Joint, c: Call)
    ensures Next(j, c).srv.owner == j.srv.owner
  {
  }

  /** Over any run by others than the owner the permissions to be had never grow. */
  lemma {:induction false} RunAvailable(j: Joint, calls: seq<Call>, b: nat)
    requires forall i :: 0 <= i < |calls| ==> ByOther(j.srv.owner, calls[i])
    ensures Run(j, calls).srv.owner == j.srv.owner
    ensures Available(Run(j, calls), b) ==> Available(j, b)
  {
    if calls != [] {
      var n := |calls| - 1;
      RunAvailable(j, calls[..n], b);
      OwnerStays(Run(j, calls[..n]), calls[n]);
      if Available(Run(j, calls), b) {
        NextAvailable(Run(j, calls[..n]), calls[n], b);
      }
    }
  }

  // ----- what members are granted

  ghost predicate RolePerms(srv: Roles.Server, perms: Bits) {
    exists r :: r in srv.roles && perms == srv.roles[r].perms
  }

  /** What resolution is given for a member who is not the owner comes from the tables. */
  ghost predicate DrawsOn(i: Input, j: Joint) {
    && !i.isOwner && i.everyone == Roles.Everyone(j.srv)
    && (forall k :: 0 <= k < |i.roles| ==> RolePerms(j.srv, i.roles[k]))
    && (forall k :: 0 <= k < |i.groupRoles| ==> i.groupRoles[k] in j.s.overrides.Values)
    && (forall k :: 0 <= k < |i.channelRoles| ==> i.channelRoles[k] in j.s.overrides.Values)
    && (i.groupUser.Some? ==> i.groupUser.value in j.s.overrides.Values)
    && (i.channelUser.Some? ==> i.channelUser.value in j.s.overrides.Values)
  }

  lemma BaseIsAvailable(i: Input, j: Joint, bit: nat, b: nat)
    requires DrawsOn(i, j) && InBase(i, bit) && (b == bit || (bit == ADMINISTRATOR && b in ALL))
    ensures InRoles(j.srv, b)
  {
    if bit in i.everyone {
      assert b in Roles.Expand(j.srv.roles[j.srv.id].perms);
    } else {
      var k :| 0 <= k < |i.roles| && bit in i.roles[k];
      var r :| r in j.srv.roles && i.roles[k] == j.srv.roles[r].perms;
      assert b in Roles.Expand(j.srv.roles[r].perms);
    }
  }

  lemma RowIsAvailable(j: Joint, o: Override, b: nat)
    requires o in j.s.overrides.Values && b in o.allow
    ensures InRows(j.s, b)
  {
    var slot :| slot in j.s.overrides && j.s.overrides[slot] == o;
  }

  lemma DecidedIsAvailable(i: Input, j: Joint, b: nat)
    requires DrawsOn(i, j) && Decided(i, b)
    ensures Available(j, b)
  {
    match Deciding(i, b)
    case ChannelUser => RowIsAvailable(j, i.channelUser.value, b);
    case GroupUser => RowIsAvailable(j, i.groupUser.value, b);
    case ChannelRole =>
      var k :| 0 <= k < |i.channelRoles| && b in i.channelRoles[k].allow;
      RowIsAvailable(j, i.channelRoles[k], b);
    case GroupRole =>
      var k :| 0 <= k < |i.groupRoles| && b in i.groupRoles[k].allow;
      RowIsAvailable(j, i.groupRoles[k], b);
    case Base => BaseIsAvailable(i, j, b, b);
  }

  /** A row on a channel or category for the member's roles or @everyone. */
  ghost predicate RoleRow(j: Joint, user: string, isGroup: bool, target: string, o: Override) {
    exists r ::
      && (r == j.srv.id || r in Roles.RolesOf(j.srv, user))
      && Slot(isGroup, target, RoleWho(r)) in j.s.overrides && o == j.s.overrides[Slot(isGroup, target, RoleWho(r))]
  }

  ghost function UserRow(j: Joint, user: string, isGroup: bool, target: string): Option<Override> {
    H.RowAt(j.s, Slot(isGroup, target, UserWho(user)))
  }

  /** What the resolver reads for a member and a channel, in any order of rows. */
  ghost predicate Fetched(i: Input, j: Joint, user: string, channel: string) {
    var group := if channel in j.s.channels then j.s.channels[channel].group else None;
    && (i.isOwner <==> user == j.srv.owner) && i.everyone == Roles.Everyone(j.srv)
    && (forall p :: p in i.roles <==> exists r :: r in Roles.RolesOf(j.srv, user) && p == j.srv.roles[r].perms)
    && (forall o :: o in i.channelRoles <==> RoleRow(j, user, false, channel, o))
    && (forall o :: o in i.groupRoles <==> group.Some? && RoleRow(j, user, true, group.value, o))
    && i.channelUser == UserRow(j, user, false, channel)
    && i.groupUser == if group.Some? then UserRow(j, user, true, group.value) else None
  }

  lemma FetchedDraws(i: Input, j: Joint, user: string, channel: string)
    requires Fetched(i, j, user, channel) && user != j.srv.owner
    ensures DrawsOn(i, j)
  {
    forall k | 0 <= k < |i.roles| ensures RolePerms(j.srv, i.roles[k]) {
      assert i.roles[k] in i.roles;
    }
    forall k | 0 <= k < |i.groupRoles| ensures i.groupRoles[k] in j.s.overrides.Values {
      assert i.groupRoles[k] in i.groupRoles;
    }
    forall k | 0 <= k < |i.channelRoles| ensures i.channelRoles[k] in j.s.overrides.Values {
      assert i.channelRoles[k] in i.channelRoles;
    }
    UserRowIsThere(j, user, false, channel);
    if channel in j.s.channels && j.s.channels[channel].group.Some? {
      UserRowIsThere(j, user, true, j.s.channels[channel].group.value);
    }
  }

  lemma UserRowIsThere(j: Joint, user: string, isGroup: bool, target: string)
    ensures UserRow(j, user, isGroup, target).Some? ==> UserRow(j, user, isGroup, target).value in j.s.overrides.Values
  {
  }

  lemma GrantedIsAvailable(i: Input, j: Joint, now: int, b: nat)
    requires DrawsOn(i, j) && Granted(i, now, b)
    ensures Available(j, b) || (TimedOut(i, now) && b in {VIEW_CHANNEL, READ_MESSAGE_HISTORY})
  {
    if InBase(i, ADMINISTRATOR) {
      BaseIsAvailable(i, j, ADMINISTRATOR, b);
    } else if !TimedOut(i, now) {
      DecidedIsAvailable(i, j, b);
    }
  }

  /**
   Over any run of role, override and channel calls without the owner's authority, a permission that
   anybody but the owner is granted in any channel at the end was in a role, in @everyone or allowed by an
   override at the start; a timeout alone gives viewing and reading.
   */
  lemma NoEscalationInChannels(j: Joint, calls: seq<Call>, user: string, channel: string, i: Input, now: int, b: nat)
    requires forall k :: 0 <= k < |calls| ==> ByOther(j.srv.owner, calls[k])
    requires user != j.srv.owner && Fetched(i, Run(j, calls), user, channel) && Granted(i, now, b)
    ensures Available(j, b) || (TimedOut(i, now) && b in {VIEW_CHANNEL, READ_MESSAGE_HISTORY})
  {
    RunAvailable(j, calls, b);
    FetchedDraws(i, Run(j, calls), user, channel);
    GrantedIsAvailable(i, Run(j, calls), now, b);
  }
}
