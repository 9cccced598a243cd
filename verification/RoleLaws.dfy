/**
 What each role call needs and leads to, said of the members, roles and bans alone; and what a ban means
 for every later run.
 */
module RoleLaws {
  import opened Common
  import opened Permissions
  import opened Roles
  import RoleRanks

  // ----- what a caller needs, role by role

  predicate Carries(role: Role, perm: nat) {
    perm in role.perms || ADMINISTRATOR in role.perms
  }

  /** The owner, or a member with a role that carries the permission or Administrator. */
  predicate MayDo(s: Server, user: string, perm: nat) {
    && user in s.members
    && (|| user == s.owner
        || exists r :: r in s.members[user] && r in s.roles && Carries(s.roles[r], perm))
  }

  /** The owner, or a member with a role above the position. */
  predicate Above(s: Server, user: string, position: nat) {
    || user == s.owner
    || (user in s.members && exists r :: r in s.members[user] && r in s.roles && position < s.roles[r].position)
  }

  predicate OverAll(s: Server, target: string, role: Role) {
    target in s.members ==> forall t :: t in s.members[target] && t in s.roles ==> s.roles[t].position < role.position
  }

  /** The owner, or a member with a role above every role of the target and above position 0. */
  predicate AboveMember(s: Server, user: string, target: string) {
    || user == s.owner
    || (&& user in s.members
        && exists r ::
             r in s.members[user] && r in s.roles && 0 < s.roles[r].position && OverAll(s, target, s.roles[r]))
  }

  /** The owner, an administrator for the 31 known bits, or a member whose own roles have every bit. */
  predicate HoldsAll(s: Server, user: string, perms: Bits) {
    || user == s.owner
    || (&& user in s.members
        && if exists r :: r in s.members[user] && r in s.roles && ADMINISTRATOR in s.roles[r].perms
           then forall b :: b in perms ==> b < 31
           else forall b :: b in perms ==> exists r :: r in s.members[user] && r in s.roles && b in s.roles[r].perms)
  }

  lemma PermittedIs(s: Server, user: string, perm: nat)
    ensures Permitted(s, user, perm) <==> MayDo(s, user, perm)
  {
    if user in s.members {
      assert forall r :: r in RolesOf(s, user) <==> r in s.members[user] && r in s.roles;
      if Permissions.Has(Combined(s, user), perm) {
        var b := if perm in Combined(s, user) then perm else ADMINISTRATOR;
        var r :| r in RolesOf(s, user) && b in s.roles[r].perms;
        assert Carries(s.roles[r], perm);
      }
    }
  }

  lemma OutranksIs(s: Server, user: string, position: nat)
    ensures Outranks(s, user, position) <==> Above(s, user, position)
  {
  }

  lemma OutranksMemberIs(s: Server, user: string, target: string)
    ensures OutranksMember(s, user, target) <==> AboveMember(s, user, target)
  {
    if user in s.members && user != s.owner {
      forall r | r in s.members[user] && r in s.roles
        ensures r in RolesOf(s, user)
        ensures (forall t :: t in RolesOf(s, target) ==> s.roles[t].position < s.roles[r].position) <==>
          OverAll(s, target, s.roles[r])
      {
        if target in s.members {
          assert RolesOf(s, target) == s.members[target] * s.roles.Keys;
        }
      }
    }
  }

  lemma MayGrantIs(s: Server, user: string, perms: Bits)
    requires user in s.members
    ensures MayGrant(s, user, perms) <==> HoldsAll(s, user, perms)
  {
    assert ADMINISTRATOR in Combined(s, user) <==>
      exists r :: r in s.members[user] && r in s.roles && ADMINISTRATOR in s.roles[r].perms;
    if ADMINISTRATOR !in Combined(s, user) {
      assert forall b :: b in Combined(s, user) <==>
        exists r :: r in s.members[user] && r in s.roles && b in s.roles[r].perms;
    }
  }

  // ----- what an accepted call leaves

  /** Everything but the named parts is as it was. */
  predicate Same(s: Server, r: Server, roles: bool, members: bool, banned: bool) {
    && r.id == s.id && r.owner == s.owner && (roles ==> r.roles == s.roles)
    && (members ==> r.members == s.members) && (banned ==> r.banned == s.banned)
  }

  /** Every membership but the user's is as it was. */
  ghost predicate OtherMembersStay(s: Server, r: Server, user: string) {
    forall u :: u != user ==> (u in r.members <==> u in s.members) && (u in r.members ==> r.members[u] == s.members[u])
  }

  /** The target holds exactly the listed roles, @everyone apart. */
  lemma SetMemberRolesLaw(s: Server, caller: string, target: string, ids: seq<string>)
    ensures
      var r := Step(s, SetMemberRoles(caller, target, ids));
      if  && |ids| <= 250 && target in s.members && MayDo(s, caller, MANAGE_ROLES)
          && (caller == s.owner || (target != s.owner && target != caller))
          && forall x :: x in ids && x != s.id ==>
               x in s.roles && Above(s, caller, s.roles[x].position) && HoldsAll(s, caller, s.roles[x].perms)
      then
        && Same(s, r, true, false, true) && OtherMembersStay(s, r, target)
        && target in r.members && forall x :: x in r.members[target] <==> x in ids && x != s.id
      else r == s
  {
    PermittedIs(s, caller, MANAGE_ROLES);
    if MayDo(s, caller, MANAGE_ROLES) {
      forall i | 0 <= i < |ids| && ids[i] != s.id && ids[i] in s.roles
        ensures Outranks(s, caller, s.roles[ids[i]].position) <==> Above(s, caller, s.roles[ids[i]].position)
        ensures MayGrant(s, caller, s.roles[ids[i]].perms) <==> HoldsAll(s, caller, s.roles[ids[i]].perms)
      {
        OutranksIs(s, caller, s.roles[ids[i]].position);
        MayGrantIs(s, caller, s.roles[ids[i]].perms);
      }
    }
  }

  /** A new role stands above all others, with the permissions given. */
  lemma CreateRoleLaw(s: Server, caller: string, name: string, perms: Bits, newId: string)
    requires newId !in s.roles
    ensures
      var r := Step(s, CreateRole(caller, name, perms, newId));
      if  && name != "" && MayDo(s, caller, MANAGE_ROLES)
          && (forall b :: b in perms ==> b < 31) && HoldsAll(s, caller, perms)
      then
        && Same(s, r, false, true, true) && r.roles.Keys == s.roles.Keys + {newId} && r.roles[newId].perms == perms
        && (forall x :: x in s.roles ==> r.roles[x] == s.roles[x] && s.roles[x].position < r.roles[newId].position)
        && 0 < r.roles[newId].position
      else r == s
  {
    PermittedIs(s, caller, MANAGE_ROLES);
    if MayDo(s, caller, MANAGE_ROLES) {
      MayGrantIs(s, caller, perms);
    }
  }

  /** The role has the permissions given, at its old position. */
  lemma UpdateRoleLaw(s: Server, caller: string, role: string, rename: bool, newPerms: Option<Bits>)
    ensures
      var r := Step(s, UpdateRole(caller, role, rename, newPerms));
      if  && role in s.roles && MayDo(s, caller, MANAGE_ROLES) && !(role == s.id && rename)
          && Above(s, caller, s.roles[role].position) && newPerms.Some?
          && (forall b :: b in newPerms.value ==> b < 31) && HoldsAll(s, caller, newPerms.value)
      then
        && Same(s, r, false, true, true) && r.roles.Keys == s.roles.Keys
        && r.roles[role].perms == newPerms.value && r.roles[role].position == s.roles[role].position
        && forall x :: x in s.roles && x != role ==> r.roles[x] == s.roles[x]
      else r == s
  {
    PermittedIs(s, caller, MANAGE_ROLES);
    if role in s.roles {
      OutranksIs(s, caller, s.roles[role].position);
    }
    if MayDo(s, caller, MANAGE_ROLES) && newPerms.Some? {
      MayGrantIs(s, caller, newPerms.value);
    }
  }

  /** The role is gone, nobody holds it, the roles above close the gap, and nothing else is lost. */
  lemma DeleteRoleLaw(s: Server, caller: string, role: string)
    ensures
      var r := Step(s, DeleteRole(caller, role));
      if role in s.roles && role != s.id && MayDo(s, caller, MANAGE_ROLES) && Above(s, caller, s.roles[role].position)
      then
        && Same(s, r, false, false, true) && r.roles.Keys == s.roles.Keys - {role} && r.members.Keys == s.members.Keys
        && (forall u :: u in s.members ==> r.members[u] == s.members[u] - {role})
        && forall x :: x in r.roles ==>
             && r.roles[x].perms == s.roles[x].perms
             && r.roles[x].position ==
                  s.roles[x].position - if s.roles[role].position < s.roles[x].position then 1 else 0
      else r == s
  {
    PermittedIs(s, caller, MANAGE_ROLES);
    if role in s.roles {
      OutranksIs(s, caller, s.roles[role].position);
    }
  }

  /** The list names the same roles as the set of those below, repetitions apart. */
  lemma NamesBelow(s: Server, caller: string, ids: seq<string>)
    requires s.id !in ids
    ensures
      (|Deduped(ids, s.id)| == |Below(s, caller)| && forall i :: 0 <= i < |ids| ==> ids[i] in Below(s, caller)) <==>
      SetOf(ids) == Below(s, caller)
  {
    var d, below := Deduped(ids, s.id), Below(s, caller);
    RoleRanks.DedupedIs(ids, s.id);
    RoleRanks.DistinctSize(d);
    assert SetOf(d) == SetOf(ids);
    if SetOf(ids) <= below && |d| == |below| {
      RoleRanks.SubsetOfSameSize(SetOf(ids), below);
    }
    assert (forall i :: 0 <= i < |ids| ==> ids[i] in below) <==> SetOf(ids) <= below;
  }

  lemma BelowIs(s: Server, caller: string, ids: seq<string>)
    ensures SetOf(ids) == Below(s, caller) <==>
      forall x :: x in ids <==> x in s.roles && x != s.id && Above(s, caller, s.roles[x].position)
  {
    forall x ensures x in Below(s, caller) <==> x in s.roles && x != s.id && Above(s, caller, s.roles[x].position) {
      if x in s.roles {
        OutranksIs(s, caller, s.roles[x].position);
      }
    }
    assert forall x :: x in SetOf(ids) <==> x in ids;
  }

  /** A reorder is accepted exactly for a list of the roles below the caller, in any order. */
  lemma MayReorderIs(s: Server, caller: string, ids: seq<string>)
    ensures MayReorder(s, caller, ids) <==>
      && 0 < |ids| <= 250 && s.id !in ids && MayDo(s, caller, MANAGE_ROLES)
      && forall x :: x in ids <==> x in s.roles && x != s.id && Above(s, caller, s.roles[x].position)
  {
    PermittedIs(s, caller, MANAGE_ROLES);
    BelowIs(s, caller, ids);
    if s.id !in ids {
      NamesBelow(s, caller, ids);
    }
  }

  /** A reorder moves roles and does nothing else; a refused one does nothing. */
  lemma ReorderRolesLaw(s: Server, caller: string, ids: seq<string>)
    ensures
      var r := Step(s, ReorderRoles(caller, ids));
      && Same(s, r, false, true, true) && r.roles.Keys == s.roles.Keys
      && (forall x :: x in s.roles ==> r.roles[x].perms == s.roles[x].perms)
      && (!(&& 0 < |ids| <= 250 && s.id !in ids && MayDo(s, caller, MANAGE_ROLES)
            && forall x :: x in ids <==> x in s.roles && x != s.id && Above(s, caller, s.roles[x].position)) ==>
            r == s)
  {
    MayReorderIs(s, caller, ids);
  }

  lemma KickLaw(s: Server, caller: string, target: string)
    ensures
      var r := Step(s, Kick(caller, target));
      if MayDo(s, caller, KICK_MEMBERS) && target != caller && target != s.owner && target in s.members
         && AboveMember(s, caller, target)
      then Same(s, r, true, false, true) && target !in r.members && OtherMembersStay(s, r, target)
      else r == s
  {
    PermittedIs(s, caller, KICK_MEMBERS);
    OutranksMemberIs(s, caller, target);
  }

  /** A ban is recorded, and a member banned is a member no more. */
  lemma BanLaw(s: Server, caller: string, target: string)
    ensures
      var r := Step(s, Ban(caller, target));
      if MayDo(s, caller, BAN_MEMBERS) && target != caller && target != s.owner && target !in s.banned
         && (target in s.members ==> AboveMember(s, caller, target))
      then
        && Same(s, r, true, false, false) && target !in r.members && OtherMembersStay(s, r, target)
        && forall u :: u in r.banned <==> u in s.banned || u == target
      else r == s
  {
    PermittedIs(s, caller, BAN_MEMBERS);
    OutranksMemberIs(s, caller, target);
  }

  /** Rank plays no part in lifting a ban, and lifting one does not make a member. */
  lemma UnbanLaw(s: Server, caller: string, target: string)
    ensures
      var r := Step(s, Unban(caller, target));
      if MayDo(s, caller, BAN_MEMBERS) && target in s.banned then
        Same(s, r, true, true, false) && forall u :: u in r.banned <==> u in s.banned && u != target
      else r == s
  {
    PermittedIs(s, caller, BAN_MEMBERS);
  }

  /** Whoever is not banned may join, without roles; whoever but the owner may leave. */
  lemma JoinLeaveLaw(s: Server, user: string)
    ensures
      var r := Step(s, Join(user));
      && Same(s, r, true, false, true) && OtherMembersStay(s, r, user)
      && (user in s.members || user in s.banned ==> r == s)
      && (user !in s.members && user !in s.banned ==> user in r.members && r.members[user] == {})
    ensures
      var r := Step(s, Leave(user));
      && Same(s, r, true, false, true) && OtherMembersStay(s, r, user)
      && (user in r.members <==> user == s.owner && user in s.members) && (user == s.owner ==> r == s)
  {
  }

  // ----- a ban lasts

  predicate Barred(s: Server, user: string) {
    user in s.banned && user !in s.members
  }

  /** The call lifts the user's ban. */
  predicate Lifts(s: Server, c: Call, user: string) {
    c.Unban? && c.target == user && MayDo(s, c.caller, BAN_MEMBERS)
  }

  lemma StepStaysBarred(s: Server, c: Call, user: string)
    requires Barred(s, user)
    ensures Barred(Step(s, c), user) <==> !Lifts(s, c, user)
  {
    if c.Unban? {
      PermittedIs(s, c.caller, BAN_MEMBERS);
    }
  }

  ghost predicate LiftedIn(s: Server, calls: seq<Call>, user: string) {
    exists k :: 0 <= k < |calls| && Lifts(Run(s, calls[..k]), calls[k], user)
  }

  lemma NotLiftedBefore(s: Server, calls: seq<Call>, user: string)
    requires calls != [] && !LiftedIn(s, calls, user)
    ensures !LiftedIn(s, calls[..|calls| - 1], user)
    ensures !Lifts(Run(s, calls[..|calls| - 1]), calls[|calls| - 1], user)
  {
    var n := |calls| - 1;
    forall k | 0 <= k < n ensures !Lifts(Run(s, calls[..n][..k]), calls[..n][k], user) {
      assert calls[..n][..k] == calls[..k];
      assert !Lifts(Run(s, calls[..k]), calls[k], user);
    }
  }

  /** Whoever is banned stays banned, and is never a member, as long as the ban is not lifted. */
  lemma {:induction false} BarredUntilLifted(s: Server, calls: seq<Call>, user: string)
    requires Barred(s, user) && !LiftedIn(s, calls, user)
    ensures Barred(Run(s, calls), user)
  {
    if calls != [] {
      NotLiftedBefore(s, calls, user);
      BarredUntilLifted(s, calls[..|calls| - 1], user);
      StepStaysBarred(Run(s, calls[..|calls| - 1]), calls[|calls| - 1], user);
    }
  }

  /** After an accepted ban, at every point of any further run up to the call that lifts it. */
  lemma BanLasts(s: Server, caller: string, target: string, calls: seq<Call>)
    requires MayDo(s, caller, BAN_MEMBERS) && target != caller && target != s.owner && target !in s.banned
    requires target in s.members ==> AboveMember(s, caller, target)
    requires !LiftedIn(Step(s, Ban(caller, target)), calls, target)
    ensures
      var r := Run(Step(s, Ban(caller, target)), calls);
      target in r.banned && target !in r.members
  {
    BanLaw(s, caller, target);
    BarredUntilLifted(Step(s, Ban(caller, target)), calls, target);
  }
}
