/**
 The role handlers in the order they check things (server/cmd/chat/service_moderation.go and
 requirePermission in service.go).  Each is one step of the model in Roles.
 */
module RoleService {
  import opened Common
  import opened Permissions
  import opened Roles
  import opened RoleRanks

  /** The highest position among the user's roles, 0 without roles. */
  ghost predicate IsTop(s: Server, user: string, top: nat) {
    && (forall r :: r in RolesOf(s, user) ==> s.roles[r].position <= top)
    && (top > 0 ==> exists r :: r in RolesOf(s, user) && s.roles[r].position == top)
  }

  /** The loop of requirePermission: combined bits and highest position. */
  method Tally(s: Server, user: string) returns (combined: Bits, top: nat)
    ensures combined == Combined(s, user) && IsTop(s, user, top)
  {
    combined, top := {}, 0;
    var rest := RolesOf(s, user);
    while rest != {}
      invariant rest <= RolesOf(s, user)
      invariant forall b :: b in combined <==> exists r :: r in RolesOf(s, user) - rest && b in s.roles[r].perms
      invariant forall r :: r in RolesOf(s, user) - rest ==> s.roles[r].position <= top
      invariant top > 0 ==> exists r :: r in RolesOf(s, user) && s.roles[r].position == top
      decreases rest
    {
      var r :| r in rest;
      combined := combined + s.roles[r].perms;
      if s.roles[r].position > top {
        top := s.roles[r].position;
      }
      rest := rest - {r};
    }
  }

  datatype Standing = Denied | Standing(isOwner: bool, top: nat, perms: Bits)

  ghost predicate Describes(st: Standing, s: Server, user: string) {
    st.Standing? && (st.isOwner <==> user == s.owner)
      && (!st.isOwner ==> IsTop(s, user, st.top) && st.perms == Combined(s, user))
  }

  /** requireMembership and requirePermission. */
  method RequirePermission(s: Server, user: string, perm: nat) returns (st: Standing)
    ensures st.Denied? <==> !Permitted(s, user, perm)
    ensures !st.Denied? ==> Describes(st, s, user)
  {
    if user !in s.members {
      return Denied;
    }
    if user == s.owner {
      return Standing(true, 0, ALL);
    }
    var combined, top := Tally(s, user);
    if !Has(combined, perm) {
      return Denied;
    }
    return Standing(false, top, combined);
  }

  predicate Over(st: Standing, position: nat)
    requires st.Standing?
  {
    st.isOwner || position < st.top
  }

  lemma OverIsOutranks(st: Standing, s: Server, user: string, position: nat)
    requires Describes(st, s, user)
    ensures Over(st, position) <==> Outranks(s, user, position)
  {
  }

  /** perms &^ limit != 0 */
  predicate Exceeds(perms: Bits, limit: Bits): (r: bool)
    ensures r <==> !(perms <= limit)
  {
    assert forall b :: b in perms ==> b in perms - limit || b in limit;
    perms - limit != {}
  }

  function EffectivePerms(st: Standing): Bits
    requires st.Standing?
  {
    if ADMINISTRATOR in st.perms then ALL else st.perms
  }

  method Dedupe(ids: seq<string>, skip: string) returns (r: seq<string>)
    ensures r == Deduped(ids, skip)
  {
    var seen: set<string> := {};
    r := [];
    for i := 0 to |ids|
      invariant r == Deduped(ids[..i], skip) && seen == SetOf(r)
    {
      assert ids[..i + 1][..i] == ids[..i];
      if ids[i] != skip && ids[i] !in seen {
        seen := seen + {ids[i]};
        assert SetOf(r + [ids[i]]) == SetOf(r) + {ids[i]};
        r := r + [ids[i]];
      }
    }
    assert ids[..|ids|] == ids;
  }

  /** Hierarchy and escalation checks over the fetched roles. */
  method MayAssign(s: Server, st: Standing, caller: string, ids: seq<string>) returns (ok: bool)
    requires Describes(st, s, caller) && forall i :: 0 <= i < |ids| ==> ids[i] in s.roles
    ensures ok <==> forall i :: 0 <= i < |ids| ==>
      Outranks(s, caller, s.roles[ids[i]].position) && MayGrant(s, caller, s.roles[ids[i]].perms)
  {
    if st.isOwner {
      return true;
    }
    for i := 0 to |ids|
      invariant forall j :: 0 <= j < i ==> Outranks(s, caller, s.roles[ids[j]].position)
    {
      OverIsOutranks(st, s, caller, s.roles[ids[i]].position);
      if s.roles[ids[i]].position >= st.top {
        return false;
      }
    }
    var given: Bits := {};
    for i := 0 to |ids|
      invariant forall b :: b in given <==> exists j :: 0 <= j < i && b in s.roles[ids[j]].perms
    {
      given := given + s.roles[ids[i]].perms;
    }
    ok := !Exceeds(given, EffectivePerms(st));
    forall i | ok && 0 <= i < |ids| ensures MayGrant(s, caller, s.roles[ids[i]].perms) {
      assert forall b :: b in s.roles[ids[i]].perms ==> b in given;
    }
  }

  lemma SameIds(ids: seq<string>, skip: string, x: string)
    ensures x in Deduped(ids, skip) <==> x in ids && x != skip
  {
    DedupedIs(ids, skip);
    assert x in SetOf(Deduped(ids, skip)) <==> x in SetOf(ids) - {skip};
  }

  /** The whole decision of SetMemberRoles. */
  method CheckSetRoles(s: Server, caller: string, target: string, ids: seq<string>)
    returns (ok: bool, deduped: seq<string>)
    ensures ok <==> MaySetRoles(s, caller, target, ids)
    ensures ok ==> SetOf(deduped) == SetOf(ids) - {s.id}
  {
    deduped := [];
    if |ids| > MAX_ROLE_IDS || target !in s.members {
      return false, deduped;
    }
    var st := RequirePermission(s, caller, MANAGE_ROLES);
    if st.Denied? || (target == s.owner && caller != s.owner) || (target == caller && caller != s.owner) {
      return false, deduped;
    }
    deduped := Dedupe(ids, s.id);
    DedupedIs(ids, s.id);
    for i := 0 to |deduped|
      invariant forall j :: 0 <= j < i ==> deduped[j] in s.roles
    {
      if deduped[i] !in s.roles {
        SameIds(ids, s.id, deduped[i]);
        assert exists j :: 0 <= j < |ids| && ids[j] == deduped[i];
        return false, deduped;
      }
    }
    forall i | 0 <= i < |ids| && ids[i] != s.id ensures ids[i] in deduped {
      SameIds(ids, s.id, ids[i]);
    }
    forall i | 0 <= i < |deduped| ensures deduped[i] in ids && deduped[i] != s.id {
      SameIds(ids, s.id, deduped[i]);
    }
    ok := MayAssign(s, st, caller, deduped);
  }

  /** The store's check that the list names exactly the roles below the caller. */
  method CheckReorder(s: Server, caller: string, ids: seq<string>) returns (ok: bool, deduped: seq<string>)
    ensures ok <==> MayReorder(s, caller, ids)
    ensures ok ==> deduped == Deduped(ids, s.id)
  {
    deduped := [];
    if ids == [] || |ids| > MAX_ROLE_IDS {
      return false, deduped;
    }
    var st := RequirePermission(s, caller, MANAGE_ROLES);
    if st.Denied? || s.id in ids {
      return false, deduped;
    }
    deduped := Dedupe(ids, s.id);
    var below := CollectBelow(s, st, caller);
    if |deduped| != |below| {
      return false, deduped;
    }
    for i := 0 to |deduped|
      invariant forall j :: 0 <= j < i ==> deduped[j] in below
    {
      if deduped[i] !in below {
        SameIds(ids, s.id, deduped[i]);
        return false, deduped;
      }
    }
    forall i | 0 <= i < |ids| ensures ids[i] in below {
      SameIds(ids, s.id, ids[i]);
    }
    return true, deduped;
  }

  method CollectBelow(s: Server, st: Standing, caller: string) returns (below: set<string>)
    requires Describes(st, s, caller)
    ensures below == Below(s, caller)
  {
    below := {};
    var rest := s.roles.Keys;
    while rest != {}
      invariant rest <= s.roles.Keys
      invariant below == Below(s, caller) - rest
      decreases rest
    {
      var r :| r in rest;
      OverIsOutranks(st, s, caller, s.roles[r].position);
      if r != s.id && Over(st, s.roles[r].position) {
        below := below + {r};
      }
      rest := rest - {r};
    }
  }

  class ChatService {
    var server: Server

    constructor (s: Server)
      ensures server == s
    {
      server := s;
    }

    method SetMemberRoles(caller: string, target: string, ids: seq<string>) returns (ok: bool)
      modifies this
      ensures ok <==> MaySetRoles(old(server), caller, target, ids)
      ensures server == Step(old(server), Call.SetMemberRoles(caller, target, ids))
    {
      var deduped;
      ok, deduped := CheckSetRoles(server, caller, target, ids);
      if ok {
        server := server.(members := server.members[target := set r | r in deduped]);
      }
    }

    method UpdateRole(caller: string, role: string, rename: bool, newPerms: Option<Bits>) returns (ok: bool)
      modifies this
      ensures ok <==> MayUpdate(old(server), caller, role, rename, newPerms)
      ensures server == Step(old(server), Call.UpdateRole(caller, role, rename, newPerms))
    {
      if role !in server.roles {
        return false;
      }
      var st := RequirePermission(server, caller, MANAGE_ROLES);
      if st.Denied? || (role == server.id && rename) {
        return false;
      }
      OverIsOutranks(st, server, caller, server.roles[role].position);
      if !Over(st, server.roles[role].position) {
        return false;
      }
      if newPerms.Some? {
        if Exceeds(newPerms.value, ALL) || (!st.isOwner && Exceeds(newPerms.value, EffectivePerms(st))) {
          return false;
        }
        server := server.(roles := server.roles[role := Role.Role(newPerms.value, server.roles[role].position)]);
      }
      return true;
    }

    method CreateRole(caller: string, name: string, perms: Bits, newId: string) returns (ok: bool)
      modifies this
      ensures ok <==> MayCreate(old(server), caller, name, perms)
      ensures server == Step(old(server), Call.CreateRole(caller, name, perms, newId))
    {
      if name == "" {
        return false;
      }
      var st := RequirePermission(server, caller, MANAGE_ROLES);
      if st.Denied? || Exceeds(perms, ALL) || (!st.isOwner && Exceeds(perms, EffectivePerms(st))) {
        return false;
      }
      var top := MaxPosition(server.roles);
      server := server.(roles := server.roles[newId := Role.Role(perms, top + 1)]);
      return true;
    }

    method DeleteRole(caller: string, role: string) returns (ok: bool)
      modifies this
      ensures ok <==> MayDelete(old(server), caller, role)
      ensures server == Step(old(server), Call.DeleteRole(caller, role))
    {
      if role !in server.roles {
        return false;
      }
      var st := RequirePermission(server, caller, MANAGE_ROLES);
      if st.Denied? || role == server.id {
        return false;
      }
      OverIsOutranks(st, server, caller, server.roles[role].position);
      if !Over(st, server.roles[role].position) {
        return false;
      }
      server := WithoutRole(server, role);
      return true;
    }

    /** The two UPDATE statements, the second over what the first left. */
    method ReorderRoles(caller: string, ids: seq<string>) returns (ok: bool)
      modifies this
      ensures ok <==> MayReorder(old(server), caller, ids)
      ensures server == Step(old(server), Call.ReorderRoles(caller, ids))
    {
      var deduped;
      ok, deduped := CheckReorder(server, caller, ids);
      if ok {
        var before := server;
        server := server.(roles := Listed(server.roles, deduped));
        var upper := Upper(before, caller, server.roles);
        server := server.(roles := Shifted(server.roles, upper, |deduped|));
      }
    }

    method KickMember(caller: string, target: string) returns (ok: bool)
      modifies this
      ensures ok <==> MayRemove(old(server), caller, target, KICK_MEMBERS) && target in old(server).members
      ensures server == Step(old(server), Kick(caller, target))
    {
      var st := RequirePermission(server, caller, KICK_MEMBERS);
      if st.Denied? || target == caller || target == server.owner || target !in server.members {
        return false;
      }
      var _, targetTop := Tally(server, target);
      OverIsOutranksMember(st, server, caller, target, targetTop);
      if !Over(st, targetTop) {
        return false;
      }
      server := server.(members := server.members - {target});
      return true;
    }

    method BanMember(caller: string, target: string) returns (ok: bool)
      modifies this
      ensures ok <==> MayRemove(old(server), caller, target, BAN_MEMBERS) && target !in old(server).banned
      ensures server == Step(old(server), Ban(caller, target))
    {
      var st := RequirePermission(server, caller, BAN_MEMBERS);
      if st.Denied? || target == caller || target == server.owner || target in server.banned {
        return false;
      }
      if target in server.members {
        var _, targetTop := Tally(server, target);
        OverIsOutranksMember(st, server, caller, target, targetTop);
        if !Over(st, targetTop) {
          return false;
        }
      }
      server := server.(members := server.members - {target}, banned := server.banned + {target});
      return true;
    }

    method UnbanMember(caller: string, target: string) returns (ok: bool)
      modifies this
      ensures ok <==> Permitted(old(server), caller, BAN_MEMBERS) && target in old(server).banned
      ensures server == Step(old(server), Unban(caller, target))
    {
      var st := RequirePermission(server, caller, BAN_MEMBERS);
      if st.Denied? || target !in server.banned {
        return false;
      }
      server := server.(banned := server.banned - {target});
      return true;
    }
  }

  lemma OverIsOutranksMember(st: Standing, s: Server, user: string, target: string, targetTop: nat)
    requires Describes(st, s, user) && IsTop(s, target, targetTop)
    ensures Over(st, targetTop) <==> OutranksMember(s, user, target)
  {
  }

  method MaxPosition(roles: map<string, Role>) returns (top: nat)
    ensures top == TopPosition(roles)
  {
    top := 0;
    var rest := roles.Keys;
    while rest != {}
      invariant rest <= roles.Keys
      invariant forall r :: r in roles.Keys - rest ==> roles[r].position <= top
      invariant top > 0 ==> exists r :: r in roles && roles[r].position == top
      decreases rest
    {
      var r :| r in rest;
      if roles[r].position > top {
        top := roles[r].position;
      }
      rest := rest - {r};
    }
  }
}
