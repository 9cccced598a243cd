/**
 Roles of one server and who may change them: SetMemberRoles, CreateRole, UpdateRole, DeleteRole,
 ReorderRoles, KickMember, BanMember and UnbanMember (server/cmd/chat/service_moderation.go), requirePermission
 (service.go) and the role table with its position arithmetic (server/internal/store/role_store.go).

 Every refused call leaves the server as it was.  The owner outranks every position.
 */
module Roles {
  import opened Common
  import opened Permissions

  const MAX_ROLE_IDS := 250

  datatype Role = Role(perms: Bits, position: nat)

  /** The role whose id is the server's is @everyone. */
  datatype Server = Server(id: string, owner: string, roles: map<string, Role>, members: map<string, set<string>>,
      banned: set<string>)

  datatype Call =
    | SetMemberRoles(caller: string, target: string, ids: seq<string>)
    | CreateRole(caller: string, name: string, perms: Bits, newId: string)
    | UpdateRole(caller: string, role: string, rename: bool, newPerms: Option<Bits>)
    | DeleteRole(caller: string, role: string)
    | ReorderRoles(caller: string, ids: seq<string>)
    | Kick(caller: string, target: string)
    | Ban(caller: string, target: string)
    | Unban(caller: string, target: string)
    | Join(user: string)
    | Leave(user: string)

  /** Whose authority the call uses. */
  function Actor(c: Call): Option<string> {
    if c.Join? || c.Leave? then None else Some(c.caller)
  }

  // ----- permissions and rank

  /** The roles a member is joined with; @everyone is not among them. */
  function RolesOf(s: Server, user: string): set<string> {
    if user in s.members then s.members[user] * s.roles.Keys else {}
  }

  function Combined(s: Server, user: string): Bits {
    set r, b | r in RolesOf(s, user) && b in s.roles[r].perms :: b
  }

  /** effectiveCallerPerms of the escalation checks. */
  function Grantable(s: Server, user: string): Bits {
    if ADMINISTRATOR in Combined(s, user) then ALL else Combined(s, user)
  }

  predicate Outranks(s: Server, user: string, position: nat) {
    user == s.owner || exists r :: r in RolesOf(s, user) && s.roles[r].position > position
  }

  /** callerPos > targetPos, where a member without roles stands at 0. */
  predicate OutranksMember(s: Server, user: string, target: string) {
    user == s.owner ||
    exists r :: r in RolesOf(s, user) && s.roles[r].position > 0 &&
      forall t :: t in RolesOf(s, target) ==> s.roles[t].position < s.roles[r].position
  }

  predicate Permitted(s: Server, user: string, perm: nat) {
    user in s.members && (user == s.owner || Has(Combined(s, user), perm))
  }

  /** The no-escalation check of the three role handlers. */
  predicate MayGrant(s: Server, user: string, perms: Bits) {
    user == s.owner || perms <= Grantable(s, user)
  }

  /** Drops `skip` and every repetition, keeping first occurrences. */
  function Deduped(ids: seq<string>, skip: string): seq<string> {
    if ids == [] then []
    else
      var d := Deduped(ids[..|ids| - 1], skip);
      var x := ids[|ids| - 1];
      if x == skip || x in d then d else d + [x]
  }

  // ----- what each call requires

  predicate MaySetRoles(s: Server, caller: string, target: string, ids: seq<string>) {
    && |ids| <= MAX_ROLE_IDS
    && target in s.members && Permitted(s, caller, MANAGE_ROLES)
    && (caller == s.owner || (target != s.owner && target != caller))
    && (forall i :: 0 <= i < |ids| && ids[i] != s.id ==> ids[i] in s.roles)
    && (forall i :: 0 <= i < |ids| && ids[i] != s.id ==>
          Outranks(s, caller, s.roles[ids[i]].position) && MayGrant(s, caller, s.roles[ids[i]].perms))
  }

  predicate MayCreate(s: Server, caller: string, name: string, perms: Bits) {
    name != "" && Permitted(s, caller, MANAGE_ROLES) && perms <= ALL && MayGrant(s, caller, perms)
  }

  predicate MayUpdate(s: Server, caller: string, role: string, rename: bool, newPerms: Option<Bits>) {
    && role in s.roles && Permitted(s, caller, MANAGE_ROLES)
    && !(role == s.id && rename)
    && Outranks(s, caller, s.roles[role].position)
    && (newPerms.Some? ==> newPerms.value <= ALL && MayGrant(s, caller, newPerms.value))
  }

  predicate MayDelete(s: Server, caller: string, role: string) {
    role in s.roles && role != s.id && Permitted(s, caller, MANAGE_ROLES) && Outranks(s, caller, s.roles[role].position)
  }

  ghost function Below(s: Server, caller: string): set<string> {
    set r | r in s.roles && r != s.id && Outranks(s, caller, s.roles[r].position)
  }

  /** The list names exactly the roles below the caller, repetitions apart. */
  ghost predicate MayReorder(s: Server, caller: string, ids: seq<string>) {
    && 0 < |ids| <= MAX_ROLE_IDS && s.id !in ids && Permitted(s, caller, MANAGE_ROLES)
    && |Deduped(ids, s.id)| == |Below(s, caller)|
    && forall i :: 0 <= i < |ids| ==> ids[i] in Below(s, caller)
  }

  predicate MayRemove(s: Server, caller: string, target: string, perm: nat) {
    Permitted(s, caller, perm) && target != caller && target != s.owner
      && (target in s.members ==> OutranksMember(s, caller, target))
  }

  // ----- what each call does

  /** Deletes the role, its assignments, and closes the gap in the positions. */
  function WithoutRole(s: Server, role: string): Server
    requires role in s.roles
  {
    var p := s.roles[role].position;
    s.(roles := map r | r in s.roles && r != role ::
                  if s.roles[r].position > p then Role(s.roles[r].perms, s.roles[r].position - 1) else s.roles[r],
       members := map u | u in s.members :: s.members[u] - {role})
  }

  function IndexOf(q: seq<string>, x: string): (i: nat)
    requires x in q
    ensures i < |q| && q[i] == x
  {
    if q[|q| - 1] == x then |q| - 1 else IndexOf(q[..|q| - 1], x)
  }

  /** First statement of the reorder: the listed roles take the positions 1, 2, ... */
  function Listed(roles: map<string, Role>, ids: seq<string>): map<string, Role> {
    map r | r in roles :: if r in ids then Role(roles[r].perms, IndexOf(ids, r) + 1) else roles[r]
  }

  /** The rows its second statement selects: those now at or above the caller's position. */
  function Upper(s: Server, caller: string, roles: map<string, Role>): set<string> {
    set r | r in roles && r != s.id && !Outranks(s, caller, roles[r].position)
  }

  /** ROW_NUMBER() over the selected rows by position. */
  function RowNumber(upper: set<string>, roles: map<string, Role>, r: string): nat
    requires upper <= roles.Keys && r in roles
  {
    |set x | x in upper && roles[x].position <= roles[r].position|
  }

  /** Second statement: the selected roles follow the listed ones, in the order they had. */
  function Shifted(roles: map<string, Role>, upper: set<string>, offset: nat): map<string, Role>
    requires upper <= roles.Keys
  {
    map r | r in roles :: if r in upper then Role(roles[r].perms, offset + RowNumber(upper, roles, r)) else roles[r]
  }

  function Reordered(s: Server, caller: string, ids: seq<string>): Server {
    var listed := Listed(s.roles, ids);
    s.(roles := Shifted(listed, Upper(s, caller, listed), |ids|))
  }

  function WithoutMember(s: Server, user: string): Server {
    s.(members := s.members - {user})
  }

  ghost function Step(s: Server, c: Call): Server {
    match c
    case SetMemberRoles(caller, target, ids) =>
      if MaySetRoles(s, caller, target, ids) then s.(members := s.members[target := SetOf(ids) - {s.id}]) else s
    case CreateRole(caller, name, perms, newId) =>
      if MayCreate(s, caller, name, perms) then
        s.(roles := s.roles[newId := Role(perms, TopPosition(s.roles) + 1)])
      else s
    case UpdateRole(caller, role, rename, newPerms) =>
      if MayUpdate(s, caller, role, rename, newPerms) && newPerms.Some? then
        s.(roles := s.roles[role := Role(newPerms.value, s.roles[role].position)])
      else s
    case DeleteRole(caller, role) =>
      if MayDelete(s, caller, role) then WithoutRole(s, role) else s
    case ReorderRoles(caller, ids) =>
      if MayReorder(s, caller, ids) then Reordered(s, caller, Deduped(ids, s.id)) else s
    case Kick(caller, target) =>
      if MayRemove(s, caller, target, KICK_MEMBERS) && target in s.members then WithoutMember(s, target) else s
    case Ban(caller, target) =>
      if MayRemove(s, caller, target, BAN_MEMBERS) && target !in s.banned then
        WithoutMember(s, target).(banned := s.banned + {target})
      else s
    case Unban(caller, target) =>
      if Permitted(s, caller, BAN_MEMBERS) && target in s.banned then s.(banned := s.banned - {target}) else s
    case Join(user) =>
      if user in s.members || user in s.banned then s else s.(members := s.members[user := {}])
    case Leave(user) =>
      if user == s.owner then s else WithoutMember(s, user)
  }

  /** COALESCE(MAX(position), 0). */
  ghost function TopPosition(roles: map<string, Role>): (p: nat)
    ensures forall r :: r in roles ==> roles[r].position <= p
    ensures p > 0 ==> exists r :: r in roles && roles[r].position == p
    decreases |roles|
  {
    if roles == map[] then 0
    else
      var r :| r in roles;
      assert (roles - {r}).Keys == roles.Keys - {r};
      var p := TopPosition(roles - {r});
      assert forall x :: x in roles ==> x == r || x in roles - {r};
      assert p > 0 ==> exists x :: x in roles - {r} && (roles - {r})[x].position == p;
      if roles[r].position > p then roles[r].position else p
  }

  /** New ids are new. */
  predicate Legal(s: Server, c: Call) {
    c.CreateRole? ==> c.newId !in s.roles && c.newId != s.id && forall u :: u in s.members ==> c.newId !in s.members[u]
  }

  ghost function Run(s: Server, calls: seq<Call>): Server {
    if calls == [] then s else Step(Run(s, calls[..|calls| - 1]), calls[|calls| - 1])
  }

  ghost predicate LegalRun(s: Server, calls: seq<Call>) {
    forall i :: 0 <= i < |calls| ==> Legal(Run(s, calls[..i]), calls[i])
  }

  // ----- no escalation

  /** A bitfield with Administrator expanded. */
  function Expand(p: Bits): Bits {
    if ADMINISTRATOR in p then ALL + p else p
  }

  function Held(s: Server, user: string): Bits {
    Expand(Combined(s, user))
  }

  function Everyone(s: Server): Bits {
    if s.id in s.roles then s.roles[s.id].perms else {}
  }

  /** Some member of the group holds the bit. */
  ghost predicate GroupHolds(s: Server, group: iset<string>, b: nat) {
    exists g :: g in group && b in Held(s, g)
  }

  /** A bit a user gains in one step was the user's already, or the caller's to grant. */
  lemma StepGrants(s: Server, c: Call, user: string, b: nat)
    requires Legal(s, c) && Actor(c) != Some(s.owner) && b in Combined(Step(s, c), user)
    ensures b in Combined(s, user) || (Actor(c).Some? && b in Grantable(s, Actor(c).value))
  {
    var s' := Step(s, c);
    var r :| r in RolesOf(s', user) && b in s'.roles[r].perms;
    match c
    case SetMemberRoles(caller, target, ids) =>
      if user == target && s' != s {
        assert r in SetOf(ids) - {s.id};
        var i :| 0 <= i < |ids| && ids[i] == r;
        assert MayGrant(s, caller, s.roles[ids[i]].perms);
      } else {
        assert r in RolesOf(s, user);
      }
    case _ =>
      assert r in RolesOf(s, user);
  }

  lemma StepEveryone(s: Server, c: Call, b: nat)
    requires Legal(s, c) && Actor(c) != Some(s.owner) && b in Everyone(Step(s, c))
    ensures b in Everyone(s) || (Actor(c).Some? && b in Grantable(s, Actor(c).value))
  {
  }

  /** The same with Administrator expanded, for a group that the caller belongs to. */
  lemma StepHeld(s: Server, c: Call, group: iset<string>, user: string, b: nat)
    requires Legal(s, c) && s.owner !in group && (Actor(c).Some? ==> Actor(c).value in group)
    requires b in Held(Step(s, c), user)
    ensures b in Held(s, user) || GroupHolds(s, group, b)
  {
    var bit := if b in Combined(Step(s, c), user) then b else ADMINISTRATOR;
    StepGrants(s, c, user, bit);
    if bit !in Combined(s, user) {
      assert b in Held(s, Actor(c).value);
    }
  }

  ghost predicate ActorsIn(calls: seq<Call>, group: iset<string>) {
    forall i :: 0 <= i < |calls| && Actor(calls[i]).Some? ==> Actor(calls[i]).value in group
  }

  lemma LegalPrefix(s: Server, calls: seq<Call>)
    requires calls != [] && LegalRun(s, calls)
    ensures LegalRun(s, calls[..|calls| - 1]) && Legal(Run(s, calls[..|calls| - 1]), calls[|calls| - 1])
  {
    var p := calls[..|calls| - 1];
    forall i | 0 <= i < |p| ensures Legal(Run(s, p[..i]), p[i]) {
      assert p[..i] == calls[..i];
    }
  }

  lemma PrefixOk(s: Server, calls: seq<Call>, group: iset<string>)
    requires calls != [] && LegalRun(s, calls) && ActorsIn(calls, group)
    ensures LegalRun(s, calls[..|calls| - 1]) && ActorsIn(calls[..|calls| - 1], group)
    ensures Legal(Run(s, calls[..|calls| - 1]), calls[|calls| - 1])
    ensures Actor(calls[|calls| - 1]).Some? ==> Actor(calls[|calls| - 1]).value in group
  {
    LegalPrefix(s, calls);
  }

  lemma {:induction false} OwnerStays(s: Server, calls: seq<Call>)
    ensures Run(s, calls).owner == s.owner && Run(s, calls).id == s.id
  {
    if calls != [] {
      OwnerStays(s, calls[..|calls| - 1]);
    }
  }

  /**
   No run by a group of non-owners, whatever they do for each other, gives any member a bit that the
   member did not hold and the group could not grant at the start.
   */
  lemma {:induction false} NoEscalation(s: Server, calls: seq<Call>, group: iset<string>, user: string, b: nat)
    requires LegalRun(s, calls) && ActorsIn(calls, group) && s.owner !in group
    requires b in Held(Run(s, calls), user)
    ensures b in Held(s, user) || GroupHolds(s, group, b)
  {
    if calls != [] {
      PrefixOk(s, calls, group);
      var p := calls[..|calls| - 1];
      OwnerStays(s, p);
      StepHeld(Run(s, p), calls[|calls| - 1], group, user, b);
      if b in Held(Run(s, p), user) {
        NoEscalation(s, p, group, user, b);
      } else {
        var g :| g in group && b in Held(Run(s, p), g);
        NoEscalation(s, p, group, g, b);
      }
    }
  }

  /** The same for @everyone. */
  lemma {:induction false} NoEscalationForEveryone(s: Server, calls: seq<Call>, group: iset<string>, b: nat)
    requires LegalRun(s, calls) && ActorsIn(calls, group) && s.owner !in group
    requires b in Everyone(Run(s, calls))
    ensures b in Everyone(s) || GroupHolds(s, group, b)
  {
    if calls != [] {
      PrefixOk(s, calls, group);
      var p, c := calls[..|calls| - 1], calls[|calls| - 1];
      OwnerStays(s, p);
      StepEveryone(Run(s, p), c, b);
      if b in Everyone(Run(s, p)) {
        NoEscalationForEveryone(s, p, group, b);
      } else {
        NoEscalation(s, p, group, Actor(c).value, b);
      }
    }
  }

  predicate NotOwner(s: Server, user: string) {
    user != s.owner
  }

  ghost function NonOwners(s: Server): iset<string> {
    iset u | NotOwner(s, u)
  }

  /** A bit somebody other than the owner has, or everyone has. */
  ghost predicate InUse(s: Server, b: nat) {
    GroupHolds(s, NonOwners(s), b) || b in Expand(Everyone(s))
  }

  /** Over any run by non-owners the permissions in use outside the owner's hands never grow. */
  lemma UnionNeverGrows(s: Server, calls: seq<Call>, b: nat)
    requires LegalRun(s, calls) && ActorsIn(calls, NonOwners(s)) && InUse(Run(s, calls), b)
    ensures InUse(s, b)
  {
    var s', group := Run(s, calls), NonOwners(s);
    OwnerStays(s, calls);
    if GroupHolds(s', group, b) {
      var g :| g in group && b in Held(s', g);
      NoEscalation(s, calls, group, g, b);
    } else {
      var bit := if b in Everyone(s') then b else ADMINISTRATOR;
      NoEscalationForEveryone(s, calls, group, bit);
      if bit !in Everyone(s) {
        var g :| g in group && bit in Held(s, g);
        assert b in Held(s, g);
      }
    }
  }
}
