/**
 The ranking of roles over runs: positions stay contiguous (server/internal/store/role_store.go), a
 reorder moves exactly the roles below the caller, and no group of non-owners ever reaches a role that
 stood above all of them.
 */
module RoleRanks {
  import opened Common
  import opened Permissions
  import opened Roles

  /** `order` lists the roles other than @everyone from the bottom, and their positions are 1, 2, ... */
  ghost predicate Ranked(s: Server, order: seq<string>) {
    && s.id in s.roles && s.roles[s.id].position == 0
    && Distinct(order)
    && SetOf(order) == s.roles.Keys - {s.id}
    && forall i :: 0 <= i < |order| ==> order[i] in s.roles && s.roles[order[i]].position == i + 1
  }

  ghost predicate Contiguous(s: Server) {
    exists order :: Ranked(s, order)
  }

  lemma {:induction false} DistinctSize<T>(q: seq<T>)
    requires Distinct(q)
    ensures |SetOf(q)| == |q|
  {
    if q != [] {
      var n := |q| - 1;
      DistinctSize(q[..n]);
      assert SetOf(q) == SetOf(q[..n]) + {q[n]};
      assert q[n] !in SetOf(q[..n]);
    }
  }

  /** The cleaned-up list repeats nothing and loses nothing but `skip`. */
  lemma {:induction false} DedupedIs(ids: seq<string>, skip: string)
    ensures Distinct(Deduped(ids, skip))
    ensures SetOf(Deduped(ids, skip)) == SetOf(ids) - {skip}
  {
    if ids != [] {
      var n := |ids| - 1;
      DedupedIs(ids[..n], skip);
      assert SetOf(ids) == SetOf(ids[..n]) + {ids[n]};
      var d := Deduped(ids[..n], skip);
      assert ids[n] in d <==> ids[n] in SetOf(d);
      assert SetOf(d + [ids[n]]) == SetOf(d) + {ids[n]};
    }
  }

  /** The user outranks the positions up to `k` of the `n` there are, and no others. */
  ghost predicate CutAt(s: Server, user: string, n: nat, k: nat) {
    k <= n && forall p :: 1 <= p <= n ==> (Outranks(s, user, p) <==> p <= k)
  }

  lemma Cut(s: Server, user: string, n: nat) returns (k: nat)
    ensures CutAt(s, user, n, k)
  {
    k := 0;
    while k < n && Outranks(s, user, k + 1)
      invariant k <= n && forall p :: 1 <= p <= k ==> Outranks(s, user, p)
    {
      k := k + 1;
    }
    forall p | k < p <= n ensures !Outranks(s, user, p) {
      if Outranks(s, user, p) {
        assert Outranks(s, user, k + 1);
      }
    }
  }

  lemma BelowIs(s: Server, user: string, order: seq<string>, k: nat)
    requires Ranked(s, order) && CutAt(s, user, |order|, k)
    ensures Below(s, user) == SetOf(order[..k]) && |Below(s, user)| == k
  {
    forall r ensures r in Below(s, user) <==> r in order[..k] {
      if r in s.roles && r != s.id {
        assert r in SetOf(order);
        var i :| 0 <= i < |order| && order[i] == r;
        if i < k {
          assert order[..k][i] == r;
        }
      }
    }
    DistinctSize(order[..k]);
  }

  // ----- the reorder

  /** Replacing the bottom of the order by a rearrangement of it. */
  lemma Rearranged(order: seq<string>, ids: seq<string>, k: nat)
    requires Distinct(order) && Distinct(ids) && |ids| == k <= |order| && SetOf(ids) == SetOf(order[..k])
    ensures Distinct(ids + order[k..]) && SetOf(ids + order[k..]) == SetOf(order)
  {
    var q := ids + order[k..];
    assert order == order[..k] + order[k..];
    assert SetOf(q) == SetOf(ids) + SetOf(order[k..]);
    assert SetOf(order) == SetOf(order[..k]) + SetOf(order[k..]);
    forall i, j | 0 <= i < j < |q| ensures q[i] != q[j] {
      if i < k <= j {
        assert q[i] in SetOf(order[..k]);
        var m :| 0 <= m < k && order[..k][m] == q[i];
        assert q[i] == order[m] && q[j] == order[j];
      } else if k <= i {
        assert q[i] == order[i] && q[j] == order[j];
      }
    }
  }

  /** After the first statement: listed roles fill 1..k, the others have not moved. */
  lemma ListedIs(s: Server, order: seq<string>, ids: seq<string>, k: nat)
    requires Ranked(s, order) && Distinct(ids) && |ids| == k <= |order| && SetOf(ids) == SetOf(order[..k])
    ensures
      var q := ids + order[k..];
      var listed := Listed(s.roles, ids);
      && Distinct(q) && SetOf(q) == s.roles.Keys - {s.id} && listed.Keys == s.roles.Keys
        && listed[s.id] == s.roles[s.id]
      && forall i :: 0 <= i < |q| ==> q[i] in listed && listed[q[i]] == Roles.Role(s.roles[q[i]].perms, i + 1)
  {
    var q, listed := ids + order[k..], Listed(s.roles, ids);
    Rearranged(order, ids, k);
    assert s.id !in ids by {
      assert s.id !in SetOf(q);
    }
    forall i | 0 <= i < |q| ensures q[i] in listed && listed[q[i]] == Roles.Role(s.roles[q[i]].perms, i + 1) {
      assert q[i] in SetOf(q);
      if i < k {
        var m := IndexOf(ids, q[i]);
        assert q[m] == q[i];
      } else {
        assert q[i] == order[i];
        forall m | 0 <= m < k ensures ids[m] != q[i] {
          assert q[m] != q[i];
        }
      }
    }
  }

  /** The second statement selects the roles above the cut. */
  lemma UpperIs(s: Server, user: string, listed: map<string, Role>, q: seq<string>, k: nat)
    requires Distinct(q) && SetOf(q) == listed.Keys - {s.id} && s.id in listed && CutAt(s, user, |q|, k)
    requires forall i :: 0 <= i < |q| ==> q[i] in listed && listed[q[i]].position == i + 1
    ensures Upper(s, user, listed) == SetOf(q[k..])
  {
    var upper := Upper(s, user, listed);
    forall r ensures r in upper <==> r in q[k..] {
      if r in SetOf(q) {
        var i :| 0 <= i < |q| && q[i] == r;
        assert r in upper <==> !Outranks(s, user, i + 1);
        if i >= k {
          assert q[k..][i - k] == r;
        }
      } else {
        assert r !in upper;
        assert r in q[k..] ==> r in q;
      }
    }
  }

  /** It renumbers them to the positions they have. */
  lemma RowNumberIs(listed: map<string, Role>, q: seq<string>, k: nat, j: nat)
    requires Distinct(q) && k <= j < |q|
    requires forall i :: 0 <= i < |q| ==> q[i] in listed && listed[q[i]].position == i + 1
    requires SetOf(q[k..]) <= listed.Keys
    ensures RowNumber(SetOf(q[k..]), listed, q[j]) == j - k + 1
  {
    var rows := set x | x in SetOf(q[k..]) && listed[x].position <= listed[q[j]].position;
    var part := q[k..j + 1];
    forall x ensures x in rows <==> x in part {
      if x in rows {
        var m :| 0 <= m < |q| - k && q[k..][m] == x;
        assert x == q[k + m] && k + m <= j;
        assert part[m] == x;
      }
      if x in part {
        var m :| 0 <= m < |part| && part[m] == x;
        assert x == q[k + m] && q[k..][m] == x;
      }
    }
    assert rows == SetOf(part);
    DistinctSize(part);
  }

  /** A list that passes the checks names the roles below the cut, each once. */
  lemma ListsBelow(s: Server, user: string, ids: seq<string>, order: seq<string>, k: nat)
    requires Ranked(s, order) && MayReorder(s, user, ids) && CutAt(s, user, |order|, k)
    ensures
      var d := Deduped(ids, s.id);
      Distinct(d) && |d| == k && SetOf(d) == SetOf(order[..k])
  {
    var d := Deduped(ids, s.id);
    DedupedIs(ids, s.id);
    BelowIs(s, user, order, k);
    forall x | x in SetOf(d) ensures x in SetOf(order[..k]) {
      assert x in SetOf(ids);
      var i :| 0 <= i < |ids| && ids[i] == x;
      assert ids[i] in Below(s, user);
    }
    DistinctSize(d);
    SubsetOfSameSize(SetOf(d), SetOf(order[..k]));
  }

  lemma ReorderedIs(s: Server, user: string, d: seq<string>, order: seq<string>, k: nat)
    requires Ranked(s, order) && CutAt(s, user, |order|, k)
    requires Distinct(d) && |d| == k && SetOf(d) == SetOf(order[..k])
    ensures Ranked(Reordered(s, user, d), d + order[k..])
    ensures
      var s' := Reordered(s, user, d);
      s'.roles.Keys == s.roles.Keys && forall r :: r in s.roles ==> s'.roles[r].perms == s.roles[r].perms
  {
    ListedIs(s, order, d, k);
    var listed, q := Listed(s.roles, d), d + order[k..];
    var s' := Reordered(s, user, d);
    UpperIs(s, user, listed, q, k);
    assert s'.roles.Keys == s.roles.Keys;
    forall j | 0 <= j < |q| ensures s'.roles[q[j]].position == j + 1 {
      if j >= k {
        RowNumberIs(listed, q, k, j);
        assert q[k..][j - k] == q[j];
      }
    }
    assert s.id !in SetOf(q[k..]) by {
      assert s.id !in SetOf(q);
    }
  }

  /**
   A reorder puts the listed roles, in their order, under all the roles the caller does not outrank,
   and those keep their positions.
   */
  lemma ReorderIs(s: Server, user: string, ids: seq<string>, order: seq<string>, k: nat)
    requires Ranked(s, order) && MayReorder(s, user, ids) && CutAt(s, user, |order|, k)
    ensures
      var d := Deduped(ids, s.id);
      |d| == k && SetOf(d) == SetOf(order[..k]) && Ranked(Step(s, ReorderRoles(user, ids)), d + order[k..])
  {
    ListsBelow(s, user, ids, order, k);
    ReorderedIs(s, user, Deduped(ids, s.id), order, k);
  }

  lemma {:induction false} SubsetOfSameSize<T>(a: set<T>, b: set<T>)
    requires a <= b && |a| >= |b|
    ensures a == b
  {
    if a != {} {
      var x :| x in a;
      SubsetOfSameSize(a - {x}, b - {x});
    } else {
      assert b == {};
    }
  }

  // ----- contiguity

  lemma CreateRanks(s: Server, perms: Bits, newId: string, order: seq<string>)
    requires Ranked(s, order) && newId !in s.roles
    ensures
      var s' := s.(roles := s.roles[newId := Roles.Role(perms, TopPosition(s.roles) + 1)]);
      TopPosition(s.roles) == |order| && Ranked(s', order + [newId])
  {
    var n := |order|;
    if n > 0 {
      assert s.roles[order[n - 1]].position == n;
    }
    forall r | r in s.roles ensures s.roles[r].position <= n {
      if r != s.id {
        assert r in SetOf(order);
      }
    }
    assert SetOf(order + [newId]) == SetOf(order) + {newId};
    assert newId !in SetOf(order);
  }

  lemma WithoutIndex(order: seq<string>, i: nat)
    requires Distinct(order) && i < |order|
    ensures
      var q := order[..i] + order[i + 1..];
      Distinct(q) && SetOf(q) == SetOf(order) - {order[i]}
  {
    var q := order[..i] + order[i + 1..];
    assert forall j :: 0 <= j < |q| ==> q[j] == order[if j < i then j else j + 1];
    forall x | x in order && x != order[i] ensures x in q {
      var j :| 0 <= j < |order| && order[j] == x;
      assert x == q[if j < i then j else j - 1];
    }
  }

  lemma DeleteRanks(s: Server, role: string, order: seq<string>)
    requires Ranked(s, order) && role in s.roles && role != s.id
    ensures
      var p := s.roles[role].position;
      1 <= p <= |order| && order[p - 1] == role && Ranked(WithoutRole(s, role), order[..p - 1] + order[p..])
  {
    assert role in SetOf(order);
    var i :| 0 <= i < |order| && order[i] == role;
    var q, s' := order[..i] + order[i + 1..], WithoutRole(s, role);
    WithoutIndex(order, i);
    assert s'.roles.Keys == s.roles.Keys - {role};
    forall j | 0 <= j < |q| ensures q[j] in s'.roles && s'.roles[q[j]].position == j + 1 {
      assert q[j] == order[if j < i then j else j + 1];
    }
  }

  /** Every call keeps the positions contiguous, so the table's uniqueness constraint never fires. */
  lemma StepRanks(s: Server, c: Call)
    requires Contiguous(s) && Legal(s, c)
    ensures Contiguous(Step(s, c))
  {
    var order :| Ranked(s, order);
    match c
    case CreateRole(caller, name, perms, newId) =>
      CreateRanks(s, perms, newId, order);
      assert Contiguous(s.(roles := s.roles[newId := Roles.Role(perms, TopPosition(s.roles) + 1)]));
    case DeleteRole(caller, role) =>
      if MayDelete(s, caller, role) {
        DeleteRanks(s, role, order);
        assert Contiguous(WithoutRole(s, role));
      }
    case ReorderRoles(caller, ids) =>
      if MayReorder(s, caller, ids) {
        var k := Cut(s, caller, |order|);
        ReorderIs(s, caller, ids, order, k);
      }
    case _ =>
      assert Ranked(Step(s, c), order);
  }

  lemma {:induction false} RunRanks(s: Server, calls: seq<Call>)
    requires Contiguous(s) && LegalRun(s, calls)
    ensures Contiguous(Run(s, calls))
  {
    if calls != [] {
      LegalPrefix(s, calls);
      RunRanks(s, calls[..|calls| - 1]);
      StepRanks(Run(s, calls[..|calls| - 1]), calls[|calls| - 1]);
    }
  }

  // ----- the hierarchy

  /** A role at or above every role the group holds. */
  ghost predicate OutOfReach(s: Server, group: iset<string>, t: string) {
    t in s.roles && t != s.id && forall g, r :: g in group && r in RolesOf(s, g) ==>
      s.roles[r].position <= s.roles[t].position
  }

  lemma SetRolesReach(s: Server, c: Call, group: iset<string>, t: string)
    requires c.SetMemberRoles? && s.owner !in group && c.caller in group && OutOfReach(s, group, t)
    ensures OutOfReach(Step(s, c), group, t)
  {
    var s' := Step(s, c);
    forall g, r | g in group && r in RolesOf(s', g) ensures s.roles[r].position <= s.roles[t].position {
      if r !in RolesOf(s, g) {
        var i :| 0 <= i < |c.ids| && c.ids[i] == r;
        var x :| x in RolesOf(s, c.caller) && s.roles[x].position > s.roles[c.ids[i]].position;
      }
    }
  }

  lemma DeleteReach(s: Server, c: Call, group: iset<string>, t: string)
    requires c.DeleteRole? && s.owner !in group && c.caller in group && OutOfReach(s, group, t)
      && MayDelete(s, c.caller, c.role)
    ensures
      var s' := Step(s, c);
      OutOfReach(s', group, t) && s'.roles[t] == Roles.Role(s.roles[t].perms, s.roles[t].position - 1)
  {
    var s' := Step(s, c);
    var x :| x in RolesOf(s, c.caller) && s.roles[x].position > s.roles[c.role].position;
    forall g, r | g in group && r in RolesOf(s', g) ensures s'.roles[r].position <= s'.roles[t].position {
      assert r in RolesOf(s, g);
    }
  }

  /** Above the cut a reorder moves nothing; below it everything stays below. */
  lemma RankAbove(s: Server, s': Server, order: seq<string>, q: seq<string>, k: nat, r: string)
    requires Ranked(s, order) && Ranked(s', q) && s'.id == s.id && r in s'.roles
    requires k <= |order| == |q| && q[k..] == order[k..]
    ensures s'.roles[r].position <= k || (r in s.roles && s'.roles[r].position == s.roles[r].position)
  {
    if r != s.id {
      assert r in SetOf(q);
      var i :| 0 <= i < |q| && q[i] == r;
      if i >= k {
        assert q[k..][i - k] == order[k..][i - k];
      }
    }
  }

  lemma RerankReach(s: Server, s': Server, order: seq<string>, q: seq<string>, k: nat, group: iset<string>, t: string)
    requires Ranked(s, order) && Ranked(s', q) && k <= |order| == |q| && q[k..] == order[k..]
    requires s'.id == s.id && s'.members == s.members && s'.roles.Keys == s.roles.Keys
    requires OutOfReach(s, group, t) && s.roles[t].position > k
    ensures OutOfReach(s', group, t) && s'.roles[t].position == s.roles[t].position
  {
    assert t in SetOf(order);
    var j :| 0 <= j < |order| && order[j] == t;
    assert q[k..][j - k] == order[k..][j - k];
    forall g, r | g in group && r in RolesOf(s', g) ensures s'.roles[r].position <= j + 1 {
      assert r in RolesOf(s, g);
      RankAbove(s, s', order, q, k, r);
    }
  }

  /** A role out of a caller's reach stands above the cut. */
  lemma AboveCut(s: Server, caller: string, order: seq<string>, k: nat, group: iset<string>, t: string)
    requires Ranked(s, order) && CutAt(s, caller, |order|, k) && caller in group && s.owner !in group
    requires OutOfReach(s, group, t)
    ensures s.roles[t].position > k
  {
    assert t in SetOf(order);
    assert !Outranks(s, caller, s.roles[t].position);
  }

  lemma ReorderedReach(s: Server, caller: string, d: seq<string>, group: iset<string>, t: string, order: seq<string>,
      k: nat)
    requires OutOfReach(s, group, t) && s.roles[t].position > k && Ranked(s, order) && k == |d| <= |order|
    requires Ranked(Reordered(s, caller, d), d + order[k..])
    requires Reordered(s, caller, d).roles.Keys == s.roles.Keys
    requires Reordered(s, caller, d).roles[t].perms == s.roles[t].perms
    ensures
      var s' := Reordered(s, caller, d);
      OutOfReach(s', group, t) && s'.roles[t] == s.roles[t]
  {
    assert (d + order[k..])[k..] == order[k..];
    RerankReach(s, Reordered(s, caller, d), order, d + order[k..], k, group, t);
  }

  lemma ReorderReach(s: Server, c: Call, group: iset<string>, t: string, order: seq<string>)
    requires c.ReorderRoles? && s.owner !in group && c.caller in group && OutOfReach(s, group, t)
    requires Ranked(s, order) && MayReorder(s, c.caller, c.ids)
    ensures
      var s' := Reordered(s, c.caller, Deduped(c.ids, s.id));
      OutOfReach(s', group, t) && s'.roles[t] == s.roles[t]
  {
    var k := Cut(s, c.caller, |order|);
    var d := Deduped(c.ids, s.id);
    ListsBelow(s, c.caller, c.ids, order, k);
    ReorderedIs(s, c.caller, d, order, k);
    AboveCut(s, c.caller, order, k, group, t);
    ReorderedReach(s, c.caller, d, group, t, order, k);
  }

  lemma UpdateReach(s: Server, c: Call, group: iset<string>, t: string)
    requires c.UpdateRole? && s.owner !in group && c.caller in group && OutOfReach(s, group, t)
    ensures OutOfReach(Step(s, c), group, t) && Step(s, c).roles[t] == s.roles[t]
  {
    var s' := Step(s, c);
    forall g, r | g in group && r in RolesOf(s', g) ensures s'.roles[r].position <= s.roles[t].position {
      assert r in RolesOf(s, g);
    }
  }

  lemma OthersReach(s: Server, c: Call, group: iset<string>, t: string)
    requires (c.CreateRole? || c.Kick? || c.Ban? || c.Unban? || c.Join? || c.Leave?) && Legal(s, c)
      && OutOfReach(s, group, t)
    ensures OutOfReach(Step(s, c), group, t) && Step(s, c).roles[t] == s.roles[t]
  {
    var s' := Step(s, c);
    forall g, r | g in group && r in RolesOf(s', g) ensures s'.roles[r].position <= s.roles[t].position {
      assert r in RolesOf(s, g);
    }
  }

  /** By how much a call lowers the positions out of its reach. */
  ghost function Drop(s: Server, c: Call): nat {
    if c.DeleteRole? && MayDelete(s, c.caller, c.role) then 1 else 0
  }

  /** A call by a member of the group leaves a role out of reach as it was, save that a deletion closes ranks. */
  lemma StepReach(s: Server, c: Call, group: iset<string>, t: string)
    requires Contiguous(s) && Legal(s, c) && s.owner !in group && (Actor(c).Some? ==> Actor(c).value in group)
    requires OutOfReach(s, group, t)
    ensures OutOfReach(Step(s, c), group, t)
    ensures Step(s, c).roles[t].perms == s.roles[t].perms
      && Step(s, c).roles[t].position == s.roles[t].position - Drop(s, c)
  {
    match c
    case SetMemberRoles(_, _, _) => SetRolesReach(s, c, group, t);
    case DeleteRole(caller, role) =>
      if MayDelete(s, caller, role) {
        DeleteReach(s, c, group, t);
      }
    case ReorderRoles(caller, ids) =>
      if MayReorder(s, caller, ids) {
        var order :| Ranked(s, order);
        ReorderReach(s, c, group, t, order);
      }
    case UpdateRole(_, _, _, _) => UpdateReach(s, c, group, t);
    case _ => OthersReach(s, c, group, t);
  }

  /**
   Over any run by a group of non-owners, the roles at or above the whole group at the start survive,
   keep their permissions and their order, and stay out of the group's reach.
   */
  lemma {:induction false} HierarchyHolds(s: Server, calls: seq<Call>, group: iset<string>, t: string, u: string)
    requires Contiguous(s) && LegalRun(s, calls) && ActorsIn(calls, group) && s.owner !in group
    requires OutOfReach(s, group, t) && OutOfReach(s, group, u)
    ensures
      var s' := Run(s, calls);
      && OutOfReach(s', group, t) && OutOfReach(s', group, u)
      && s'.roles[t].perms == s.roles[t].perms
      && s'.roles[t].position - s'.roles[u].position == s.roles[t].position - s.roles[u].position
  {
    if calls != [] {
      PrefixOk(s, calls, group);
      var p, c := calls[..|calls| - 1], calls[|calls| - 1];
      HierarchyHolds(s, p, group, t, u);
      RunRanks(s, p);
      OwnerStays(s, p);
      StepReach(Run(s, p), c, group, t);
      StepReach(Run(s, p), c, group, u);
    }
  }

  // ----- members above the group

  /** The call takes the member's roles away: an accepted assignment, or the member leaves. */
  ghost predicate Strips(s: Server, c: Call, x: string) {
    || (c.SetMemberRoles? && c.target == x && MaySetRoles(s, c.caller, x, c.ids))
    || (c == Leave(x) && x != s.owner)
  }

  /** Kicks, bans and deletions do not reach the holder of a role above the group; assignments do. */
  lemma StepHolds(s: Server, c: Call, group: iset<string>, t: string, x: string)
    requires Legal(s, c) && s.owner !in group && (Actor(c).Some? ==> Actor(c).value in group)
    requires OutOfReach(s, group, t) && t in Step(s, c).roles
    ensures t in RolesOf(Step(s, c), x) <==> t in RolesOf(s, x) && !Strips(s, c, x)
  {
    match c
    case SetMemberRoles(caller, target, ids) =>
      if target == x && MaySetRoles(s, caller, x, ids) {
        NotAssignable(s, c, t);
      }
    case Kick(caller, target) => NotRemovable(s, caller, target, group, t);
    case Ban(caller, target) => NotRemovable(s, caller, target, group, t);
    case _ =>
  }

  lemma NotAssignable(s: Server, c: Call, t: string)
    requires c.SetMemberRoles? && MaySetRoles(s, c.caller, c.target, c.ids)
    requires t in s.roles && !Outranks(s, c.caller, s.roles[t].position)
    ensures t !in SetOf(c.ids) - {s.id}
  {
  }

  lemma NotRemovable(s: Server, caller: string, target: string, group: iset<string>, t: string)
    requires caller in group && s.owner !in group && OutOfReach(s, group, t)
    ensures t in RolesOf(s, target) ==> !OutranksMember(s, caller, target)
  {
  }

  ghost predicate StripsAt(s: Server, calls: seq<Call>, k: nat, x: string)
    requires k < |calls|
  {
    Strips(Run(s, calls[..k]), calls[k], x)
  }

  ghost predicate Stripped(s: Server, calls: seq<Call>, x: string) {
    exists k :: 0 <= k < |calls| && StripsAt(s, calls, k, x)
  }

  lemma StrippedByLast(s: Server, calls: seq<Call>, x: string)
    requires calls != []
    ensures Stripped(s, calls, x) <==> Stripped(s, calls[..|calls| - 1], x) || StripsAt(s, calls, |calls| - 1, x)
  {
    var n := |calls| - 1;
    forall k | 0 <= k < n ensures StripsAt(s, calls[..n], k, x) <==> StripsAt(s, calls, k, x) {
      assert calls[..n][..k] == calls[..k];
    }
  }

  /**
   A member with a role above the whole group keeps it, and so cannot be kicked or banned by the group,
   exactly until an accepted SetMemberRoles on the member or the member's own leaving: the handler does
   not compare the caller with the target.
   */
  lemma {:induction false} MemberAboveStaysIff(s: Server, calls: seq<Call>, group: iset<string>, t: string, x: string)
    requires Contiguous(s) && LegalRun(s, calls) && ActorsIn(calls, group) && s.owner !in group
    requires OutOfReach(s, group, t) && t in RolesOf(s, x)
    ensures t in RolesOf(Run(s, calls), x) <==> !Stripped(s, calls, x)
    ensures t in RolesOf(Run(s, calls), x) ==> forall g :: g in group ==> !OutranksMember(Run(s, calls), g, x)
  {
    HierarchyHolds(s, calls, group, t, t);
    OwnerStays(s, calls);
    if calls != [] {
      PrefixOk(s, calls, group);
      var p, c := calls[..|calls| - 1], calls[|calls| - 1];
      MemberAboveStaysIff(s, p, group, t, x);
      HierarchyHolds(s, p, group, t, t);
      OwnerStays(s, p);
      StepHolds(Run(s, p), c, group, t, x);
      StrippedByLast(s, calls, x);
    }
    forall g | g in group ensures t in RolesOf(Run(s, calls), x) ==> !OutranksMember(Run(s, calls), g, x) {
      NotRemovable(Run(s, calls), g, x, group, t);
    }
  }

  /** Such an assignment is open to everyone who may manage roles, whatever the target's rank. */
  lemma AnyoneMayStrip(s: Server, caller: string, target: string)
    requires Permitted(s, caller, MANAGE_ROLES) && Permitted(s, caller, KICK_MEMBERS)
    requires caller != target && target in s.members && target != s.owner
    requires exists r :: r in RolesOf(s, caller) && s.roles[r].position > 0
    ensures MaySetRoles(s, caller, target, [])
    ensures
      var s1 := Step(s, SetMemberRoles(caller, target, []));
      MayRemove(s1, caller, target, KICK_MEMBERS) && target !in Step(s1, Kick(caller, target)).members
  {
    var s1 := Step(s, SetMemberRoles(caller, target, []));
    assert RolesOf(s1, caller) == RolesOf(s, caller) && RolesOf(s1, target) == {};
    assert Combined(s1, caller) == Combined(s, caller);
  }
}
