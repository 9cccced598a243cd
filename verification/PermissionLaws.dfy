/**
 The bit rule and the attribution, written out over the fields of the input.
 */
module PermissionLaws {
  import opened Common
  import opened Permissions

  /** The bits that an override can decide: those of the channel scope. */
  lemma ScopedIs(b: nat)
    ensures Scoped(b) <==> b in {4, 6, 9, 10, 11, 12, 13, 14, 15, 16, 19, 20, 21, 22, 23, 24, 25, 26, 29}
  {
  }

  /** The override speaks of the bit. */
  predicate Speaks(o: Override, b: nat) {
    Scoped(b) && (b in o.allow || b in o.deny)
  }

  /**
   Channel before category, user before role: the first of the four that speaks of the bit decides it, and
   if none does, the bit is as @everyone and the roles have it.
   */
  lemma DecidedIs(i: Input, b: nat)
    ensures Decided(i, b) <==>
      if i.channelUser != None && Speaks(i.channelUser.value, b) then b in i.channelUser.value.allow
      else if i.groupUser != None && Speaks(i.groupUser.value, b) then b in i.groupUser.value.allow
      else if exists o :: o in i.channelRoles && Speaks(o, b) then exists o :: o in i.channelRoles && b in o.allow
      else if exists o :: o in i.groupRoles && Speaks(o, b) then exists o :: o in i.groupRoles && b in o.allow
      else b in i.everyone || exists p :: p in i.roles && b in p
  {
    Listed(i.channelRoles, b);
    Listed(i.groupRoles, b);
  }

  lemma Listed(os: seq<Override>, b: nat)
    ensures AnyMentions(os, b) <==> exists o :: o in os && Speaks(o, b)
    ensures AnyAllows(os, b) <==> Scoped(b) && exists o :: o in os && b in o.allow
  {
    if k :| 0 <= k < |os| && Mentions(os[k], b) {
      assert os[k] in os && Speaks(os[k], b);
    }
    if k :| 0 <= k < |os| && b in os[k].allow {
      assert os[k] in os;
    }
  }

  /** Owner and administrator have every known bit; a timeout leaves viewing and reading; a hidden channel nothing. */
  lemma GrantedIs(i: Input, now: int, b: nat)
    ensures Granted(i, now, b) <==>
      if i.isOwner || 3 in i.everyone || exists p :: p in i.roles && 3 in p then b < 31
      else if 0 < i.timedOutUntil && now < i.timedOutUntil then b == 13 || b == 21
      else Decided(i, 13) && Decided(i, b)
  {
  }

  /** A base permission is credited to @everyone if it has it, else to the first role that has it, else to @everyone. */
  lemma CreditIs(i: Input, everyoneName: string, roleNames: seq<string>, b: nat, s: Source)
    ensures BaseSource(i, everyoneName, roleNames, b, s) <==>
      && (s.granted <==> b in i.everyone || exists p :: p in i.roles && b in p)
      && s.from.BaseRole?
      && (if b in i.everyone || forall p :: p in i.roles ==> b !in p then s.from.name == everyoneName
          else exists k :: 0 <= k < |i.roles| && b in i.roles[k] && (forall j :: 0 <= j < k ==> b !in i.roles[j])
                           && s.from.name == if k < |roleNames| then roleNames[k] else "Role")
  {
    if k: nat :| FirstGranter(i, b, k) {
      assert i.roles[k] in i.roles;
    }
    if k: nat :| k < |i.roles| && b in i.roles[k] && forall j :: 0 <= j < k ==> b !in i.roles[j] {
      assert FirstGranter(i, b, k);
    }
  }
}
