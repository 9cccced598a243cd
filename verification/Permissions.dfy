/**
 Effective permissions and their attribution (server/internal/permissions/permissions.go).

 A bitfield is the set of its bit numbers.
 */
module Permissions {
  import opened Common

  type Bits = set<nat>

  const KICK_MEMBERS: nat := 0
  const BAN_MEMBERS: nat := 1
  const MANAGE_ROLES: nat := 2
  const ADMINISTRATOR: nat := 3
  const MANAGE_EMOJIS: nat := 4
  const MANAGE_CHANNELS: nat := 5
  const MANAGE_MESSAGES: nat := 6
  const EXEMPT_SLOW_MODE: nat := 9
  const MENTION_EVERYONE: nat := 16
  const VIEW_CHANNEL: nat := 13
  const EMBED_LINKS: nat := 19
  const READ_MESSAGE_HISTORY: nat := 21
  const MOVE_MEMBERS: nat := 26
  const MANAGE_WEBHOOKS: nat := 29
  const BIT_COUNT: nat := 31

  /** AllPermissions: the bits 0 to 30. */
  const ALL: Bits := set b: nat | b < BIT_COUNT

  /** ChannelScopedPermissions: the bits that overrides may touch. */
  predicate Scoped(b: nat) {
    b == MANAGE_EMOJIS || b == MANAGE_MESSAGES || EXEMPT_SLOW_MODE <= b <= MENTION_EVERYONE
    || EMBED_LINKS <= b <= MOVE_MEMBERS || b == MANAGE_WEBHOOKS
  }

  /** Has: Administrator grants everything. */
  predicate Has(combined: Bits, b: nat) {
    ADMINISTRATOR in combined || b in combined
  }

  datatype Override = Override(allow: Bits, deny: Bits)

  /** Whom an override is for. */
  datatype Who = RoleWho(id: string) | UserWho(id: string)

  /** The unique key of an override row: category or channel, role or user. */
  datatype Slot = Slot(isGroup: bool, target: string, who: Who)

  datatype Input = Input(
    everyone: Bits, roles: seq<Bits>, isOwner: bool, timedOutUntil: int,
    groupRoles: seq<Override>, channelRoles: seq<Override>,
    groupUser: Option<Override>, channelUser: Option<Override>)

  predicate TimedOut(i: Input, now: int) {
    i.timedOutUntil > 0 && now < i.timedOutUntil
  }

  // ----- what the result means, bit by bit

  predicate InBase(i: Input, b: nat) {
    b in i.everyone || exists k :: 0 <= k < |i.roles| && b in i.roles[k]
  }

  predicate Mentions(o: Override, b: nat) {
    Scoped(b) && (b in o.allow || b in o.deny)
  }

  predicate AnyMentions(os: seq<Override>, b: nat) {
    exists k :: 0 <= k < |os| && Mentions(os[k], b)
  }

  predicate AnyAllows(os: seq<Override>, b: nat) {
    Scoped(b) && exists k :: 0 <= k < |os| && b in os[k].allow
  }

  /** The stage that decides a bit: the most specific one that mentions it. */
  datatype Stage = Base | GroupRole | ChannelRole | GroupUser | ChannelUser

  function Deciding(i: Input, b: nat): Stage {
    if i.channelUser.Some? && Mentions(i.channelUser.value, b) then ChannelUser
    else if i.groupUser.Some? && Mentions(i.groupUser.value, b) then GroupUser
    else if AnyMentions(i.channelRoles, b) then ChannelRole
    else if AnyMentions(i.groupRoles, b) then GroupRole
    else Base
  }

  /** What that stage says: within a stage an allow beats every deny. */
  predicate Decided(i: Input, b: nat) {
    match Deciding(i, b)
    case ChannelUser => b in i.channelUser.value.allow
    case GroupUser => b in i.groupUser.value.allow
    case ChannelRole => AnyAllows(i.channelRoles, b)
    case GroupRole => AnyAllows(i.groupRoles, b)
    case Base => InBase(i, b)
  }

  /** Whether a bit is effective, without computing the bitfield. */
  predicate Granted(i: Input, now: int, b: nat) {
    if i.isOwner || InBase(i, ADMINISTRATOR) then b in ALL
    else if TimedOut(i, now) then b == VIEW_CHANNEL || b == READ_MESSAGE_HISTORY
    else Decided(i, VIEW_CHANNEL) && Decided(i, b)
  }

  // ----- the bitfield computation

  method CombineBase(i: Input) returns (base: Bits)
    ensures forall b :: b in base <==> InBase(i, b)
  {
    base := i.everyone;
    for k := 0 to |i.roles|
      invariant forall b :: b in base <==> b in i.everyone || exists j :: 0 <= j < k && b in i.roles[j]
    {
      base := base + i.roles[k];
    }
  }

  function Mask(bits: Bits): (r: Bits)
    ensures forall b :: b in r <==> b in bits && Scoped(b)
  {
    set b | b in bits && Scoped(b)
  }

  /** Aggregates a stage's role overrides, then applies them once: denies first, allows after. */
  method ApplyRoles(base: Bits, os: seq<Override>) returns (r: Bits)
    ensures forall b :: b in r <==> if AnyMentions(os, b) then AnyAllows(os, b) else b in base
  {
    var allow: Bits, deny: Bits := {}, {};
    for k := 0 to |os|
      invariant forall b :: b in allow <==> Scoped(b) && exists j :: 0 <= j < k && b in os[j].allow
      invariant forall b :: b in deny <==> Scoped(b) && exists j :: 0 <= j < k && b in os[j].deny
    {
      allow := allow + Mask(os[k].allow);
      deny := deny + Mask(os[k].deny);
    }
    r := base - deny + allow;
    forall b ensures b in r <==> if AnyMentions(os, b) then AnyAllows(os, b) else b in base {
      if b in deny {
        assert AnyMentions(os, b);
      }
    }
  }

  method ApplyUser(base: Bits, o: Option<Override>) returns (r: Bits)
    ensures forall b :: b in r <==> if o.Some? && Mentions(o.value, b) then b in o.value.allow else b in base
  {
    if o.None? {
      return base;
    }
    r := base - Mask(o.value.deny) + Mask(o.value.allow);
  }

  /** ResolveEffective computes exactly the granted bits. */
  method ResolveEffective(i: Input, now: int) returns (r: Bits)
    ensures forall b :: b in r <==> Granted(i, now, b)
  {
    if i.isOwner {
      return ALL;
    }
    var base := CombineBase(i);
    if ADMINISTRATOR in base {
      return ALL;
    }
    if TimedOut(i, now) {
      return {VIEW_CHANNEL, READ_MESSAGE_HISTORY};
    }
    base := ApplyRoles(base, i.groupRoles);
    base := ApplyRoles(base, i.channelRoles);
    base := ApplyUser(base, i.groupUser);
    base := ApplyUser(base, i.channelUser);
    if VIEW_CHANNEL !in base {
      return {};
    }
    return base;
  }

  /** The granted bits as a set: the form the cache compares. */
  ghost function Effective(i: Input, now: int): (r: Bits)
    ensures forall b :: b in r <==> Granted(i, now, b)
  {
    var user := if i.groupUser.Some? then i.groupUser.value.allow else {};
    var user' := if i.channelUser.Some? then i.channelUser.value.allow else {};
    var candidates := ALL + i.everyone + UnionOf(i.roles) + Allows(i.groupRoles) + Allows(i.channelRoles) + user
      + user';
    set b | b in candidates && Granted(i, now, b)
  }

  ghost function UnionOf(s: seq<Bits>): (r: Bits)
    ensures forall k :: 0 <= k < |s| ==> s[k] <= r
  {
    if s == [] then {} else UnionOf(s[..|s| - 1]) + s[|s| - 1]
  }

  ghost function Allows(os: seq<Override>): (r: Bits)
    ensures forall k :: 0 <= k < |os| ==> os[k].allow <= r
  {
    if os == [] then {} else Allows(os[..|os| - 1]) + os[|os| - 1].allow
  }

  // ----- attribution

  datatype Source = Source(granted: bool, from: Origin)

  datatype Origin = Owner | Administrator | TimeOut | BaseRole(name: string) | Stage(stage: Stage)

  /** The last override of the list that mentions a bit allows it. */
  predicate LastAllows(os: seq<Override>, b: nat) {
    os != [] &&
    var last := os[|os| - 1];
    if Mentions(last, b) then b in last.allow else LastAllows(os[..|os| - 1], b)
  }

  /** The verdict of a walk that applies role overrides one after another. */
  predicate LastWord(i: Input, b: nat) {
    match Deciding(i, b)
    case ChannelRole => LastAllows(i.channelRoles, b)
    case GroupRole => LastAllows(i.groupRoles, b)
    case _ => Decided(i, b)
  }

  type Sources = s: seq<Source> | |s| == BIT_COUNT witness seq(BIT_COUNT, _ => Source(false, Owner))

  method ApplyOne(was: Sources, o: Override, stage: Stage) returns (r: Sources)
    ensures forall b :: 0 <= b < BIT_COUNT ==>
      r[b] == if Mentions(o, b) then Source(b in o.allow, Stage(stage)) else was[b]
  {
    var allow, deny := Mask(o.allow), Mask(o.deny);
    r := was;
    for b := 0 to BIT_COUNT
      invariant forall k :: 0 <= k < b ==> r[k] == if Mentions(o, k) then Source(k in o.allow, Stage(stage)) else was[k]
      invariant forall k :: b <= k < BIT_COUNT ==> r[k] == was[k]
    {
      if b in deny {
        r := r[b := Source(false, Stage(stage))];
      }
      if b in allow {
        r := r[b := Source(true, Stage(stage))];
      }
    }
  }

  method ApplyEach(was: Sources, os: seq<Override>, stage: Stage) returns (r: Sources)
    ensures forall b :: 0 <= b < BIT_COUNT ==>
      r[b] == if AnyMentions(os, b) then Source(LastAllows(os, b), Stage(stage)) else was[b]
  {
    r := was;
    for k := 0 to |os|
      invariant forall b :: 0 <= b < BIT_COUNT ==>
        r[b] == if AnyMentions(os[..k], b) then Source(LastAllows(os[..k], b), Stage(stage)) else was[b]
    {
      r := ApplyOne(r, os[k], stage);
      forall b | 0 <= b < BIT_COUNT
        ensures AnyMentions(os[..k + 1], b) <==> AnyMentions(os[..k], b) || Mentions(os[k], b)
        ensures LastAllows(os[..k + 1], b) <==> if Mentions(os[k], b) then b in os[k].allow else LastAllows(os[..k], b)
      {
        var p := os[..k + 1];
        assert p[..k] == os[..k] && p[k] == os[k];
        assert forall j :: 0 <= j < k ==> os[..k][j] == p[j];
      }
    }
    assert os[..|os|] == os;
  }

  /** `name` is the first assigned role that grants the bit; @everyone when it grants it itself or nobody does. */
  ghost predicate Names(i: Input, everyoneName: string, roleNames: seq<string>, b: nat, name: string) {
    if b in i.everyone || !InBase(i, b) then name == everyoneName
    else exists k: nat :: FirstGranter(i, b, k) && name == if k < |roleNames| then roleNames[k] else "Role"
  }

  predicate FirstGranter(i: Input, b: nat, k: nat) {
    k < |i.roles| && b in i.roles[k] && forall j :: 0 <= j < k ==> b !in i.roles[j]
  }

  ghost predicate BaseSource(i: Input, everyoneName: string, roleNames: seq<string>, b: nat, s: Source) {
    s.granted == InBase(i, b) && s.from.BaseRole? && Names(i, everyoneName, roleNames, b, s.from.name)
  }

  method BaseSources(i: Input, everyoneName: string, roleNames: seq<string>) returns (r: Sources)
    ensures forall b :: 0 <= b < BIT_COUNT ==> BaseSource(i, everyoneName, roleNames, b, r[b])
  {
    r := seq(BIT_COUNT, _ => Source(false, BaseRole(everyoneName)));
    for b := 0 to BIT_COUNT
      invariant forall k :: 0 <= k < b ==> BaseSource(i, everyoneName, roleNames, k, r[k])
    {
      if b in i.everyone {
        r := r[b := Source(true, BaseRole(everyoneName))];
      } else {
        var granted := false;
        for k := 0 to |i.roles|
          invariant !granted && forall j :: 0 <= j < k ==> b !in i.roles[j]
          invariant forall k :: 0 <= k < b ==> BaseSource(i, everyoneName, roleNames, k, r[k])
        {
          if b in i.roles[k] {
            assert FirstGranter(i, b, k);
            r := r[b := Source(true, BaseRole(if k < |roleNames| then roleNames[k] else "Role"))];
            granted := true;
            break;
          }
        }
        if !granted {
          r := r[b := Source(false, BaseRole(everyoneName))];
        }
      }
    }
  }

  /**
   AttributeSources: one source per permission.  Every bit names the stage that decides it; its verdict
   is the last word of that stage, and nothing is granted where the channel is not seen.
   */
  method AttributeSources(i: Input, everyoneName: string, roleNames: seq<string>, now: int) returns (r: Sources)
    ensures forall b :: 0 <= b < BIT_COUNT ==> r[b].granted == Attributed(i, now, b)
    ensures !i.isOwner && !InBase(i, ADMINISTRATOR) && !TimedOut(i, now) ==>
      forall b :: 0 <= b < BIT_COUNT ==>
        if Deciding(i, b).Base? then r[b].from.BaseRole? && Names(i, everyoneName, roleNames, b, r[b].from.name)
        else r[b].from == Stage(Deciding(i, b))
  {
    if i.isOwner {
      return seq(BIT_COUNT, _ => Source(true, Owner));
    }
    var base := CombineBase(i);
    if ADMINISTRATOR in base {
      return seq(BIT_COUNT, _ => Source(true, Administrator));
    }
    if TimedOut(i, now) {
      return seq(BIT_COUNT, b => Source(b == VIEW_CHANNEL || b == READ_MESSAGE_HISTORY, TimeOut));
    }
    r := BaseSources(i, everyoneName, roleNames);
    r := ApplyEach(r, i.groupRoles, GroupRole);
    r := ApplyEach(r, i.channelRoles, ChannelRole);
    if i.groupUser.Some? {
      r := ApplyOne(r, i.groupUser.value, GroupUser);
    }
    if i.channelUser.Some? {
      r := ApplyOne(r, i.channelUser.value, ChannelUser);
    }
    assert forall b :: 0 <= b < BIT_COUNT ==> r[b].granted == LastWord(i, b);
    if !r[VIEW_CHANNEL].granted {
      var shown := r;
      r := seq(BIT_COUNT, b requires 0 <= b < BIT_COUNT => shown[b].(granted := false));
    }
  }

  predicate Attributed(i: Input, now: int, b: nat) {
    if i.isOwner || InBase(i, ADMINISTRATOR) then true
    else if TimedOut(i, now) then b == VIEW_CHANNEL || b == READ_MESSAGE_HISTORY
    else LastWord(i, VIEW_CHANNEL) && LastWord(i, b)
  }

  /** `k` is the last override of the list that mentions the bit. */
  predicate LastMention(os: seq<Override>, b: nat, k: nat) {
    k < |os| && Mentions(os[k], b) && forall m :: k < m < |os| ==> !Mentions(os[m], b)
  }

  /** An override allows the bit, a later one denies it without allowing it, and none after that mentions it. */
  ghost predicate DeniedAtLast(os: seq<Override>, b: nat) {
    exists j: nat, k: nat ::
      j < k < |os| && b in os[j].allow && b in os[k].deny && b !in os[k].allow && LastMention(os, b, k)
  }

  /** The list that decides the bit, if it is one of role overrides, ends in such a deny. */
  ghost predicate Overruled(i: Input, b: nat) {
    match Deciding(i, b)
    case ChannelRole => DeniedAtLast(i.channelRoles, b)
    case GroupRole => DeniedAtLast(i.groupRoles, b)
    case _ => false
  }

  /** The explanation and the permissions give the same verdict on every bit. */
  ghost predicate ExplainsEffective(i: Input, now: int) {
    forall b :: 0 <= b < BIT_COUNT ==> (Attributed(i, now, b) <==> Granted(i, now, b))
  }

  /** The walk's verdict on a list, by position. */
  lemma {:induction false} LastAllowsAt(os: seq<Override>, b: nat)
    ensures LastAllows(os, b) <==> exists k: nat :: LastMention(os, b, k) && b in os[k].allow
  {
    if os != [] {
      var n := |os| - 1;
      LastAllowsAt(os[..n], b);
      if Mentions(os[n], b) {
        assert LastMention(os, b, n);
      } else {
        forall k: nat ensures LastMention(os, b, k) <==> LastMention(os[..n], b, k) {
          assert forall m :: 0 <= m < n ==> os[..n][m] == os[m];
        }
        assert forall k: nat :: LastMention(os, b, k) ==> os[..n][k] == os[k];
      }
    }
  }

  lemma {:induction false} SomeLastMention(os: seq<Override>, b: nat)
    requires AnyMentions(os, b)
    ensures exists k: nat :: LastMention(os, b, k)
  {
    var n := |os| - 1;
    if Mentions(os[n], b) {
      assert LastMention(os, b, n);
    } else {
      assert AnyMentions(os[..n], b) by {
        var k :| 0 <= k < |os| && Mentions(os[k], b);
        assert os[..n][k] == os[k];
      }
      SomeLastMention(os[..n], b);
      var k: nat :| LastMention(os[..n], b, k);
      assert LastMention(os, b, k) by {
        assert forall m :: 0 <= m < n ==> os[..n][m] == os[m];
      }
    }
  }

  /** Aggregating a list and walking it differ exactly when it ends in a deny of what it allowed. */
  lemma WalkDiffersIff(os: seq<Override>, b: nat)
    requires AnyMentions(os, b)
    ensures LastAllows(os, b) ==> AnyAllows(os, b)
    ensures AnyAllows(os, b) && !LastAllows(os, b) <==> DeniedAtLast(os, b)
  {
    LastAllowsAt(os, b);
    SomeLastMention(os, b);
    var k: nat :| LastMention(os, b, k);
    assert forall m: nat :: LastMention(os, b, m) ==> m == k;
    if AnyAllows(os, b) && b !in os[k].allow {
      var j :| 0 <= j < |os| && b in os[j].allow;
      assert Mentions(os[j], b);
    }
  }

  lemma LastWordIs(i: Input, b: nat)
    ensures LastWord(i, b) <==> Decided(i, b) && !Overruled(i, b)
  {
    match Deciding(i, b)
    case ChannelRole => WalkDiffersIff(i.channelRoles, b);
    case GroupRole => WalkDiffersIff(i.groupRoles, b);
    case _ =>
  }

  /** Exactly when the explanation matches: resolution bypassed, channel hidden, or no bit overruled. */
  lemma ExplainsIff(i: Input, now: int)
    ensures ExplainsEffective(i, now) <==>
      || i.isOwner || InBase(i, ADMINISTRATOR) || TimedOut(i, now)
      || !Decided(i, VIEW_CHANNEL)
      || forall b :: 0 <= b < BIT_COUNT ==> !Overruled(i, b)
  {
    if i.isOwner || InBase(i, ADMINISTRATOR) || TimedOut(i, now) {
    } else {
      forall b: nat ensures LastWord(i, b) <==> Decided(i, b) && !Overruled(i, b) {
        LastWordIs(i, b);
      }
      if Decided(i, VIEW_CHANNEL) && ExplainsEffective(i, now) {
        assert Attributed(i, now, VIEW_CHANNEL) <==> Granted(i, now, VIEW_CHANNEL);
        forall b | 0 <= b < BIT_COUNT ensures !Overruled(i, b) {
          assert Attributed(i, now, b) <==> Granted(i, now, b);
        }
      }
    }
  }

  /** A member with two roles, the first allowed to send in the channel and the second denied. */
  lemma ExplanationCanDisagree()
    ensures
      var send: nat := 14;
      var i := Input({VIEW_CHANNEL}, [{}, {}], false, 0, [], [Override({send}, {}), Override({}, {send})], None, None);
      Granted(i, 0, send) && !Attributed(i, 0, send)
  {
    var send: nat := 14;
    var os := [Override({send}, {}), Override({}, {send})];
    var i := Input({VIEW_CHANNEL}, [{}, {}], false, 0, [], os, None, None);
    assert Mentions(os[0], send) && Mentions(os[1], send);
    assert send in os[0].allow;
    assert forall k :: 0 <= k < |os| ==> !Mentions(os[k], VIEW_CHANNEL);
    assert Deciding(i, send) == ChannelRole && Deciding(i, VIEW_CHANNEL) == Base;
  }

  /** A timeout only restricts exactly when the two bits it leaves were granted without it. */
  lemma TimeoutOnlyRestrictsIff(i: Input, now: int)
    requires TimedOut(i, now)
    ensures (forall b: nat :: Granted(i, now, b) ==> Granted(i.(timedOutUntil := 0), now, b)) <==>
      || i.isOwner || InBase(i, ADMINISTRATOR)
      || (Decided(i, VIEW_CHANNEL) && Decided(i, READ_MESSAGE_HISTORY))
  {
    var j := i.(timedOutUntil := 0);
    assert forall b: nat :: InBase(j, b) == InBase(i, b) && Decided(j, b) == Decided(i, b);
    assert Granted(i, now, VIEW_CHANNEL) && Granted(i, now, READ_MESSAGE_HISTORY);
  }

  /** Without any permission but timed out until 10, a member views the channel at 5. */
  lemma TimeoutCanGrant()
    ensures
      var i := Input({}, [], false, 10, [], [], None, None);
      Granted(i, 5, VIEW_CHANNEL) && !Granted(i.(timedOutUntil := 0), 5, VIEW_CHANNEL)
  {
    var i := Input({}, [], false, 10, [], [], None, None);
    var j := i.(timedOutUntil := 0);
    assert !InBase(j, VIEW_CHANNEL) && !InBase(j, ADMINISTRATOR);
    assert Deciding(j, VIEW_CHANNEL) == Base;
  }
}
