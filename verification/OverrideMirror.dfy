/**
 Voice channels and their companion text channels: CreateChannel (server/cmd/chat/service.go), the
 override handlers (service_permission_overrides.go) and the cascades of the schema.  Store calls
 succeed; who may make which call is the matter of OverrideHandlers.
 */
module OverrideMirror {
  import opened Common
  import opened Permissions

  datatype Channel = Channel(group: Option<string>, companion: Option<string>)

  datatype State = State(groups: set<string>, channels: map<string, Channel>, overrides: map<Slot, Override>)

  datatype Call =
    | CreateGroup(id: string)
    | CreateChannel(id: string, companion: Option<string>, group: Option<string>, isPrivate: bool, everyone: string)
    | SetOverride(target: string, who: Who, override: Override)
    | DeleteOverride(target: string, who: Who)
    | SyncChannel(channel: string)
    | DeleteRole(role: string)
    | DeleteChannel(channel: string)
    | DeleteGroup(groupId: string)

  predicate IsCompanion(s: State, id: string) {
    exists v :: v in s.channels && s.channels[v].companion == Some(id)
  }

  /** The override on a channel for a role or user. */
  function Lookup(s: State, channel: string, who: Who): Option<Override> {
    if Slot(false, channel, who) in s.overrides then Some(s.overrides[Slot(false, channel, who)]) else None
  }

  function DenyView(channel: string, everyone: string): map<Slot, Override> {
    map[Slot(false, channel, RoleWho(everyone)) := Override({}, {VIEW_CHANNEL})]
  }

  /**
   The rows CreateChannel writes for a channel: the @everyone deny of a private channel, then a copy of
   the category's role overrides.  The copies carry no user id, so a copied user override would have
   neither role nor user, and the table's check refuses it.
   */
  function Initial(s: State, channel: string, group: Option<string>, isPrivate: bool, everyone: string)
    : map<Slot, Override>
  {
    var deny := if isPrivate then DenyView(channel, everyone) else map[];
    var copied :=
      if group.Some? then
        map slot | slot in s.overrides && slot.isGroup && slot.target == group.value && slot.who.RoleWho? ::
          Slot(false, channel, slot.who) := s.overrides[slot]
      else map[];
    deny + copied
  }

  /** The target and, for a voice channel, its companion. */
  function Pair(s: State, channel: string): set<string> {
    if channel in s.channels && s.channels[channel].companion.Some? then
      {channel, s.channels[channel].companion.value}
    else {channel}
  }

  predicate Accepts(s: State, c: Call) {
    match c
    case CreateGroup(_) => true
    case CreateChannel(_, _, group, _, _) => group.Some? ==> group.value in s.groups
    case SetOverride(target, _, o) =>
      && (target in s.groups || (target in s.channels && !IsCompanion(s, target)))
      && (forall b :: b in o.allow ==> Scoped(b)) && (forall b :: b in o.deny ==> Scoped(b))
    case DeleteOverride(target, who) =>
      if target in s.groups then Slot(true, target, who) in s.overrides
      else target in s.channels && !IsCompanion(s, target) && Slot(false, target, who) in s.overrides
    case SyncChannel(channel) => channel in s.channels && s.channels[channel].group.Some? && !IsCompanion(s, channel)
    case DeleteRole(_) => true
    case DeleteChannel(channel) => channel in s.channels && !IsCompanion(s, channel)
    case DeleteGroup(group) => group in s.groups
  }

  /** DeleteChannelGroupWithSnapshot: the category's overrides settle on its channels, where none stands already. */
  function Snapshot(s: State, group: string): map<Slot, Override> {
    map channel, slot | channel in s.channels && s.channels[channel].group == Some(group)
                        && slot in s.overrides && slot.isGroup && slot.target == group ::
      Slot(false, channel, slot.who) := s.overrides[slot]
  }

  function Step(s: State, c: Call): State {
    if !Accepts(s, c) then s
    else
      match c
      case CreateGroup(id) => s.(groups := s.groups + {id})
      case CreateChannel(id, companion, group, isPrivate, everyone) =>
        var rows := Initial(s, id, group, isPrivate, everyone);
        var s1 := s.(channels := s.channels[id := Channel(group, companion)], overrides := s.overrides + rows);
        if companion.None? then s1
        else
          s1.(channels := s1.channels[companion.value := Channel(group, None)],
              overrides := s1.overrides + Initial(s, companion.value, group, isPrivate, everyone))
      case SetOverride(target, who, o) =>
        if target in s.groups then s.(overrides := s.overrides[Slot(true, target, who) := o])
        else s.(overrides := s.overrides + map ch | ch in Pair(s, target) :: Slot(false, ch, who) := o)
      case DeleteOverride(target, who) =>
        if target in s.groups then s.(overrides := s.overrides - {Slot(true, target, who)})
        else s.(overrides := s.overrides - set ch | ch in Pair(s, target) :: Slot(false, ch, who))
      case SyncChannel(channel) => s.(overrides := OverridesOff(s, Pair(s, channel)))
      case DeleteRole(role) =>
        s.(overrides := map slot | slot in s.overrides && slot.who != RoleWho(role) :: s.overrides[slot])
      case DeleteChannel(channel) => s.(channels := s.channels - Pair(s, channel),
        overrides := OverridesOff(s, Pair(s, channel)))
      case DeleteGroup(group) =>
        State(
          s.groups - {group},
          map ch | ch in s.channels ::
            if s.channels[ch].group == Some(group) then s.channels[ch].(group := None) else s.channels[ch],
          map slot | slot in (Snapshot(s, group) + s.overrides) && !(slot.isGroup && slot.target == group) ::
            (Snapshot(s, group) + s.overrides)[slot])
  }

  /** All override rows but those on the given channels. */
  function OverridesOff(s: State, channels: set<string>): map<Slot, Override> {
    map slot | slot in s.overrides && (slot.isGroup || slot.target !in channels) :: s.overrides[slot]
  }

  /** Ids are new: not a category, not a channel, no row left on them. */
  ghost predicate Fresh(s: State, id: string) {
    id !in s.groups && id !in s.channels && forall who :: Slot(false, id, who) !in s.overrides
  }

  ghost predicate Legal(s: State, c: Call) {
    match c
    case CreateGroup(id) => Fresh(s, id)
    case CreateChannel(id, companion, _, _, _) =>
      Fresh(s, id) && (companion.Some? ==> companion.value != id && Fresh(s, companion.value))
    case _ => true
  }

  // ----- the invariant

  /** Companions exist, belong to one voice channel, share its category and have no companion themselves. */
  ghost predicate WellPaired(s: State) {
    && (forall v :: v in s.channels && s.channels[v].companion.Some? ==>
          var c := s.channels[v].companion.value;
          c in s.channels && c != v && s.channels[c].companion.None? && s.channels[c].group == s.channels[v].group)
    && (forall v, w :: v in s.channels && w in s.channels && s.channels[v].companion.Some? ==>
          (s.channels[v].companion == s.channels[w].companion ==> v == w))
    && (forall ch :: ch in s.channels ==> ch !in s.groups)
  }

  ghost predicate SameTable(s: State, v: string, c: string) {
    forall who :: Lookup(s, v, who) == Lookup(s, c, who)
  }

  ghost predicate Mirrors(s: State) {
    forall v :: v in s.channels && s.channels[v].companion.Some? ==> SameTable(s, v, s.channels[v].companion.value)
  }

  /** A call on a channel reaches both halves of a voice channel or neither. */
  lemma PairIsBoth(s: State, v: string, target: string)
    requires WellPaired(s) && v in s.channels && s.channels[v].companion.Some? && !IsCompanion(s, target)
    ensures v in Pair(s, target) <==> s.channels[v].companion.value in Pair(s, target)
  {
  }

  lemma SetLookup(s: State, c: Call, ch: string, who: Who)
    requires c.SetOverride? && Accepts(s, c) && ch !in s.groups
    ensures Lookup(Step(s, c), ch, who) ==
      if c.target !in s.groups && ch in Pair(s, c.target) && who == c.who then Some(c.override) else Lookup(s, ch, who)
  {
  }

  lemma DeleteLookup(s: State, c: Call, ch: string, who: Who)
    requires c.DeleteOverride? && Accepts(s, c)
    ensures Lookup(Step(s, c), ch, who) ==
      if c.target !in s.groups && ch in Pair(s, c.target) && who == c.who then None else Lookup(s, ch, who)
  {
    if c.target !in s.groups {
      var gone := set x | x in Pair(s, c.target) :: Slot(false, x, c.who);
      assert Slot(false, ch, who) in gone <==> ch in Pair(s, c.target) && who == c.who;
    }
  }

  lemma ClearLookup(s: State, c: Call, ch: string, who: Who)
    requires (c.SyncChannel? || c.DeleteChannel?) && Accepts(s, c)
    ensures Lookup(Step(s, c), ch, who) == if ch in Pair(s, c.channel) then None else Lookup(s, ch, who)
  {
  }

  /** What a new channel starts with, whichever channel it is. */
  function InitialOverride(s: State, group: Option<string>, isPrivate: bool, everyone: string,
      who: Who): Option<Override> {
    if group.Some? && who.RoleWho? && Slot(true, group.value, who) in s.overrides then
      Some(s.overrides[Slot(true, group.value, who)])
    else if isPrivate && who == RoleWho(everyone) then Some(Override({}, {VIEW_CHANNEL}))
    else None
  }

  lemma InitialRows(s: State, channel: string, group: Option<string>, isPrivate: bool, everyone: string, slot: Slot)
    ensures
      var rows := Initial(s, channel, group, isPrivate, everyone);
      (slot in rows <==>
         !slot.isGroup && slot.target == channel && InitialOverride(s, group, isPrivate, everyone, slot.who).Some?)
      && (slot in rows ==> rows[slot] == InitialOverride(s, group, isPrivate, everyone, slot.who).value)
  {
    if group.Some? && slot == Slot(false, channel, slot.who) {
      var source := Slot(true, group.value, slot.who);
      assert source in s.overrides && source.who.RoleWho? ==> slot in Initial(s, channel, group, isPrivate, everyone);
    }
  }

  lemma CreateLookup(s: State, c: Call, ch: string, who: Who)
    requires c.CreateChannel? && Accepts(s, c) && Legal(s, c)
    ensures Lookup(Step(s, c), ch, who) ==
      if ch == c.id || c.companion == Some(ch) then
        InitialOverride(s, c.group, c.isPrivate, c.everyone, who)
      else Lookup(s, ch, who)
  {
    InitialRows(s, c.id, c.group, c.isPrivate, c.everyone, Slot(false, ch, who));
    if c.companion.Some? {
      InitialRows(s, c.companion.value, c.group, c.isPrivate, c.everyone, Slot(false, ch, who));
    }
  }

  predicate Hides(o: Option<Override>) {
    o.Some? && VIEW_CHANNEL in o.value.deny && VIEW_CHANNEL !in o.value.allow
  }

  /**
   A private channel starts hidden from @everyone unless its category has an @everyone override that does
   not hide it: the copy overwrites the deny.
   */
  lemma StartsHiddenIff(s: State, c: Call, ch: string)
    requires c.CreateChannel? && Accepts(s, c) && Legal(s, c) && c.isPrivate && (ch == c.id || c.companion == Some(ch))
    ensures
      var everyone := RoleWho(c.everyone);
      Hides(Lookup(Step(s, c), ch, everyone)) <==>
      (c.group.Some? && Slot(true, c.group.value, everyone) in s.overrides ==>
         Hides(Some(s.overrides[Slot(true, c.group.value, everyone)])))
  {
    CreateLookup(s, c, ch, RoleWho(c.everyone));
  }

  /** A private channel in a category that lets @everyone view: nothing hides it. */
  lemma PrivateCanStartVisible()
    ensures
      var row := Override({VIEW_CHANNEL}, {});
      var s := State({"g"}, map[], map[Slot(true, "g", RoleWho("s")) := row]);
      var c := CreateChannel("c", None, Some("g"), true, "s");
      Accepts(s, c) && Legal(s, c) && Lookup(Step(s, c), "c", RoleWho("s")) == Some(row) && !Hides(Some(row))
  {
    var s := State({"g"}, map[], map[Slot(true, "g", RoleWho("s")) := Override({VIEW_CHANNEL}, {})]);
    var c := CreateChannel("c", None, Some("g"), true, "s");
    assert "c"[0] != "g"[0];
    CreateLookup(s, c, "c", RoleWho("s"));
  }

  lemma SnapshotRows(s: State, group: string, ch: string, who: Who)
    ensures
      var slot := Slot(false, ch, who);
      (slot in Snapshot(s, group) <==>
        ch in s.channels && s.channels[ch].group == Some(group) && Slot(true, group, who) in s.overrides)
      && (slot in Snapshot(s, group) ==> Snapshot(s, group)[slot] == s.overrides[Slot(true, group, who)])
  {
  }

  lemma GroupLookup(s: State, c: Call, ch: string, who: Who)
    requires c.DeleteGroup? && Accepts(s, c)
    ensures Lookup(Step(s, c), ch, who) ==
      if Lookup(s, ch, who).None? && ch in s.channels && s.channels[ch].group == Some(c.groupId)
        && Slot(true, c.groupId, who) in s.overrides
      then Some(s.overrides[Slot(true, c.groupId, who)])
      else Lookup(s, ch, who)
  {
    SnapshotRows(s, c.groupId, ch, who);
  }

  lemma CreatePairs(s: State, c: Call)
    requires c.CreateChannel? && WellPaired(s) && Legal(s, c) && Accepts(s, c)
    ensures WellPaired(Step(s, c))
  {
    var s' := Step(s, c);
    forall v | v in s'.channels && s'.channels[v].companion.Some?
      ensures v == c.id || (v in s.channels && s'.channels[v] == s.channels[v])
    {
    }
  }

  lemma StepPairs(s: State, c: Call)
    requires WellPaired(s) && Legal(s, c)
    ensures WellPaired(Step(s, c))
  {
    if Accepts(s, c) {
      match c
      case CreateChannel(_, _, _, _, _) => CreatePairs(s, c);
      case DeleteChannel(channel) =>
        forall v | v in s.channels && s.channels[v].companion.Some? {
          PairIsBoth(s, v, channel);
        }
      case _ =>
    }
  }

  /** The two halves of one voice channel agree after the call. */
  lemma StepMirrorsOne(s: State, c: Call, v: string, who: Who)
    requires WellPaired(s) && Mirrors(s) && Legal(s, c) && Accepts(s, c)
    requires v in Step(s, c).channels && Step(s, c).channels[v].companion.Some?
    ensures Lookup(Step(s, c), v, who) == Lookup(Step(s, c), Step(s, c).channels[v].companion.value, who)
  {
    var x := Step(s, c).channels[v].companion.value;
    match c
    case CreateChannel(_, _, _, _, _) =>
      CreateLookup(s, c, v, who);
      CreateLookup(s, c, x, who);
      if v != c.id {
        assert SameTable(s, v, x);
      }
    case SetOverride(target, _, _) =>
      assert SameTable(s, v, x);
      SetLookup(s, c, v, who);
      SetLookup(s, c, x, who);
      if target !in s.groups {
        PairIsBoth(s, v, target);
      }
    case DeleteOverride(target, _) =>
      assert SameTable(s, v, x);
      DeleteLookup(s, c, v, who);
      DeleteLookup(s, c, x, who);
      if target !in s.groups {
        PairIsBoth(s, v, target);
      }
    case SyncChannel(channel) =>
      assert SameTable(s, v, x);
      ClearLookup(s, c, v, who);
      ClearLookup(s, c, x, who);
      PairIsBoth(s, v, channel);
    case DeleteChannel(channel) =>
      assert SameTable(s, v, x);
      ClearLookup(s, c, v, who);
      ClearLookup(s, c, x, who);
      PairIsBoth(s, v, channel);
    case DeleteGroup(_) =>
      assert SameTable(s, v, x);
      GroupLookup(s, c, v, who);
      GroupLookup(s, c, x, who);
    case _ =>
      assert SameTable(s, v, x);
      assert Lookup(s, v, who) == Lookup(s, x, who);
  }

  lemma StepMirrors(s: State, c: Call)
    requires WellPaired(s) && Mirrors(s) && Legal(s, c)
    ensures Mirrors(Step(s, c))
  {
    if Accepts(s, c) {
      var s' := Step(s, c);
      forall v, who | v in s'.channels && s'.channels[v].companion.Some?
        ensures Lookup(s', v, who) == Lookup(s', s'.channels[v].companion.value, who)
      {
        StepMirrorsOne(s, c, v, who);
      }
    }
  }

  // ----- runs

  ghost function Run(s: State, calls: seq<Call>): State {
    if calls == [] then s else Step(Run(s, calls[..|calls| - 1]), calls[|calls| - 1])
  }

  ghost predicate LegalRun(s: State, calls: seq<Call>) {
    forall i :: 0 <= i < |calls| ==> Legal(Run(s, calls[..i]), calls[i])
  }

  /** In every run a voice channel and its companion carry the same override table. */
  lemma {:induction false} AlwaysMirrored(s: State, calls: seq<Call>)
    requires WellPaired(s) && Mirrors(s) && LegalRun(s, calls)
    ensures WellPaired(Run(s, calls)) && Mirrors(Run(s, calls))
  {
    if calls != [] {
      var n := |calls| - 1;
      var p := calls[..n];
      assert LegalRun(s, p) by {
        forall i | 0 <= i < n ensures Legal(Run(s, p[..i]), p[i]) {
          assert p[..i] == calls[..i];
        }
      }
      AlwaysMirrored(s, p);
      assert Legal(Run(s, p), calls[n]);
      StepPairs(Run(s, p), calls[n]);
      StepMirrors(Run(s, p), calls[n]);
    }
  }

  // ----- the handlers

  /** The category's rows, in the order the listing returns them. */
  ghost predicate Lists(s: State, group: string, listing: seq<Slot>) {
    forall slot :: slot in listing <==> slot in s.overrides && slot.isGroup && slot.target == group
  }

  /** A row that copying the listed category overrides produces. */
  predicate IsCopy(slot: Slot, listing: seq<Slot>, group: string, channel: string, companion: Option<string>) {
    !slot.isGroup && (slot.target == channel || companion == Some(slot.target)) && slot.who.RoleWho?
      && Slot(true, group, slot.who) in listing
  }

  /** The copying loop of CreateChannel: each listed row to the channel, then to its companion. */
  method CopyCategory(ov: map<Slot, Override>, group: string, listing: seq<Slot>, channel: string,
      companion: Option<string>)
    returns (r: map<Slot, Override>)
    requires forall slot :: slot in listing ==> slot in ov && slot.isGroup && slot.target == group
    ensures forall slot :: slot in r <==> slot in ov || IsCopy(slot, listing, group, channel, companion)
    ensures forall slot :: slot in r ==>
      r[slot] == if IsCopy(slot, listing, group, channel, companion) then ov[Slot(true, group, slot.who)] else ov[slot]
  {
    r := ov;
    for i := 0 to |listing|
      invariant forall slot :: slot in r <==> slot in ov || IsCopy(slot, listing[..i], group, channel, companion)
      invariant forall slot :: slot in r ==>
        r[slot] ==
          if IsCopy(slot, listing[..i], group, channel, companion) then ov[Slot(true, group, slot.who)]
          else ov[slot]
    {
      var source := listing[i];
      assert source in listing;
      forall slot ensures
        IsCopy(slot, listing[..i + 1], group, channel, companion) <==>
        IsCopy(slot, listing[..i], group, channel, companion) || IsCopy(slot, [source], group, channel, companion)
      {
        assert listing[..i + 1] == listing[..i] + [source];
      }
      if source.who.RoleWho? {
        r := r[Slot(false, channel, source.who) := ov[source]];
        if companion.Some? {
          r := r[Slot(false, companion.value, source.who) := ov[source]];
        }
      }
    }
    assert listing[..|listing|] == listing;
  }

  lemma CreatedRows(s: State, c: Call, slot: Slot)
    requires c.CreateChannel? && Accepts(s, c)
    ensures StartsAt(s, c.id, c.companion, c.group, c.isPrivate, c.everyone, Step(s, c).overrides, slot)
  {
    InitialRows(s, c.id, c.group, c.isPrivate, c.everyone, slot);
    if c.companion.Some? {
      InitialRows(s, c.companion.value, c.group, c.isPrivate, c.everyone, slot);
    }
  }

  /** The @everyone deny of a private channel and of its companion. */
  method DenyRows(ov: map<Slot, Override>, channel: string, companion: Option<string>, isPrivate: bool,
      everyone: string)
    returns (r: map<Slot, Override>)
    ensures forall slot :: slot in r <==> slot in ov || IsDeny(slot, channel, companion, isPrivate, everyone)
    ensures forall slot :: slot in r ==>
      r[slot] ==
        if IsDeny(slot, channel, companion, isPrivate, everyone) then Override({}, {VIEW_CHANNEL})
        else ov[slot]
  {
    r := ov;
    if isPrivate {
      r := r[Slot(false, channel, RoleWho(everyone)) := Override({}, {VIEW_CHANNEL})];
      if companion.Some? {
        r := r[Slot(false, companion.value, RoleWho(everyone)) := Override({}, {VIEW_CHANNEL})];
      }
    }
  }

  predicate IsDeny(slot: Slot, channel: string, companion: Option<string>, isPrivate: bool, everyone: string) {
    isPrivate && !slot.isGroup && (slot.target == channel || companion == Some(slot.target))
      && slot.who == RoleWho(everyone)
  }

  /** A row of the table after the creation: new, or what it was. */
  ghost predicate StartsAt(s: State, id: string, companion: Option<string>, group: Option<string>, isPrivate: bool,
      everyone: string, r: map<Slot, Override>, slot: Slot) {
    var mine := !slot.isGroup && (slot.target == id || companion == Some(slot.target));
    var first := InitialOverride(s, group, isPrivate, everyone, slot.who);
    && (slot in r <==> slot in s.overrides || (mine && first.Some?))
    && (slot in r ==> r[slot] == if mine && first.Some? then first.value else s.overrides[slot])
  }

  lemma OneRow(s: State, id: string, companion: Option<string>, group: string, isPrivate: bool, everyone: string,
      listing: seq<Slot>, denied: map<Slot, Override>, r: map<Slot, Override>, slot: Slot)
    requires Slot(true, group, slot.who) in listing <==> Slot(true, group, slot.who) in s.overrides
    requires Slot(true, group, slot.who) in s.overrides ==>
      Slot(true, group, slot.who) in denied
        && denied[Slot(true, group, slot.who)] == s.overrides[Slot(true, group, slot.who)]
    requires slot in denied <==> slot in s.overrides || IsDeny(slot, id, companion, isPrivate, everyone)
    requires slot in denied ==>
      denied[slot] ==
        if IsDeny(slot, id, companion, isPrivate, everyone) then Override({}, {VIEW_CHANNEL})
        else s.overrides[slot]
    requires slot in r <==> slot in denied || IsCopy(slot, listing, group, id, companion)
    requires slot in r ==>
      r[slot] ==
        if IsCopy(slot, listing, group, id, companion) then denied[Slot(true, group, slot.who)]
        else denied[slot]
    ensures StartsAt(s, id, companion, Some(group), isPrivate, everyone, r, slot)
  {
  }

  method CreateRows(s: State, id: string, companion: Option<string>, group: Option<string>, isPrivate: bool,
      everyone: string, listing: seq<Slot>)
    returns (r: map<Slot, Override>)
    requires group.Some? ==> group.value in s.groups && Lists(s, group.value, listing)
    ensures forall slot :: StartsAt(s, id, companion, group, isPrivate, everyone, r, slot)
  {
    r := DenyRows(s.overrides, id, companion, isPrivate, everyone);
    if group.None? {
      return;
    }
    ghost var denied := r;
    r := CopyCategory(r, group.value, listing, id, companion);
    forall slot ensures StartsAt(s, id, companion, group, isPrivate, everyone, r, slot) {
      OneRow(s, id, companion, group.value, isPrivate, everyone, listing, denied, r, slot);
    }
  }

  lemma StartsIsStep(s: State, c: Call, r: map<Slot, Override>)
    requires c.CreateChannel? && Accepts(s, c)
    requires forall slot :: StartsAt(s, c.id, c.companion, c.group, c.isPrivate, c.everyone, r, slot)
    ensures r == Step(s, c).overrides
  {
    forall slot ensures slot in r <==> slot in Step(s, c).overrides
      ensures slot in r ==> r[slot] == Step(s, c).overrides[slot]
    {
      CreatedRows(s, c, slot);
      assert StartsAt(s, c.id, c.companion, c.group, c.isPrivate, c.everyone, r, slot);
    }
  }
}
