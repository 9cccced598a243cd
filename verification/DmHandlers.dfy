/**
 The DM handlers as they run on the tables: channel rows with a status text, a nullable initiator and
 the pair key, and the rows of channel_members (server/internal/store/chat_store.go).  `Valid` says how
 a DM is read out of the rows, and each handler is proved to be one `Step` of the model.

 User ids have no colon.
 */
module DmHandlers {
  import opened Common
  import opened DirectMessages
  import RecoveryText

  // ----- the pair key

  /** Text order, character by character. */
  predicate Less(a: string, b: string) {
    if b == "" then false
    else if a == "" then true
    else a[0] < b[0] || (a[0] == b[0] && Less(a[1..], b[1..]))
  }

  function PairKey(a: string, b: string): string {
    if Less(a, b) then a + ":" + b else b + ":" + a
  }

  lemma {:induction false} LessIsTotal(a: string, b: string)
    ensures Less(a, b) ==> !Less(b, a)
    ensures Less(a, b) || Less(b, a) || a == b
  {
    if a != "" && b != "" {
      LessIsTotal(a[1..], b[1..]);
      assert a == [a[0]] + a[1..] && b == [b[0]] + b[1..];
    }
  }

  lemma JoinDiffers(a: string, b: string, c: string, d: string)
    requires ':' !in a && ':' !in c && a + ":" + b == c + ":" + d
    ensures a == c && b == d
  {
    RecoveryText.CutReadsBack(a, b);
    RecoveryText.CutReadsBack(c, d);
  }

  /** Two pairs have the same key exactly when they are the same two people, in either order. */
  lemma PairKeysDiffer(a: string, b: string, c: string, d: string)
    requires ':' !in a && ':' !in b && ':' !in c && ':' !in d
    ensures PairKey(a, b) == PairKey(c, d) <==> {a, b} == {c, d}
  {
    LessIsTotal(a, b);
    LessIsTotal(c, d);
    var (a1, a2) := if Less(a, b) then (a, b) else (b, a);
    var (c1, c2) := if Less(c, d) then (c, d) else (d, c);
    if a1 + ":" + a2 == c1 + ":" + c2 {
      JoinDiffers(a1, a2, c1, c2);
    }
    if {a, b} == {c, d} {
      SamePair(a, b, c, d);
    }
  }

  lemma SamePair(a: string, b: string, c: string, d: string)
    requires {a, b} == {c, d}
    ensures (a == c && b == d) || (a == d && b == c)
  {
    assert a in {c, d} && b in {c, d} && c in {a, b} && d in {a, b};
  }

  // ----- the rows

  datatype Row = Row(pairKey: string, status: string, initiator: Option<string>)

  datatype Membership = Membership(channel: string, user: string)

  function StatusName(status: Status): string {
    match status
    case Pending => "pending"
    case Declined => "declined"
    case Active => "active"
  }

  lemma NamesDiffer(a: Status, b: Status)
    ensures StatusName(a) == StatusName(b) ==> a == b
  {
    assert "pending"[0] == 'p' && "declined"[0] == 'd' && "active"[0] == 'a';
  }

  /** COALESCE(dm_initiator_id, ''). */
  function OrEmpty(id: Option<string>): string {
    if id.Some? then id.value else ""
  }

  /** The key is that of the DM's people. */
  ghost predicate KeyIs(key: string, people: set<string>) {
    exists a, b :: ':' !in a && ':' !in b && people == {a, b} && key == PairKey(a, b)
  }

  ghost predicate RowIs(row: Row, dm: Dm) {
    row.status == StatusName(dm.status) && OrEmpty(row.initiator) == dm.initiator && KeyIs(row.pairKey, dm.people)
  }

  /** The tables hold the DMs of the model: their rows, and one membership for each of their people. */
  ghost predicate Holds(channels: map<string, Row>, members: set<Membership>, s: State) {
    RowsHold(channels, s.dms) && MembersHold(members, s.dms) && Inv(s)
  }

  ghost predicate RowsHold(channels: map<string, Row>, dms: map<string, Dm>) {
    channels.Keys == dms.Keys && forall ch :: ch in channels ==> RowIs(channels[ch], dms[ch])
  }

  ghost predicate MembersHold(members: set<Membership>, dms: map<string, Dm>) {
    forall ch, u :: Membership(ch, u) in members <==> ch in dms && u in dms[ch].people
  }

  /** The row a pair key finds is the one the model's index names. */
  lemma FoundByKey(channels: map<string, Row>, members: set<Membership>, s: State, a: string, b: string, ch: string)
    requires Holds(channels, members, s) && ':' !in a && ':' !in b && ch in channels
    ensures channels[ch].pairKey == PairKey(a, b) <==> {a, b} in s.byPair && s.byPair[{a, b}] == ch
  {
    assert RowIs(channels[ch], s.dms[ch]);
    var c, d :| ':' !in c && ':' !in d && s.dms[ch].people == {c, d} && channels[ch].pairKey == PairKey(c, d);
    PairKeysDiffer(c, d, a, b);
  }

  lemma RaiseKeeps(s: State, ch: string, status: Status)
    requires Inv(s) && ch in s.dms && (status.Active? || !s.dms[ch].status.Active?)
    ensures Inv(WithStatus(s, ch, status))
  {
  }

  /** Changing the status text of a row. */
  lemma StatusHolds(channels: map<string, Row>, members: set<Membership>, s: State, ch: string, status: Status)
    requires Holds(channels, members, s) && ch in channels && (status.Active? || !s.dms[ch].status.Active?)
    ensures Holds(channels[ch := channels[ch].(status := StatusName(status))], members, WithStatus(s, ch, status))
  {
    RaiseKeeps(s, ch, status);
    StatusRows(channels, s.dms, ch, status);
    SameMembers(members, s.dms, WithStatus(s, ch, status).dms);
  }

  lemma StatusRows(channels: map<string, Row>, dms: map<string, Dm>, ch: string, status: Status)
    requires RowsHold(channels, dms) && ch in channels
    ensures RowsHold(channels[ch := channels[ch].(status := StatusName(status))], dms[ch := dms[ch].(status := status)])
  {
    assert RowIs(channels[ch], dms[ch]);
  }

  lemma SameMembers(members: set<Membership>, dms: map<string, Dm>, dms': map<string, Dm>)
    requires MembersHold(members, dms) && dms'.Keys == dms.Keys
    requires forall ch :: ch in dms ==> dms'[ch].people == dms[ch].people
    ensures MembersHold(members, dms')
  {
  }

  lemma InsertMembers(members: set<Membership>, dms: map<string, Dm>, id: string, dm: Dm, a: string, b: string)
    requires MembersHold(members, dms) && id !in dms && dm.people == {a, b}
    ensures MembersHold(members + {Membership(id, a), Membership(id, b)}, dms[id := dm])
  {
  }

  /** Inserting a row and its memberships. */
  lemma InsertHolds(channels: map<string, Row>, members: set<Membership>, s: State, id: string, row: Row, dm: Dm,
      a: string, b: string)
    requires Holds(channels, members, s) && id !in channels && RowIs(row, dm) && dm.people == {a, b}
    requires Inv(State(s.dms[id := dm], s.byPair[{a, b} := id]))
    ensures Holds(channels[id := row], members + {Membership(id, a), Membership(id, b)},
                  State(s.dms[id := dm], s.byPair[{a, b} := id]))
  {
    InsertMembers(members, s.dms, id, dm, a, b);
    assert RowsHold(channels[id := row], s.dms[id := dm]);
  }

  class DmService {
    var channels: map<string, Row>
    var members: set<Membership>

    /** The DMs the rows are read as. */
    ghost var view: State

    ghost predicate Valid()
      reads this
    {
      Holds(channels, members, view)
    }

    constructor ()
      ensures Valid() && view == State(map[], map[])
    {
      channels, members, view := map[], {}, State(map[], map[]);
    }

    method UpdateDmStatus(channel: string, status: Status)
      requires Valid() && channel in channels && (status.Active? || !view.dms[channel].status.Active?)
      modifies this
      ensures Valid() && view == WithStatus(old(view), channel, status)
    {
      var rows := channels[channel := channels[channel].(status := StatusName(status))];
      ghost var next := WithStatus(view, channel, status);
      assert Holds(rows, members, next) by {
        StatusHolds(channels, members, view, channel, status);
      }
      channels, view := rows, next;
    }

    /** SELECT ... WHERE dm_pair_key = the key of the two. */
    method GetDmChannelByPairKey(a: string, b: string) returns (ch: Option<string>)
      requires Valid() && ':' !in a && ':' !in b
      ensures ch == if {a, b} in view.byPair then Some(view.byPair[{a, b}]) else None
      ensures ch.Some? ==> ch.value in channels
    {
      var key, rest := PairKey(a, b), channels.Keys;
      while rest != {}
        invariant rest <= channels.Keys
        invariant forall c :: c in channels.Keys - rest ==> channels[c].pairKey != key
        decreases rest
      {
        var c :| c in rest;
        if channels[c].pairKey == key {
          FoundByKey(channels, members, view, a, b, c);
          return Some(c);
        }
        rest := rest - {c};
      }
      if {a, b} in view.byPair {
        FoundByKey(channels, members, view, a, b, view.byPair[{a, b}]);
        assert false;
      }
      return None;
    }

    /** CreateDMChannel's transaction, for a pair without a DM. */
    method CreateDmChannel(a: string, b: string, status: Status, initiator: string, id: string)
      requires Valid() && ':' !in a && ':' !in b && id !in channels
      requires Inv(State(view.dms[id := Dm({a, b}, status, initiator)], view.byPair[{a, b} := id]))
      modifies this
      ensures Valid()
      ensures view == State(old(view).dms[id := Dm({a, b}, status, initiator)], old(view).byPair[{a, b} := id])
    {
      var row := Row(PairKey(a, b), StatusName(status), if initiator != "" then Some(initiator) else None);
      ghost var dm := Dm({a, b}, status, initiator);
      assert KeyIs(row.pairKey, dm.people);
      InsertHolds(channels, members, view, id, row, dm, a, b);
      channels := channels[id := row];
      members := members + {Membership(id, a), Membership(id, b)};
      view := State(view.dms[id := dm], view.byPair[{a, b} := id]);
    }

    method CreateOrGetDmChannel(c: Call) returns (r: Reply)
      requires Valid() && c.Open? && ':' !in c.user && ':' !in c.recipient && Legal(view, c)
      modifies this
      ensures Valid() && (view, r) == Step(old(view), c)
    {
      StepKeeps(view, c);
      if !c.admitted {
        return Refused;
      }
      var isSelf := c.user == c.recipient;
      if !isSelf && c.blocked {
        return Refused;
      }
      var existing := GetDmChannelByPairKey(c.user, c.recipient);
      if existing.Some? {
        r := Reopen(c, existing.value);
        return;
      }
      var status, initiator := Active, "";
      if !isSelf {
        match c.privacy {
          case Nobody => return Refused;
          case Friends =>
            if !c.areFriends {
              status, initiator := Pending, c.user;
            }
          case MutualServers =>
            if !c.areFriends && !c.mutual {
              return Refused;
            }
          case MessageRequests =>
            if !c.areFriends && !c.mutual {
              status, initiator := Pending, c.user;
            }
          case Anyone =>
        }
      }
      CreateDmChannel(c.user, c.recipient, status, initiator, c.newId);
      return Opened(c.newId);
    }

    /** The pair has a DM already. */
    method Reopen(c: Call, ch: string) returns (r: Reply)
      requires Valid() && c.Open? && c.admitted && (c.user == c.recipient || !c.blocked)
      requires ch in channels && {c.user, c.recipient} in view.byPair && view.byPair[{c.user, c.recipient}] == ch
      modifies this
      ensures Valid() && (view, r) == Step(old(view), c)
    {
      NamesDiffer(view.dms[ch].status, Declined);
      if channels[ch].status != "declined" {
        return Opened(ch);
      }
      if c.user != c.recipient && OrEmpty(channels[ch].initiator) == c.user {
        return Opened(ch);
      }
      UpdateDmStatus(ch, Active);
      return Opened(ch);
    }

    method AcceptMessageRequest(user: string, ch: string, blocked: bool) returns (r: Reply)
      requires Valid()
      modifies this
      ensures Valid() && (view, r) == Step(old(view), Accept(user, ch, blocked))
    {
      if ch !in channels || Membership(ch, user) !in members {
        return Refused;
      }
      NamesDiffer(view.dms[ch].status, Pending);
      if channels[ch].status != "pending" || OrEmpty(channels[ch].initiator) == user || blocked {
        return Refused;
      }
      UpdateDmStatus(ch, Active);
      return Done;
    }

    method DeclineMessageRequest(user: string, ch: string) returns (r: Reply)
      requires Valid()
      modifies this
      ensures Valid() && (view, r) == Step(old(view), Decline(user, ch))
    {
      if ch !in channels || Membership(ch, user) !in members {
        return Refused;
      }
      NamesDiffer(view.dms[ch].status, Pending);
      if channels[ch].status != "pending" || OrEmpty(channels[ch].initiator) == user {
        return Refused;
      }
      UpdateDmStatus(ch, Declined);
      return Done;
    }

    method ReverseDecline(user: string, ch: string, blocked: bool) returns (r: Reply)
      requires Valid()
      modifies this
      ensures Valid() && (view, r) == Step(old(view), Reverse(user, ch, blocked))
    {
      if ch !in channels || Membership(ch, user) !in members {
        return Refused;
      }
      NamesDiffer(view.dms[ch].status, Declined);
      if channels[ch].status != "declined" || OrEmpty(channels[ch].initiator) == user || blocked {
        return Refused;
      }
      UpdateDmStatus(ch, Active);
      return Done;
    }

    method AcceptFriendRequest(user: string, requester: string, storeOk: bool) returns (r: Reply)
      requires Valid() && ':' !in user && ':' !in requester
      modifies this
      ensures Valid() && (view, r) == Step(old(view), AcceptFriend(user, requester, storeOk))
    {
      if !storeOk {
        return Refused;
      }
      var existing := GetDmChannelByPairKey(user, requester);
      if existing.Some? {
        NamesDiffer(view.dms[existing.value].status, Pending);
        if channels[existing.value].status == "pending" {
          UpdateDmStatus(existing.value, Active);
        }
      }
      return Done;
    }

    /** GetDMOtherParticipantID: any other member, or the caller where there is none. */
    method OtherParticipant(ch: string, user: string) returns (other: string)
      requires Valid() && ch in channels && Membership(ch, user) in members
      ensures other == user <==> view.dms[ch].people == {user}
    {
      if m :| m in members && m.channel == ch && m.user != user {
        assert m == Membership(ch, m.user);
        return m.user;
      }
      assert forall u :: u in view.dms[ch].people ==> Membership(ch, u).user == user;
      return user;
    }

    method SendMessage(user: string, ch: string, blocked: bool, admitted: bool) returns (r: Reply)
      requires Valid()
      ensures (view, r) == Step(view, Send(user, ch, blocked, admitted))
    {
      if ch !in channels || Membership(ch, user) !in members {
        return Refused;
      }
      var other := OtherParticipant(ch, user);
      if other != user && blocked {
        return Refused;
      }
      NamesDiffer(view.dms[ch].status, Pending);
      if channels[ch].status == "pending" && OrEmpty(channels[ch].initiator) != user {
        return Refused;
      }
      if !admitted {
        return Refused;
      }
      NamesDiffer(view.dms[ch].status, Declined);
      var skipBroadcast := channels[ch].status == "declined";
      return Sent(!skipBroadcast);
    }
  }
}
