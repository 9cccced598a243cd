/**
 Direct messages and message requests: CreateOrGetDMChannel (server/cmd/chat/service_dm.go), the request
 handlers (service_requests.go), the activation on AcceptFriendRequest (service_friend.go) and the DM
 guards and the broadcast decision of SendMessage (service.go).

 Handlers are atomic.  What they ask other stores (blocks, friendship, shared servers, privacy) is part
 of each call; `blocked` is false towards the system user, whom the server does not check.
 */
module DirectMessages {
  import opened Common

  datatype Status = Pending | Declined | Active

  /** `people` is the pair behind the unique pair key; a self-DM has one. */
  datatype Dm = Dm(people: set<string>, status: Status, initiator: string)

  datatype State = State(dms: map<string, Dm>, byPair: map<set<string>, string>)

  datatype Privacy = Nobody | Friends | MutualServers | MessageRequests | Anyone

  datatype Call =
    | Open(user: string, recipient: string, admitted: bool, blocked: bool, privacy: Privacy, areFriends: bool,
      mutual: bool, newId: string)
    | Accept(user: string, channel: string, blocked: bool)
    | Decline(user: string, channel: string)
    | Reverse(user: string, channel: string, blocked: bool)
    | AcceptFriend(user: string, requester: string, storeOk: bool)
    | Send(user: string, channel: string, blocked: bool, admitted: bool)

  /** `Sent(true)` when the message was published to the channel's subscribers. */
  datatype Reply = Refused | Opened(channel: string) | Done | Sent(broadcast: bool)

  /** The status of a DM that does not exist yet, or None when privacy forbids it. */
  function FirstStatus(c: Call): Option<Status>
    requires c.Open?
  {
    if c.user == c.recipient then Some(Active)
    else
      match c.privacy
      case Nobody => None
      case Friends => if c.areFriends then Some(Active) else Some(Pending)
      case MutualServers => if c.areFriends || c.mutual then Some(Active) else None
      case MessageRequests => if c.areFriends || c.mutual then Some(Active) else Some(Pending)
      case Anyone => Some(Active)
  }

  function WithStatus(s: State, channel: string, status: Status): State
    requires channel in s.dms
  {
    s.(dms := s.dms[channel := s.dms[channel].(status := status)])
  }

  function OpenStep(s: State, c: Call): (State, Reply)
    requires c.Open?
  {
    var pair := {c.user, c.recipient};
    if !c.admitted || (c.user != c.recipient && c.blocked) then (s, Refused)
    else if pair in s.byPair && s.byPair[pair] in s.dms then
      var ch := s.byPair[pair];
      if s.dms[ch].status.Declined? && (c.user == c.recipient || s.dms[ch].initiator != c.user) then
        (WithStatus(s, ch, Active), Opened(ch))
      else (s, Opened(ch))
    else
      match FirstStatus(c)
      case None => (s, Refused)
      case Some(status) =>
        var dm := Dm(pair, status, if status.Pending? then c.user else "");
        (State(s.dms[c.newId := dm], s.byPair[pair := c.newId]), Opened(c.newId))
  }

  function Step(s: State, c: Call): (State, Reply) {
    match c
    case Open(_, _, _, _, _, _, _, _) => OpenStep(s, c)
    case Accept(user, ch, blocked) =>
      if ch !in s.dms || user !in s.dms[ch].people || !s.dms[ch].status.Pending? || s.dms[ch].initiator == user
        || blocked then (s, Refused)
      else (WithStatus(s, ch, Active), Done)
    case Decline(user, ch) =>
      if ch !in s.dms || user !in s.dms[ch].people || !s.dms[ch].status.Pending? || s.dms[ch].initiator == user then
        (s, Refused)
      else (WithStatus(s, ch, Declined), Done)
    case Reverse(user, ch, blocked) =>
      if ch !in s.dms || user !in s.dms[ch].people || !s.dms[ch].status.Declined? || s.dms[ch].initiator == user
        || blocked then (s, Refused)
      else (WithStatus(s, ch, Active), Done)
    case AcceptFriend(user, requester, storeOk) =>
      var pair := {user, requester};
      if !storeOk then (s, Refused)
      else if pair in s.byPair && s.byPair[pair] in s.dms && s.dms[s.byPair[pair]].status.Pending? then
        (WithStatus(s, s.byPair[pair], Active), Done)
      else (s, Done)
    case Send(user, ch, blocked, admitted) =>
      if ch !in s.dms || user !in s.dms[ch].people then (s, Refused)
      else
        var dm := s.dms[ch];
        if (dm.people != {user} && blocked) || (dm.status.Pending? && dm.initiator != user) || !admitted then
          (s, Refused)
        else (s, Sent(!dm.status.Declined?))
  }

  // ----- the invariant

  /** A request stands between two people, one of whom made it; the pair index names exactly the DMs. */
  ghost predicate Inv(s: State) {
    && (forall ch :: ch in s.dms && !s.dms[ch].status.Active? ==>
      |s.dms[ch].people| == 2 && s.dms[ch].initiator in s.dms[ch].people)
    && (forall pair :: pair in s.byPair ==> s.byPair[pair] in s.dms && s.dms[s.byPair[pair]].people == pair)
    && (forall ch :: ch in s.dms ==> s.dms[ch].people in s.byPair && s.byPair[s.dms[ch].people] == ch)
  }

  predicate Legal(s: State, c: Call) {
    c.Open? ==> c.newId !in s.dms
  }

  lemma PairSize(a: string, b: string)
    requires a != b
    ensures |{a, b}| == 2
  {
  }

  lemma StepKeeps(s: State, c: Call)
    requires Inv(s) && Legal(s, c)
    ensures Inv(Step(s, c).0)
  {
    if c.Open? && c.user != c.recipient {
      PairSize(c.user, c.recipient);
    }
  }

  // ----- runs

  ghost function Run(s: State, calls: seq<Call>): State {
    if calls == [] then s else Step(Run(s, calls[..|calls| - 1]), calls[|calls| - 1]).0
  }

  ghost predicate LegalRun(s: State, calls: seq<Call>) {
    forall i :: 0 <= i < |calls| ==> Legal(Run(s, calls[..i]), calls[i])
  }

  lemma {:induction false} RunKeeps(s: State, calls: seq<Call>)
    requires Inv(s) && LegalRun(s, calls)
    ensures Inv(Run(s, calls))
  {
    if calls != [] {
      var n := |calls| - 1;
      var p := calls[..n];
      assert LegalRun(s, p) by {
        forall i | 0 <= i < n ensures Legal(Run(s, p[..i]), p[i]) {
          assert p[..i] == calls[..i];
        }
      }
      RunKeeps(s, p);
      assert Legal(Run(s, p), calls[n]);
      StepKeeps(Run(s, p), calls[n]);
    }
  }

  function Rank(status: Status): nat {
    match status
    case Pending => 0
    case Declined => 1
    case Active => 2
  }

  /** The person who did not start the request reverses the decline or opens the DM. */
  predicate RecipientReopens(dm: Dm, ch: string, c: Call) {
    || (c.Reverse? && c.channel == ch && c.user in dm.people && c.user != dm.initiator)
    || (c.Open? && {c.user, c.recipient} == dm.people && c.user != dm.initiator)
  }

  /** How a DM may change: people and initiator stay, the status only rises. */
  ghost predicate Moves(dm: Dm, dm': Dm) {
    dm'.people == dm.people && dm'.initiator == dm.initiator && Rank(dm.status) <= Rank(dm'.status)
  }

  lemma StepMoves(s: State, c: Call, ch: string)
    requires Inv(s) && Legal(s, c) && ch in s.dms
    ensures ch in Step(s, c).0.dms && Moves(s.dms[ch], Step(s, c).0.dms[ch])
    ensures s.dms[ch].status.Declined? && !Step(s, c).0.dms[ch].status.Declined? ==> RecipientReopens(s.dms[ch], ch, c)
  {
    if c.Open? && s.dms[ch].status.Declined? && c.user == c.recipient {
      assert |{c.user, c.recipient}| == 1;
    }
  }

  lemma LegalPrefix(s: State, calls: seq<Call>, n: nat)
    requires LegalRun(s, calls) && n <= |calls|
    ensures LegalRun(s, calls[..n])
  {
    forall i | 0 <= i < n ensures Legal(Run(s, calls[..n][..i]), calls[..n][i]) {
      assert calls[..n][..i] == calls[..i];
    }
  }

  /** The last call of a run. */
  lemma LastMoves(s: State, calls: seq<Call>, ch: string)
    requires Inv(s) && LegalRun(s, calls) && calls != [] && ch in Run(s, calls[..|calls| - 1]).dms
    ensures ch in Run(s, calls).dms && Moves(Run(s, calls[..|calls| - 1]).dms[ch], Run(s, calls).dms[ch])
    ensures
      var dm := Run(s, calls[..|calls| - 1]).dms[ch];
      dm.status.Declined? && !Run(s, calls).dms[ch].status.Declined? ==> RecipientReopens(dm, ch, calls[|calls| - 1])
  {
    var n := |calls| - 1;
    LegalPrefix(s, calls, n);
    RunKeeps(s, calls[..n]);
    assert Legal(Run(s, calls[..n]), calls[n]);
    StepMoves(Run(s, calls[..n]), calls[n], ch);
  }

  /** What any run may do to a DM. */
  lemma {:induction false} RunMoves(s: State, calls: seq<Call>, ch: string)
    requires Inv(s) && LegalRun(s, calls) && ch in s.dms
    ensures ch in Run(s, calls).dms && Moves(s.dms[ch], Run(s, calls).dms[ch])
  {
    if calls != [] {
      var n := |calls| - 1;
      LegalPrefix(s, calls, n);
      RunMoves(s, calls[..n], ch);
      LastMoves(s, calls, ch);
    }
  }

  lemma {:induction false} RunSplits(s: State, calls: seq<Call>, i: nat)
    requires i <= |calls|
    ensures Run(s, calls) == Run(Run(s, calls[..i]), calls[i..])
    decreases |calls|
  {
    var n := |calls| - 1;
    if i <= n {
      RunSplits(s, calls[..n], i);
      assert calls[..n][..i] == calls[..i] && calls[..n][i..] == calls[i..][..n - i] && calls[i..][n - i] == calls[n];
    } else {
      assert calls[..i] == calls && calls[i..] == [];
    }
  }

  lemma LegalSuffix(s: State, calls: seq<Call>, i: nat)
    requires LegalRun(s, calls) && i <= |calls|
    ensures LegalRun(Run(s, calls[..i]), calls[i..])
  {
    forall j | 0 <= j < |calls| - i ensures Legal(Run(Run(s, calls[..i]), calls[i..][..j]), calls[i..][j]) {
      RunSplits(s, calls[..i + j], i);
      assert calls[..i + j][..i] == calls[..i] && calls[..i + j][i..] == calls[i..][..j];
      assert Legal(Run(s, calls[..i + j]), calls[i + j]);
    }
  }

  /** From any point of a run to its end. */
  lemma MovesSince(s: State, calls: seq<Call>, i: nat, ch: string)
    requires Inv(s) && LegalRun(s, calls) && i <= |calls| && ch in Run(s, calls[..i]).dms
    ensures ch in Run(s, calls).dms && Moves(Run(s, calls[..i]).dms[ch], Run(s, calls).dms[ch])
  {
    LegalPrefix(s, calls, i);
    RunKeeps(s, calls[..i]);
    LegalSuffix(s, calls, i);
    RunMoves(Run(s, calls[..i]), calls[i..], ch);
    RunSplits(s, calls, i);
  }

  /** Once a request is answered it is never pending again; once a DM is active it stays active. */
  lemma NeverPendingAgain(s: State, calls: seq<Call>, i: nat, ch: string)
    requires Inv(s) && LegalRun(s, calls) && i <= |calls| && ch in Run(s, calls[..i]).dms
    ensures ch in Run(s, calls).dms
    ensures !Run(s, calls[..i]).dms[ch].status.Pending? ==> !Run(s, calls).dms[ch].status.Pending?
    ensures Run(s, calls[..i]).dms[ch].status.Active? ==> Run(s, calls).dms[ch].status.Active?
  {
    MovesSince(s, calls, i, ch);
  }

  lemma BroadcastIsNotDeclined(s: State, c: Call)
    requires c.Send? && Step(s, c).1 == Sent(true)
    ensures c.channel in s.dms && !s.dms[c.channel].status.Declined?
  {
  }

  /** What the call at `k` does to a DM. */
  lemma MovesAt(s: State, calls: seq<Call>, k: nat, ch: string)
    requires Inv(s) && LegalRun(s, calls) && k < |calls| && ch in Run(s, calls[..k]).dms
    ensures ch in Run(s, calls[..k + 1]).dms && Moves(Run(s, calls[..k]).dms[ch], Run(s, calls[..k + 1]).dms[ch])
    ensures
      var dm := Run(s, calls[..k]).dms[ch];
      dm.status.Declined? && !Run(s, calls[..k + 1]).dms[ch].status.Declined? ==> RecipientReopens(dm, ch, calls[k])
  {
    LegalPrefix(s, calls, k + 1);
    assert calls[..k + 1][..k] == calls[..k];
    LastMoves(s, calls[..k + 1], ch);
  }

  /** After `k` calls the DM stands declined. */
  ghost predicate DeclinedAt(s: State, calls: seq<Call>, k: nat, ch: string)
    requires k <= |calls|
  {
    ch in Run(s, calls[..k]).dms && Run(s, calls[..k]).dms[ch].status.Declined?
  }

  /** The call at `k` found the DM declined and left it active, and it was the recipient's. */
  ghost predicate LiftedAt(s: State, calls: seq<Call>, k: nat, ch: string)
    requires k < |calls|
  {
    && DeclinedAt(s, calls, k, ch)
    && ch in Run(s, calls[..k + 1]).dms && Run(s, calls[..k + 1]).dms[ch].status.Active?
    && RecipientReopens(Run(s, calls[..k]).dms[ch], ch, calls[k])
  }

  lemma LiftIsRecipients(s: State, calls: seq<Call>, k: nat, ch: string)
    requires Inv(s) && LegalRun(s, calls) && k < |calls|
    requires DeclinedAt(s, calls, k, ch) && !DeclinedAt(s, calls, k + 1, ch)
    ensures LiftedAt(s, calls, k, ch)
  {
    MovesAt(s, calls, k, ch);
  }

  /** A decline that has been lifted was lifted by a call of the recipient that found it standing. */
  lemma {:induction false} LiftedByRecipient(s: State, calls: seq<Call>, i: nat, j: nat, ch: string) returns (k: nat)
    requires Inv(s) && LegalRun(s, calls) && i <= j <= |calls|
    requires DeclinedAt(s, calls, i, ch) && !DeclinedAt(s, calls, j, ch)
    ensures i <= k < j && LiftedAt(s, calls, k, ch)
    decreases j
  {
    if DeclinedAt(s, calls, j - 1, ch) {
      LiftIsRecipients(s, calls, j - 1, ch);
      k := j - 1;
    } else {
      k := LiftedByRecipient(s, calls, i, j - 1, ch);
    }
  }

  /**
   If a message is broadcast on a DM that was declined earlier in the run, then in between the recipient
   reversed the decline or opened the DM, and that call lifted it; nothing the initiator does suffices.
   */
  lemma DeclinedStaysSilent(s: State, calls: seq<Call>, i: nat, j: nat, ch: string) returns (k: nat)
    requires Inv(s) && LegalRun(s, calls) && i <= j < |calls| && calls[j].Send? && calls[j].channel == ch
    requires DeclinedAt(s, calls, i, ch)
    requires Step(Run(s, calls[..j]), calls[j]).1 == Sent(true)
    ensures i <= k < j && LiftedAt(s, calls, k, ch)
  {
    BroadcastIsNotDeclined(Run(s, calls[..j]), calls[j]);
    k := LiftedByRecipient(s, calls, i, j, ch);
  }
}
