/**
 What each call on direct messages needs and leads to, said of the DM's row; and who answered a request
 that is no longer pending.
 */
module DmLaws {
  import opened Common
  import opened DirectMessages

  /** Every DM but the named one is as it was, and none is gone. */
  ghost predicate OthersStay(s: State, r: State, ch: string) {
    && (forall x :: x in s.dms ==> x in r.dms)
    && (forall x :: x in r.dms && x != ch ==> x in s.dms && r.dms[x] == s.dms[x])
    && (forall p :: p in s.byPair ==> p in r.byPair && r.byPair[p] == s.byPair[p])
  }

  /** The DM is as it was but for its status. */
  ghost predicate Became(s: State, r: State, ch: string, status: Status) {
    && OthersStay(s, r, ch) && r.byPair == s.byPair && ch in s.dms && ch in r.dms
    && r.dms[ch] == Dm(s.dms[ch].people, status, s.dms[ch].initiator)
  }

  /** The user is one of the DM's people and did not start the request. */
  predicate Recipient(s: State, user: string, ch: string) {
    ch in s.dms && user in s.dms[ch].people && user != s.dms[ch].initiator
  }

  // ----- the answers to a request

  lemma AcceptLaw(s: State, user: string, ch: string, blocked: bool)
    ensures
      var (r, reply) := Step(s, Accept(user, ch, blocked));
      && (reply == Done <==> Recipient(s, user, ch) && s.dms[ch].status == Pending && !blocked)
      && (reply != Done ==> reply == Refused && r == s) && (reply == Done ==> Became(s, r, ch, Active))
  {
  }

  lemma DeclineLaw(s: State, user: string, ch: string)
    ensures
      var (r, reply) := Step(s, Decline(user, ch));
      && (reply == Done <==> Recipient(s, user, ch) && s.dms[ch].status == Pending)
      && (reply != Done ==> reply == Refused && r == s) && (reply == Done ==> Became(s, r, ch, Declined))
  {
  }

  lemma ReverseLaw(s: State, user: string, ch: string, blocked: bool)
    ensures
      var (r, reply) := Step(s, Reverse(user, ch, blocked));
      && (reply == Done <==> Recipient(s, user, ch) && s.dms[ch].status == Declined && !blocked)
      && (reply != Done ==> reply == Refused && r == s) && (reply == Done ==> Became(s, r, ch, Active))
  {
  }

  /** Becoming friends activates the pending DM of the two, and no other. */
  lemma AcceptFriendLaw(s: State, user: string, requester: string, storeOk: bool, ch: string)
    requires Inv(s) && ch in s.dms
    ensures
      var (r, reply) := Step(s, AcceptFriend(user, requester, storeOk));
      && (reply == Done <==> storeOk) && (reply != Done ==> reply == Refused && r == s)
      && ch in r.dms && r.dms[ch].people == s.dms[ch].people && r.dms[ch].initiator == s.dms[ch].initiator
      && r.dms[ch].status ==
           (if storeOk && s.dms[ch].people == {user, requester} && s.dms[ch].status == Pending then Active
            else s.dms[ch].status)
      && r.dms.Keys == s.dms.Keys && r.byPair == s.byPair
  {
  }

  /** Sending changes no DM; a declined one swallows the message. */
  lemma SendLaw(s: State, user: string, ch: string, blocked: bool, admitted: bool)
    ensures
      var (r, reply) := Step(s, Send(user, ch, blocked, admitted));
      var may := ch in s.dms && user in s.dms[ch].people && admitted
                 && (blocked ==> s.dms[ch].people == {user})
                 && (s.dms[ch].status == Pending ==> user == s.dms[ch].initiator);
      && r == s && (reply == Refused <==> !may)
      && (reply == Sent(true) <==> may && s.dms[ch].status != Declined)
      && (reply == Sent(false) <==> may && s.dms[ch].status == Declined)
  {
  }

  /** After an accepted request or a reversed decline, either of the two is heard. */
  lemma AnsweredIsHeard(s: State, c: Call, sender: string)
    requires (c.Accept? || c.Reverse?) && Step(s, c).1 == Done && sender in s.dms[c.channel].people
    ensures
      var r := Step(s, c).0;
      r.dms[c.channel].status == Active && Step(r, Send(sender, c.channel, false, true)).1 == Sent(true)
  {
  }

  /** After a decline the initiator's messages are taken and not broadcast. */
  lemma DeclinedIsSwallowed(s: State, user: string, ch: string)
    requires Step(s, Decline(user, ch)).1 == Done && s.dms[ch].initiator in s.dms[ch].people
    ensures Step(Step(s, Decline(user, ch)).0, Send(s.dms[ch].initiator, ch, false, true)).1 == Sent(false)
  {
  }

  // ----- who answered

  /** The call answers the request the way the DM now stands: the recipient, or a new friendship of the two. */
  predicate Answers(s: State, c: Call, ch: string, status: Status) {
    && ch in s.dms
    && match status
       case Declined => c.Decline? && c.channel == ch && Recipient(s, c.user, ch)
       case Active =>
         || (c.Accept? && c.channel == ch && Recipient(s, c.user, ch) && !c.blocked)
         || (c.AcceptFriend? && c.storeOk && s.dms[ch].people == {c.user, c.requester})
       case Pending => false
  }

  lemma StepAnswers(s: State, c: Call, ch: string)
    requires Inv(s) && Legal(s, c) && ch in s.dms && s.dms[ch].status == Pending
    ensures
      var r := Step(s, c).0;
      ch in r.dms && (r.dms[ch].status == Pending || Answers(s, c, ch, r.dms[ch].status))
  {
  }

  /** Call `k` found the request pending and answered it the way it now stands. */
  ghost predicate AnsweredAt(s: State, calls: seq<Call>, k: nat, ch: string)
    requires k < |calls|
  {
    && ch in Run(s, calls[..k]).dms && Run(s, calls[..k]).dms[ch].status == Pending
    && ch in Run(s, calls[..k + 1]).dms
    && Answers(Run(s, calls[..k]), calls[k], ch, Run(s, calls[..k + 1]).dms[ch].status)
  }

  /** In every run a request that is no longer pending was answered by its recipient, or by friendship. */
  lemma {:induction false} SomebodyAnswered(s: State, calls: seq<Call>, ch: string) returns (k: nat)
    requires Inv(s) && LegalRun(s, calls) && ch in s.dms && s.dms[ch].status == Pending
    requires ch in Run(s, calls).dms && Run(s, calls).dms[ch].status != Pending
    ensures k < |calls| && AnsweredAt(s, calls, k, ch)
  {
    var n := |calls| - 1;
    var p := calls[..n];
    LegalPrefix(s, calls, n);
    RunKeeps(s, p);
    RunMoves(s, p, ch);
    assert Legal(Run(s, p), calls[n]);
    if Run(s, p).dms[ch].status == Pending {
      StepAnswers(Run(s, p), calls[n], ch);
      assert calls[..n + 1] == calls;
      k := n;
    } else {
      k := SomebodyAnswered(s, p, ch);
      assert p[..k] == calls[..k] && p[..k + 1] == calls[..k + 1];
    }
  }

  // ----- opening

  /** There is a DM of the two already. */
  predicate Known(s: State, user: string, recipient: string) {
    {user, recipient} in s.byPair && s.byPair[{user, recipient}] in s.dms
  }

  /** Nobody opens towards somebody who blocks or is blocked; oneself always. */
  predicate MayAsk(c: Call)
    requires c.Open?
  {
    c.admitted && (c.user == c.recipient || !c.blocked)
  }

  /** An existing DM is returned; a declined one is reopened unless it is its initiator who asks for it again. */
  lemma OpenKnownLaw(s: State, c: Call)
    requires c.Open? && Known(s, c.user, c.recipient)
    ensures
      var (r, reply) := Step(s, c);
      var ch := s.byPair[{c.user, c.recipient}];
      && (!MayAsk(c) ==> reply == Refused && r == s)
      && (MayAsk(c) ==>
            && reply == Opened(ch)
            && (if s.dms[ch].status == Declined && (c.user == c.recipient || c.user != s.dms[ch].initiator)
                then Became(s, r, ch, Active)
                else r == s))
  {
  }

  /** Whether the recipient's privacy lets a first message through, as a request, or not at all. */
  predicate Closed(c: Call)
    requires c.Open?
  {
    && c.user != c.recipient
    && (c.privacy == Nobody || (c.privacy == MutualServers && !c.areFriends && !c.mutual))
  }

  predicate AsRequest(c: Call)
    requires c.Open?
  {
    && c.user != c.recipient && !c.areFriends
    && (c.privacy == Friends || (c.privacy == MessageRequests && !c.mutual))
  }

  /** A first opening makes a DM of the two: a request of the opener, or active. */
  lemma OpenNewLaw(s: State, c: Call)
    requires c.Open? && !Known(s, c.user, c.recipient) && c.newId !in s.dms
    ensures
      var (r, reply) := Step(s, c);
      && (reply == Refused <==> !MayAsk(c) || Closed(c)) && (reply == Refused ==> r == s)
      && (reply != Refused ==>
            && reply == Opened(c.newId) && r.dms.Keys == s.dms.Keys + {c.newId}
            && (forall x :: x in s.dms ==> r.dms[x] == s.dms[x])
            && r.dms[c.newId] ==
                 (if AsRequest(c) then Dm({c.user, c.recipient}, Pending, c.user)
                  else Dm({c.user, c.recipient}, Active, ""))
            && r.byPair == s.byPair[{c.user, c.recipient} := c.newId])
  {
  }

  /** From the first opening to an answer that is heard: the honest course of a message request. */
  lemma HonestRequest(s: State, c: Call)
    requires c.Open? && !Known(s, c.user, c.recipient) && c.newId !in s.dms && MayAsk(c) && AsRequest(c)
    ensures
      var s1 := Step(s, c).0;
      && Step(s1, Send(c.user, c.newId, false, true)).1 == Sent(true)
      && Step(s1, Send(c.recipient, c.newId, false, true)).1 == Refused
      && var (s2, accepted) := Step(s1, Accept(c.recipient, c.newId, false));
      accepted == Done && Step(s2, Send(c.recipient, c.newId, false, true)).1 == Sent(true)
  {
    OpenNewLaw(s, c);
    var s1 := Step(s, c).0;
    SendLaw(s1, c.user, c.newId, false, true);
    SendLaw(s1, c.recipient, c.newId, false, true);
    AcceptLaw(s1, c.recipient, c.newId, false);
    AnsweredIsHeard(s1, Accept(c.recipient, c.newId, false), c.recipient);
  }
}
