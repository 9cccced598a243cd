/**
 What each recovery call leads to, said of the live records before and after it, and the run in which
 everybody does their part: it recovers the account.
 */
module RecoveryLaws {
  import opened Common
  import opened RecoveryText
  import opened DeviceRecovery

  predicate LiveOtp(s: State, email: string, now: int) {
    email in s.otps && Alive(s.otps[email].expiry, now)
  }

  predicate LiveToken(s: State, h: Digest, now: int) {
    h in s.tokens && Alive(s.tokens[h].expiry, now)
  }

  predicate LiveSession(s: State, sid: string, now: int) {
    sid in s.sessions && Alive(s.sessions[sid].expiry, now)
  }

  /** Every live record but those named is as it was, and no other has come. */
  ghost predicate OthersStay(s: State, r: State, now: int, email: Option<string>, token: Option<Digest>,
      sid: Option<string>)
  {
    && (forall e :: Some(e) != email ==>
          (e in r.otps <==> LiveOtp(s, e, now)) && (e in r.otps ==> r.otps[e] == s.otps[e]))
    && (forall h :: Some(h) != token ==>
          (h in r.tokens <==> LiveToken(s, h, now)) && (h in r.tokens ==> r.tokens[h] == s.tokens[h]))
    && (forall i :: Some(i) != sid ==>
          (i in r.sessions <==> LiveSession(s, i, now)) && (i in r.sessions ==> r.sessions[i] == s.sessions[i]))
  }

  /** The attempts made on a live record. */
  function Tries(s: State, email: string, now: int): nat {
    if LiveOtp(s, email, now) then s.otps[email].attempts else 0
  }

  /** Expiry alone: what lives stays, and nothing else is left. */
  lemma ExpireLaw(s: State, now: int)
    ensures OthersStay(s, Expire(s, now), now, None, None, None)
    ensures Expire(s, now).trace == s.trace && Expire(s, now).sends == s.sends && Expire(s, now).epochs == s.epochs
  {
  }

  lemma SendReply(s: State, now: int, email: string, code: string, lookup: string, admitted: bool)
    ensures
      var (r, reply) := Step(s, now, SendCode(email, code, lookup, admitted));
      && (reply == OtpSent <==> email != "" && admitted)
      && (reply != OtpSent ==> OthersStay(s, r, now, None, None, None) && r.trace == s.trace)
      && (email == "" ==> reply == Failed(InvalidArgument))
      && (reply == Failed(ResourceExhausted) <==> email != "" && !admitted)
  {
  }

  /** A sent code starts the record's count and life anew; what was verified or consumed in it stays so. */
  lemma SendLaw(s: State, now: int, email: string, code: string, lookup: string)
    requires email != ""
    ensures
      var r := Step(s, now, SendCode(email, code, lookup, true)).0;
      && OthersStay(s, r, now, Some(email), None, None) && r.trace == s.trace + [CodeSent(email, s.sends, code)]
      && email in r.otps
      && var otp := r.otps[email];
      && otp.codeHash == Some(Sha256(code)) && otp.attempts == 0 && otp.user == lookup && otp.expiry == At(now + 300)
      && (if LiveOtp(s, email, now) then
            && otp.verified == s.otps[email].verified && otp.consumed == s.otps[email].consumed
            && otp.tokenHash == s.otps[email].tokenHash
          else !otp.verified && !otp.consumed && otp.tokenHash.None?)
  {
  }

  /** A code is good when it is the live record's, and fewer than five were tried. */
  lemma VerifyLaw(s: State, now: int, email: string, code: string, token: string)
    ensures
      var (r, reply) := Step(s, now, VerifyCode(email, code, token));
      var h := Sha256(token);
      && (reply == Verified(token) <==>
            && email != "" && |code| == 6 && LiveOtp(s, email, now) && s.otps[email].attempts < 5
            && s.otps[email].codeHash == Some(Sha256(code)))
      && (reply != Verified(token) ==> reply.Failed?)
      && (reply == Verified(token) ==>
            && OthersStay(s, r, now, Some(email), Some(h), None)
            && h in r.tokens && r.tokens[h] == TokenRef(email, At(now + 300))
            && email in r.otps
            && var otp := r.otps[email];
            && otp.verified && otp.tokenHash == Some(h) && otp.expiry == At(now + 300)
            && otp.attempts == s.otps[email].attempts + 1 && otp.codeHash == s.otps[email].codeHash
            && otp.user == s.otps[email].user && otp.consumed == s.otps[email].consumed)
  {
  }

  /** What a refusal of a code says. */
  lemma RefusedReply(s: State, now: int, email: string, code: string, token: string)
    ensures
      var reply := Step(s, now, VerifyCode(email, code, token)).1;
      var tries := Tries(s, email, now);
      && (reply == Failed(InvalidArgument) <==> email == "" || |code| != 6)
      && (reply == Failed(NotFound) <==>
            email != "" && |code| == 6 && tries < 5 && (LiveOtp(s, email, now) ==> s.otps[email].codeHash.None?))
      && (reply == Failed(PermissionDenied) <==>
            && email != "" && |code| == 6
            && (|| tries >= 5
                || (&& LiveOtp(s, email, now) && s.otps[email].codeHash.Some?
                    && s.otps[email].codeHash != Some(Sha256(code)))))
  {
  }

  /** Every well-formed attempt counts; the sixth costs the record. */
  lemma AttemptsLaw(s: State, now: int, email: string, code: string, token: string)
    requires email != "" && |code| == 6
    ensures
      var r := Step(s, now, VerifyCode(email, code, token)).0;
      var tries := Tries(s, email, now);
      (email in r.otps <==> tries < 5) && (email in r.otps ==> r.otps[email].attempts == tries + 1)
  {
  }

  /** A refused code changes no other record, no token and no session. */
  lemma RefusedLaw(s: State, now: int, email: string, code: string, token: string)
    ensures
      var (r, reply) := Step(s, now, VerifyCode(email, code, token));
      var t := Expire(s, now);
      reply.Failed? ==>
        && r.tokens == t.tokens && r.sessions == t.sessions && r.otps - {email} == t.otps - {email}
        && (reply == Failed(InvalidArgument) ==> r == t)
  {
  }

  /** The token is live and its record was verified with it and is not consumed. */
  predicate MayOpen(s: State, now: int, token: string) {
    var h := Sha256(token);
    && LiveToken(s, h, now) && LiveOtp(s, s.tokens[h].email, now)
    && var otp := s.otps[s.tokens[h].email];
    otp.verified && !otp.consumed && otp.tokenHash == Some(h)
  }

  predicate GoodKey(key: seq<Byte>) {
    |key| == 32 && HexEncode(key) !in LOW_ORDER_POINTS
  }

  lemma InitiateLaw(s: State, now: int, token: string, key: seq<Byte>, admitted: bool, sid: string)
    ensures
      var (r, reply) := Step(s, now, Initiate(token, key, admitted, sid));
      var h := Sha256(token);
      && (reply == Failed(InvalidArgument) <==> token == "" || !GoodKey(key))
      && (reply == SessionOpened(sid) <==>
            token != "" && GoodKey(key) && MayOpen(s, now, token) && s.otps[s.tokens[h].email].user != "" && admitted)
      && (reply == Failed(ResourceExhausted) <==>
            token != "" && GoodKey(key) && MayOpen(s, now, token) && s.otps[s.tokens[h].email].user != "" && !admitted)
      && reply in {Failed(InvalidArgument), SessionOpened(sid), Failed(ResourceExhausted), FakeSession}
  {
    if LiveToken(s, Sha256(token), now) && LiveOtp(s, s.tokens[Sha256(token)].email, now) {
      ConsumeReadsBack(s.otps[s.tokens[Sha256(token)].email].user);
    }
  }

  lemma ConsumeIs(s: State, now: int, token: string)
    requires LiveToken(s, Sha256(token), now)
    ensures
      var h := Sha256(token);
      var email := s.tokens[h].email;
      var t := Expire(s, now);
      var (r, user) := ConsumeStep(t, now, email, h);
      if MayOpen(s, now, token) then user == Some(s.otps[email].user) && r == Consume(t, email, h, now)
      else user == None && r == t
  {
    var email := s.tokens[Sha256(token)].email;
    if LiveOtp(s, email, now) {
      ConsumeReadsBack(s.otps[email].user);
    }
  }

  /** A good token is spent even where no session is opened; without one nothing changes. */
  lemma SpentLaw(s: State, now: int, token: string, key: seq<Byte>, admitted: bool, sid: string)
    requires token != "" && GoodKey(key)
    ensures
      var (r, reply) := Step(s, now, Initiate(token, key, admitted, sid));
      var t := Expire(s, now);
      if MayOpen(s, now, token) then
        var email := s.tokens[Sha256(token)].email;
        && r.tokens == t.tokens && r.otps == t.otps[email := s.otps[email].(consumed := true)]
        && (if reply == SessionOpened(sid) then r.sessions - {sid} == t.sessions - {sid} else r.sessions == t.sessions)
      else r == t
  {
    if LiveToken(s, Sha256(token), now) {
      ConsumeIs(s, now, token);
    }
  }

  /** An opened session is pending, for the record's user, with the key given. */
  lemma OpenedLaw(s: State, now: int, token: string, key: seq<Byte>, admitted: bool, sid: string)
    requires token != "" && GoodKey(key) && MayOpen(s, now, token)
    ensures
      var (r, reply) := Step(s, now, Initiate(token, key, admitted, sid));
      reply == SessionOpened(sid) ==>
        && sid in r.sessions
        && var x := r.sessions[sid];
        && x.user == s.otps[s.tokens[Sha256(token)].email].user && x.ephemeralPub == HexEncode(key)
        && x.phase == Pending && x.expiry == At(now + 300)
  {
    ConsumeIs(s, now, token);
  }

  // ----- sessions

  lemma PollLaw(s: State, now: int, sid: string, bundle: seq<Byte>)
    requires LiveSession(s, sid, now) && s.sessions[sid].phase == Approved ==>
      s.sessions[sid].bundleHex == HexEncode(bundle)
    ensures
      var (r, reply) := Step(s, now, Poll(sid));
      && (reply == Failed(InvalidArgument) <==> !ValidSessionId(sid))
      && (reply == Polled(PollExpired) <==> ValidSessionId(sid) && !LiveSession(s, sid, now))
      && (reply == Polled(PollPending) <==>
            ValidSessionId(sid) && LiveSession(s, sid, now) && s.sessions[sid].phase == Pending)
      && (reply == Polled(PollCompleted) <==>
            ValidSessionId(sid) && LiveSession(s, sid, now) && s.sessions[sid].phase in {Completed, Done})
      && (reply == Polled(PollApproved(bundle)) <==>
            ValidSessionId(sid) && LiveSession(s, sid, now) && s.sessions[sid].phase == Approved)
  {
    PollReadsBack(bundle);
  }

  /** Handing the bundle out completes the session and gives it ten minutes; another poll changes nothing. */
  lemma PolledLaw(s: State, now: int, sid: string, bundle: seq<Byte>)
    requires LiveSession(s, sid, now) && s.sessions[sid].phase == Approved ==>
      s.sessions[sid].bundleHex == HexEncode(bundle)
    ensures
      var r, t := Step(s, now, Poll(sid)).0, Expire(s, now);
      r == if ValidSessionId(sid) && LiveSession(s, sid, now) && s.sessions[sid].phase == Approved then
        t.(sessions := t.sessions[sid := s.sessions[sid].(phase := Completed, expiry := At(now + 600))],
           trace := s.trace + [BundleHandedOut(sid, bundle, now)])
      else t
  {
    PollReadsBack(bundle);
    if sid in Expire(s, now).sessions {
      assert Expire(s, now).sessions[sid := s.sessions[sid]] == Expire(s, now).sessions;
    }
  }

  lemma ApproveLaw(s: State, now: int, sid: string, bundle: seq<Byte>, caller: Option<string>, device: string)
    ensures
      var (r, reply) := Step(s, now, Approve(sid, bundle, caller, device));
      var asked := ValidSessionId(sid) && |bundle| == 124;
      && (reply == Failed(InvalidArgument) <==> !asked)
      && (reply == Failed(Unauthenticated) <==> asked && caller.None?)
      && (reply == Failed(NotFound) <==> asked && caller.Some? && !LiveSession(s, sid, now))
      && (reply == Failed(FailedPrecondition) <==>
            asked && caller.Some? && LiveSession(s, sid, now) && s.sessions[sid].phase != Pending)
      && (reply == ApprovalStored <==>
            && asked && LiveSession(s, sid, now) && s.sessions[sid].phase == Pending
            && caller == Some(s.sessions[sid].user))
      && (reply == Failed(PermissionDenied) <==>
            && asked && caller.Some? && LiveSession(s, sid, now) && s.sessions[sid].phase == Pending
            && caller != Some(s.sessions[sid].user))
  {
  }

  /** An approval stores the bundle and the approver, and does not prolong the session. */
  lemma ApprovedLaw(s: State, now: int, sid: string, bundle: seq<Byte>, caller: Option<string>, device: string)
    ensures
      var ((r, reply), t) := (Step(s, now, Approve(sid, bundle, caller, device)), Expire(s, now));
      if reply == ApprovalStored then
        && sid in s.sessions && caller.Some?
        && var x := s.sessions[sid].(phase := Approved, bundleHex := HexEncode(bundle), approver := device);
        r == t.(sessions := t.sessions[sid := x],
                trace := s.trace + [SessionApproved(sid, caller.value, device, bundle, now)])
      else r == t
  {
    if sid in Expire(s, now).sessions {
      assert Expire(s, now).sessions[sid := s.sessions[sid]] == Expire(s, now).sessions;
    }
  }

  /**
   A session whose bundle was handed out is completed by the first complete request, and the account is
   recovered exactly when the store does its part; a store failure leaves the session spent all the same.
   */
  lemma CompleteLaw(s: State, now: int, sid: string, inputsOk: bool, storeOk: bool)
    requires LiveSession(s, sid, now) ==> s.sessions[sid].user != "" && ':' !in s.sessions[sid].user
    ensures
      var (r, reply) := Step(s, now, Complete(sid, inputsOk, storeOk));
      var asked := ValidSessionId(sid) && inputsOk;
      var ready := asked && LiveSession(s, sid, now) && s.sessions[sid].phase == Completed;
      && (reply == Failed(InvalidArgument) <==> !asked)
      && (reply == Failed(NotFound) <==> asked && !LiveSession(s, sid, now))
      && (reply == Failed(FailedPrecondition) <==>
            asked && LiveSession(s, sid, now) && s.sessions[sid].phase != Completed)
      && (reply == Failed(Internal) <==> ready && !storeOk)
      && (reply.Recovered? <==> ready && storeOk) && (reply.Recovered? ==> reply.user == s.sessions[sid].user)
  {
    if LiveSession(s, sid, now) {
      CompleteReadsBack(s.sessions[sid].user, s.sessions[sid].approver);
      NotReadyReadsBack(PhaseName(s.sessions[sid].phase));
    }
  }

  lemma CompletedLaw(s: State, now: int, sid: string, inputsOk: bool, storeOk: bool)
    requires LiveSession(s, sid, now) ==> s.sessions[sid].user != "" && ':' !in s.sessions[sid].user
    ensures
      var r, t := Step(s, now, Complete(sid, inputsOk, storeOk)).0, Expire(s, now);
      r == if ValidSessionId(sid) && inputsOk && LiveSession(s, sid, now) && s.sessions[sid].phase == Completed then
        var x := s.sessions[sid];
        t.(sessions := t.sessions[sid := x.(phase := Done)],
           trace := s.trace + if storeOk then [AccountRecovered(sid, x.user, x.approver, now)] else [])
      else t
  {
    if sid in Expire(s, now).sessions {
      CompleteReadsBack(s.sessions[sid].user, s.sessions[sid].approver);
      NotReadyReadsBack(PhaseName(s.sessions[sid].phase));
      assert Expire(s, now).sessions[sid := s.sessions[sid]] == Expire(s, now).sessions;
    }
  }

  lemma CleanupLaw(s: State, now: int, sid: string)
    ensures
      var (r, reply) := Step(s, now, Cleanup(sid));
      var t := Expire(s, now);
      r == t.(sessions := t.sessions - {sid}) && reply == Cleaned
  {
  }

  /** A session id is sixty-four hex digits, of either letter case. */
  lemma SessionIdIs(id: string)
    ensures ValidSessionId(id) <==> |id| == 64 && forall k :: 0 <= k < |id| ==> IsHex(id[k])
  {
    DecodesIff(id);
  }

  predicate IsHex(c: char) {
    '0' <= c <= '9' || 'a' <= c <= 'f' || 'A' <= c <= 'F'
  }

  lemma {:induction false} DecodesIff(text: string)
    ensures HexDecode(text).Some? <==> |text| % 2 == 0 && forall k :: 0 <= k < |text| ==> IsHex(text[k])
  {
    if |text| >= 2 {
      DecodesIff(text[2..]);
      assert text == text[..2] + text[2..];
      assert forall k :: 2 <= k < |text| ==> text[k] == text[2..][k - 2];
    }
  }

  // ----- the honest run

  lemma SentThenVerified(s: State, t0: int, t1: int, email: string, code: string, user: string, token: string)
    returns (r: State)
    requires email != "" && |code| == 6 && t0 <= t1 < t0 + 300
    requires LiveOtp(s, email, t0) ==> !s.otps[email].consumed
    ensures
      var (s1, sent) := Step(s, t0, SendCode(email, code, user, true));
      sent == OtpSent && Step(s1, t1, VerifyCode(email, code, token)) == (r, Verified(token))
    ensures Sha256(token) in r.tokens && r.tokens[Sha256(token)] == TokenRef(email, At(t1 + 300))
    ensures email in r.otps && r.otps[email].verified && !r.otps[email].consumed && r.otps[email].user == user
    ensures r.otps[email].tokenHash == Some(Sha256(token)) && r.otps[email].expiry == At(t1 + 300)
  {
    SendReply(s, t0, email, code, user, true);
    SendLaw(s, t0, email, code, user);
    var s1 := Step(s, t0, SendCode(email, code, user, true)).0;
    VerifyLaw(s1, t1, email, code, token);
    r := Step(s1, t1, VerifyCode(email, code, token)).0;
  }

  lemma VerifiedThenOpened(s: State, now: int, user: string, token: string, key: seq<Byte>, sid: string)
    returns (r: State)
    requires token != "" && GoodKey(key) && user != "" && MayOpen(s, now, token)
    requires s.otps[s.tokens[Sha256(token)].email].user == user
    ensures Step(s, now, Initiate(token, key, true, sid)) == (r, SessionOpened(sid))
    ensures sid in r.sessions && r.sessions[sid].user == user && r.sessions[sid].phase == Pending
    ensures r.sessions[sid].expiry == At(now + 300)
  {
    InitiateLaw(s, now, token, key, true, sid);
    OpenedLaw(s, now, token, key, true, sid);
    r := Step(s, now, Initiate(token, key, true, sid)).0;
  }

  lemma OpenedThenPolled(s: State, t2: int, t3: int, t4: int, user: string, sid: string, bundle: seq<Byte>,
      device: string)
    returns (r: State)
    requires t2 <= t3 <= t4 < t2 + 300 && ValidSessionId(sid) && |bundle| == 124
    requires sid in s.sessions && s.sessions[sid].user == user && s.sessions[sid].phase == Pending
    requires s.sessions[sid].expiry == At(t2 + 300)
    ensures
      var (s1, stored) := Step(s, t3, Approve(sid, bundle, Some(user), device));
      stored == ApprovalStored && Step(s1, t4, Poll(sid)) == (r, Polled(PollApproved(bundle)))
    ensures sid in r.sessions && r.sessions[sid].user == user && r.sessions[sid].phase == Completed
    ensures r.sessions[sid].expiry == At(t4 + 600) && r.sessions[sid].approver == device
  {
    ApproveLaw(s, t3, sid, bundle, Some(user), device);
    ApprovedLaw(s, t3, sid, bundle, Some(user), device);
    var s1 := Step(s, t3, Approve(sid, bundle, Some(user), device)).0;
    PollLaw(s1, t4, sid, bundle);
    PolledLaw(s1, t4, sid, bundle);
    r := Step(s1, t4, Poll(sid)).0;
  }

  /**
   Whatever else the server holds: when the code is mailed to an address whose record is not spent, comes back,
   and the session is approved, polled and completed in time, every call succeeds, the poll gives out the
   bundle that was approved, and the account is recovered for the user the code was sent to.
   */
  lemma HonestRun(s: State, t0: int, t1: int, t2: int, t3: int, t4: int, t5: int, email: string, code: string,
      user: string, token: string, key: seq<Byte>, sid: string, bundle: seq<Byte>, device: string)
    requires t0 <= t1 < t0 + 300 && t1 <= t2 < t1 + 300 && t2 <= t3 <= t4 < t2 + 300 && t4 <= t5 < t4 + 600
    requires LiveOtp(s, email, t0) ==> !s.otps[email].consumed
    requires email != "" && |code| == 6 && user != "" && ':' !in user && token != "" && GoodKey(key)
    requires ValidSessionId(sid) && |bundle| == 124
    ensures
      var (s1, r1) := Step(s, t0, SendCode(email, code, user, true));
      var (s2, r2) := Step(s1, t1, VerifyCode(email, code, token));
      var (s3, r3) := Step(s2, t2, Initiate(token, key, true, sid));
      var (s4, r4) := Step(s3, t3, Approve(sid, bundle, Some(user), device));
      var (s5, r5) := Step(s4, t4, Poll(sid));
      var r6 := Step(s5, t5, Complete(sid, true, true)).1;
      && r1 == OtpSent && r2 == Verified(token) && r3 == SessionOpened(sid) && r4 == ApprovalStored
      && r5 == Polled(PollApproved(bundle)) && r6 == Recovered(user)
  {
    var s2 := SentThenVerified(s, t0, t1, email, code, user, token);
    var s3 := VerifiedThenOpened(s2, t2, user, token, key, sid);
    var s5 := OpenedThenPolled(s3, t2, t3, t4, user, sid, bundle, device);
    CompleteLaw(s5, t5, sid, true, true);
  }
}
