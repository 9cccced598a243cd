/**
 Device recovery (server/cmd/auth/service_device_recovery.go): a one-time code mailed to the user is
 exchanged for a recovery session, an already signed-in device approves the session by storing a
 wrapped key bundle, one poll hands the bundle out, and a completion resets the credentials.

 Every handler is a function of the Redis contents.  `trace` records what happened, in order; it is
 what the theorems speak about.  Rate limits, the cooldown and the one-session index only refuse
 calls, so each is the boolean `admitted` of the call: the theorems hold whatever they answer.
 */
module DeviceRecovery {
  import opened Common
  import opened RecoveryText

  // seconds
  const OTP_TTL := 300
  const SESSION_TTL := 300
  const POLLED_TTL := 600

  const MAX_ATTEMPTS := 5
  const CODE_SIZE := 6
  const KEY_SIZE := 32
  const BUNDLE_SIZE := 124

  /** The X25519 low-order points, as hex text. */
  const LOW_ORDER_POINTS: set<string> := {
    "0000000000000000000000000000000000000000000000000000000000000000",
    "0100000000000000000000000000000000000000000000000000000000000000",
    "ecffffffffffffffffffffffffffffffffffffffffffffffffffffffffffff7f",
    "e0eb7a7c3b41b8ae1656e3faf19fc46ada098deb9c32b1fd866205165f49b800",
    "5f9c95bca3508c24b1d0b1559c83ef5b04445cc4581c8e86d8224eddd09f1157"
  }

  datatype Expiry = Never | At(time: int)

  predicate Alive(expiry: Expiry, now: int) {
    expiry.Never? || now < expiry.time
  }

  /**
   One `recovery:otp:<email>` hash.  `epoch` names this incarnation of the key and `sendNo` the send
   that wrote the code; both are labels for the theorems and decide nothing.
   */
  datatype Otp = Otp(
    codeHash: Option<Digest>,
    attempts: nat,
    user: string,
    tokenHash: Option<Digest>,
    verified: bool,
    consumed: bool,
    expiry: Expiry,
    epoch: nat,
    sendNo: nat)

  datatype TokenRef = TokenRef(email: string, expiry: Expiry)

  datatype Phase = Pending | Approved | Completed | Done

  datatype Session = Session(
    user: string,
    ephemeralPub: string,
    phase: Phase,
    bundleHex: string,
    approver: string,
    expiry: Expiry)

  datatype Event =
    | CodeSent(email: string, sendNo: nat, code: string)
    | CodeCompared(email: string, sendNo: nat, code: string)
    | TokenIssued(token: Digest, email: string, sendNo: nat, code: string, at: int)
    | OtpConsumed(email: string, epoch: nat, token: Digest, user: string, at: int)
    | SessionCreated(sid: string, user: string, token: Digest, at: int)
    | SessionApproved(sid: string, user: string, device: string, bundle: seq<Byte>, at: int)
    | BundleHandedOut(sid: string, bundle: seq<Byte>, at: int)
    | AccountRecovered(sid: string, user: string, approver: string, at: int)

  datatype State = State(
    otps: map<string, Otp>,
    tokens: map<Digest, TokenRef>,
    sessions: map<string, Session>,
    sends: nat,
    epochs: nat,
    trace: seq<Event>)

  datatype Error =
    InvalidArgument | NotFound | PermissionDenied | ResourceExhausted | FailedPrecondition | Unauthenticated | Internal

  datatype Reply =
    | OtpSent
    | Verified(token: string)
    | SessionOpened(sid: string)
    | FakeSession  // a deterministic id that names no stored session
    | Polled(status: PollStatus)
    | ApprovalStored
    | Recovered(user: string)
    | Cleaned
    | Failed(error: Error)

  /** A call.  `lookup` is the user id found for the email ("" if none); ids and tokens are drawn by the server. */
  datatype Call =
    | SendCode(email: string, code: string, lookup: string, admitted: bool)
    | VerifyCode(email: string, code: string, token: string)
    | Initiate(token: string, key: seq<Byte>, admitted: bool, sid: string)
    | Poll(sid: string)
    | Approve(sid: string, bundle: seq<Byte>, caller: Option<string>, device: string)
    | Complete(sid: string, inputsOk: bool, storeOk: bool)
    | Cleanup(sid: string)

  function Init(): State {
    State(map[], map[], map[], 0, 0, [])
  }

  /** Redis drops what has expired before any command sees it. */
  function Expire(s: State, now: int): State {
    s.(otps := map e | e in s.otps && Alive(s.otps[e].expiry, now) :: s.otps[e],
       tokens := map h | h in s.tokens && Alive(s.tokens[h].expiry, now) :: s.tokens[h],
       sessions := map i | i in s.sessions && Alive(s.sessions[i].expiry, now) :: s.sessions[i])
  }

  /** The record a hash command finds, or the empty hash it would create (which has no expiry). */
  function OtpAt(s: State, email: string): Otp {
    if email in s.otps then s.otps[email] else Otp(None, 0, "", None, false, false, Never, s.epochs, 0)
  }

  function PutOtp(s: State, email: string, otp: Otp): State {
    s.(otps := s.otps[email := otp], epochs := if email in s.otps then s.epochs else s.epochs + 1)
  }

  function Log(s: State, e: Event): State {
    s.(trace := s.trace + [e])
  }

  /** A new code and a new count; whatever else the record holds stays. */
  function StoreCode(s: State, now: int, email: string, code: string, user: string): State {
    var otp := OtpAt(s, email).(codeHash := Some(Sha256(code)), attempts := 0, user := user,
                                expiry := At(now + OTP_TTL), sendNo := s.sends);
    Log(PutOtp(s, email, otp).(sends := s.sends + 1), CodeSent(email, s.sends, code))
  }

  function SendStep(s: State, now: int, c: Call): (State, Reply)
    requires c.SendCode?
  {
    if c.email == "" then (s, Failed(InvalidArgument))
    else if !c.admitted then (s, Failed(ResourceExhausted))
    else
      (StoreCode(s, now, c.email, c.code, c.lookup), OtpSent)
  }

  /** The attempt is counted before anything else is looked at. */
  function CountAttempt(s: State, email: string): State {
    PutOtp(s, email, OtpAt(s, email).(attempts := OtpAt(s, email).attempts + 1))
  }

  /** A token is stored hashed, in the record and in the reverse index. */
  function IssueToken(s: State, now: int, email: string, hash: Digest, code: string): State {
    var otp := OtpAt(s, email).(tokenHash := Some(hash), verified := true, expiry := At(now + OTP_TTL));
    Log(PutOtp(s, email, otp).(tokens := s.tokens[hash := TokenRef(email, At(now + OTP_TTL))]),
        TokenIssued(hash, email, otp.sendNo, code, now))
  }

  /** After the attempt is counted: the limit, the record, the code. */
  function CheckStep(s: State, now: int, c: Call): (State, Reply)
    requires c.VerifyCode? && c.email in s.otps
  {
    var otp := s.otps[c.email];
    if otp.attempts > MAX_ATTEMPTS then
      (s.(otps := s.otps - {c.email}), Failed(PermissionDenied))
    else if otp.codeHash.None? then
      (s, Failed(NotFound))
    else
      var s1 := Log(s, CodeCompared(c.email, otp.sendNo, c.code));
      if otp.codeHash.value != Sha256(c.code) then
        (s1, Failed(PermissionDenied))
      else
        (IssueToken(s1, now, c.email, Sha256(c.token), c.code), Verified(c.token))
  }

  function VerifyStep(s: State, now: int, c: Call): (State, Reply)
    requires c.VerifyCode?
  {
    if c.email == "" || |c.code| != CODE_SIZE then (s, Failed(InvalidArgument))
    else CheckStep(CountAttempt(s, c.email), now, c)
  }

  /** otpConsumeScript: the new record and the script's reply text. */
  function ConsumeScript(otp: Option<Otp>, hash: Digest): (Option<Otp>, string) {
    if otp.None? || !otp.value.verified then (otp, "not_verified")
    else if otp.value.consumed then (otp, "already_consumed")
    else if otp.value.tokenHash != Some(hash) then (otp, "invalid_token")
    else (Some(otp.value.(consumed := true)), "ok:" + otp.value.user)
  }

  /** What the handler makes of the script: the state after it, and the user id read from an `ok:` reply. */
  function ConsumeStep(s: State, now: int, email: string, hash: Digest): (State, Option<string>) {
    var (after, reply) := ConsumeScript(if email in s.otps then Some(s.otps[email]) else None, hash);
    match ReadConsume(reply)
    case None => (s, None)
    case Some(user) =>
      var otp := if after.Some? then after.value else OtpAt(s, email);
      (Log(s.(otps := s.otps[email := otp]), OtpConsumed(email, otp.epoch, hash, user, now)), Some(user))
  }

  function InitiateStep(s: State, now: int, c: Call): (State, Reply)
    requires c.Initiate?
  {
    if c.token == "" || |c.key| != KEY_SIZE then (s, Failed(InvalidArgument))
    else if HexEncode(c.key) in LOW_ORDER_POINTS then (s, Failed(InvalidArgument))
    else
      var hash := Sha256(c.token);
      if hash !in s.tokens then (s, FakeSession)
      else
        var (s1, user) := ConsumeStep(s, now, s.tokens[hash].email, hash);
        if user.None? || user.value == "" then (s1, FakeSession)
        else if !c.admitted then (s1, Failed(ResourceExhausted))
        else (Create(s1, c.sid, NewSession(user.value, c.key, now), hash, now), SessionOpened(c.sid))
  }

  /** pollTransitionScript: the new session and the reply text. */
  function PollScript(session: Session, now: int): (Session, string) {
    match session.phase
    case Pending => (session, "pending")
    case Approved => (session.(phase := Completed, expiry := At(now + POLLED_TTL)), "approved:" + session.bundleHex)
    case _ => (session, "completed")
  }

  function PollStep(s: State, now: int, c: Call): (State, Reply)
    requires c.Poll?
  {
    if !ValidSessionId(c.sid) then (s, Failed(InvalidArgument))
    else if c.sid !in s.sessions then (s, Polled(ReadPoll("expired")))
    else
      var (session, reply) := PollScript(s.sessions[c.sid], now);
      var status := ReadPoll(reply);
      var s1 := s.(sessions := s.sessions[c.sid := session]);
      match status
      case PollApproved(bundle) => (Log(s1, BundleHandedOut(c.sid, bundle, now)), Polled(status))
      case PollBroken => (s1, Failed(Internal))
      case _ => (s1, Polled(status))
  }

  /** approveTransitionScript: the new session and the reply text. */
  function ApproveScript(session: Option<Session>, bundleHex: string, device: string,
      caller: string): (Option<Session>, string) {
    if session.None? then (session, "expired")
    else if session.value.phase != Pending then (session, "already_approved")
    else if session.value.user != caller then (session, "wrong_user")
    else (Some(session.value.(phase := Approved, bundleHex := bundleHex, approver := device)), "ok")
  }

  function ReadApprove(reply: string): Reply {
    if reply == "ok" then ApprovalStored
    else if reply == "expired" then Failed(NotFound)
    else if reply == "already_approved" then Failed(FailedPrecondition)
    else if reply == "wrong_user" then Failed(PermissionDenied)
    else Failed(Internal)
  }

  function ApproveStep(s: State, now: int, c: Call): (State, Reply)
    requires c.Approve?
  {
    if !ValidSessionId(c.sid) || |c.bundle| != BUNDLE_SIZE then (s, Failed(InvalidArgument))
    else if c.caller.None? then (s, Failed(Unauthenticated))
    else
      var found := if c.sid in s.sessions then Some(s.sessions[c.sid]) else None;
      var (after, reply) := ApproveScript(found, HexEncode(c.bundle), c.device, c.caller.value);
      var s1 := if after.Some? then s.(sessions := s.sessions[c.sid := after.value]) else s;
      if reply == "ok" then
        (Log(s1, SessionApproved(c.sid, c.caller.value, c.device, c.bundle, now)), ReadApprove(reply))
      else (s1, ReadApprove(reply))
  }

  function PhaseName(phase: Phase): string {
    match phase
    case Pending => "pending"
    case Approved => "approved"
    case Completed => "completed"
    case Done => "done"
  }

  /** completeTransitionScript: the new session and the reply text. */
  function CompleteScript(session: Session): (Session, string) {
    match session.phase
    case Done => (session, "already_done")
    case Completed => (session.(phase := Done), "ok:" + session.user + ":" + session.approver)
    case _ => (session, "not_ready:" + PhaseName(session.phase))
  }

  /** The credential reset acts on the user and approver read back from the script's reply. */
  function CompleteStep(s: State, now: int, c: Call): (State, Reply)
    requires c.Complete?
  {
    if !ValidSessionId(c.sid) || !c.inputsOk then (s, Failed(InvalidArgument))
    else if c.sid !in s.sessions then (s, Failed(NotFound))
    else
      var (session, reply) := CompleteScript(s.sessions[c.sid]);
      var s1 := s.(sessions := s.sessions[c.sid := session]);
      match ReadComplete(reply)
      case Gone => (s1, Failed(NotFound))
      case AlreadyDone => (s1, Failed(FailedPrecondition))
      case NotReady => (s1, Failed(FailedPrecondition))
      case Unknown => (s1, Failed(Internal))
      case Accepted(user, approver) =>
        if !c.storeOk then (s1, Failed(Internal))
        else (Log(s1, AccountRecovered(c.sid, user, approver, now)), Recovered(user))
  }

  function Step(s0: State, now: int, c: Call): (State, Reply) {
    var s := Expire(s0, now);
    match c
    case SendCode(_, _, _, _) => SendStep(s, now, c)
    case VerifyCode(_, _, _) => VerifyStep(s, now, c)
    case Initiate(_, _, _, _) => InitiateStep(s, now, c)
    case Poll(_) => PollStep(s, now, c)
    case Approve(_, _, _, _) => ApproveStep(s, now, c)
    case Complete(_, _, _) => CompleteStep(s, now, c)
    case Cleanup(sid) => (s.(sessions := s.sessions - {sid}), Cleaned)
  }

  // ----- runs

  datatype Timed = Timed(now: int, call: Call)

  /** Random draws are fresh, and user ids have no colon; nothing else restricts the caller. */
  ghost predicate Fresh(t: seq<Event>, c: Call) {
    match c
    case SendCode(_, _, lookup, _) => ':' !in lookup
    case VerifyCode(_, _, token) => KIssued(Sha256(token)) !in Keys(t)
    case Initiate(_, _, _, sid) => KCreated(sid) !in Keys(t)
    case _ => true
  }

  ghost function Run(calls: seq<Timed>): State {
    if calls == [] then Init()
    else
      var last := calls[|calls| - 1];
      Step(Run(calls[..|calls| - 1]), last.now, last.call).0
  }

  ghost predicate Legal(calls: seq<Timed>) {
    calls == [] ||
    (Legal(calls[..|calls| - 1]) && Fresh(Run(calls[..|calls| - 1]).trace, calls[|calls| - 1].call))
  }

  // ----- what the trace must look like

  /** What may happen only once: each is named by its key. */
  datatype Key =
    | KCreated(sid: string) | KApproved(sid: string) | KHandedOut(sid: string) | KRecovered(sid: string)
    | KEpoch(epoch: nat) | KToken(token: Digest) | KSent(sendNo: nat) | KIssued(token: Digest)

  ghost function KeysOf(e: Event): set<Key> {
    match e
    case CodeSent(_, sendNo, _) => {KSent(sendNo)}
    case TokenIssued(token, _, _, _, _) => {KIssued(token)}
    case OtpConsumed(_, epoch, token, _, _) => {KEpoch(epoch), KToken(token)}
    case SessionCreated(sid, _, _, _) => {KCreated(sid)}
    case SessionApproved(sid, _, _, _, _) => {KApproved(sid)}
    case BundleHandedOut(sid, _, _) => {KHandedOut(sid)}
    case AccountRecovered(sid, _, _, _) => {KRecovered(sid)}
    case _ => {}
  }

  ghost function Keys(t: seq<Event>): set<Key> {
    if t == [] then {} else Keys(t[..|t| - 1]) + KeysOf(t[|t| - 1])
  }

  ghost predicate Compares(e: Event, email: string, sendNo: nat) {
    e.CodeCompared? && e.email == email && e.sendNo == sendNo
  }

  /** How often a code was compared against one send. */
  ghost function Compared(t: seq<Event>, email: string, sendNo: nat): nat {
    if t == [] then 0
    else Compared(t[..|t| - 1], email, sendNo) + if Compares(t[|t| - 1], email, sendNo) then 1 else 0
  }

  /** `e` may follow the history `p`. */
  ghost predicate Justified(e: Event, p: seq<Event>) {
    && KeysOf(e) !! Keys(p)
    && match e
       case TokenIssued(_, email, sendNo, code, _) =>
         |p| > 0 && p[|p| - 1] == CodeCompared(email, sendNo, code) && CodeSent(email, sendNo, code) in p
       case OtpConsumed(email, _, token, _, at) =>
         exists sendNo, code, t0 :: TokenIssued(token, email, sendNo, code, t0) in p && at < t0 + OTP_TTL
       case SessionCreated(_, user, token, at) =>
         |p| > 0 && exists email, epoch :: p[|p| - 1] == OtpConsumed(email, epoch, token, user, at)
       case SessionApproved(sid, user, _, _, at) =>
         exists token, t0 :: SessionCreated(sid, user, token, t0) in p && at < t0 + SESSION_TTL
       case BundleHandedOut(sid, bundle, at) =>
         exists user, token, t0, device, t1 ::
           SessionCreated(sid, user, token, t0) in p && SessionApproved(sid, user, device, bundle, t1) in p
             && at < t0 + SESSION_TTL
       case AccountRecovered(sid, user, approver, at) =>
         exists bundle, t1, t2 ::
           SessionApproved(sid, user, approver, bundle, t1) in p && BundleHandedOut(sid, bundle, t2) in p
             && at < t2 + POLLED_TTL
       case _ => true
  }

  ghost predicate WellOrdered(t: seq<Event>) {
    t == [] || (WellOrdered(t[..|t| - 1]) && Justified(t[|t| - 1], t[..|t| - 1]))
  }

  // ----- what the state says about the trace

  ghost predicate SessionFits(t: seq<Event>, sid: string, x: Session) {
    && x.user != "" && ':' !in x.user
    && (KRecovered(sid) in Keys(t) ==> x.phase == Done)
    && KCreated(sid) in Keys(t)
    && match x.phase
       case Pending =>
         && KApproved(sid) !in Keys(t) && KHandedOut(sid) !in Keys(t)
         && exists token, t0 :: SessionCreated(sid, x.user, token, t0) in t && x.expiry == At(t0 + SESSION_TTL)
       case Approved =>
         && KHandedOut(sid) !in Keys(t)
         && exists token, t0, bundle, t1 ::
              && SessionCreated(sid, x.user, token, t0) in t && x.expiry == At(t0 + SESSION_TTL)
              && SessionApproved(sid, x.user, x.approver, bundle, t1) in t && x.bundleHex == HexEncode(bundle)
       case Completed =>
         exists bundle, t1, t2 ::
           && SessionApproved(sid, x.user, x.approver, bundle, t1) in t
           && BundleHandedOut(sid, bundle, t2) in t && x.expiry == At(t2 + POLLED_TTL)
       case Done => true
  }

  ghost predicate SessionInv(s: State) {
    forall sid :: sid in s.sessions ==> SessionFits(s.trace, sid, s.sessions[sid])
  }

  ghost predicate OtpInv(s: State) {
    && (forall e :: e in s.otps ==> ':' !in s.otps[e].user && s.otps[e].epoch < s.epochs)
    && (forall e, f :: e in s.otps && f in s.otps && e != f ==> s.otps[e].epoch != s.otps[f].epoch)
    && (forall e :: e in s.otps && !s.otps[e].consumed ==> KEpoch(s.otps[e].epoch) !in Keys(s.trace))
    && (forall n: nat :: KEpoch(n) in Keys(s.trace) ==> n < s.epochs)
  }

  ghost predicate TokenInv(s: State) {
    && (forall h :: KToken(h) in Keys(s.trace) ==> KIssued(h) in Keys(s.trace))
    && (forall e :: e in s.otps && s.otps[e].tokenHash.Some? ==> KIssued(s.otps[e].tokenHash.value) in Keys(s.trace))
    && (forall e, f :: e in s.otps && f in s.otps && e != f && s.otps[e].tokenHash.Some? ==>
          s.otps[e].tokenHash != s.otps[f].tokenHash)
    && (forall e :: e in s.otps && s.otps[e].tokenHash.Some? && !s.otps[e].consumed ==>
          KToken(s.otps[e].tokenHash.value) !in Keys(s.trace))
  }

  /** A stored code is the one its send mailed out. */
  ghost predicate CodeInv(t: seq<Event>, otps: map<string, Otp>, sends: nat) {
    && (forall n: nat :: KSent(n) in Keys(t) ==> n < sends)
    && (forall e :: e in otps && otps[e].codeHash.Some? ==>
      CodeSent(e, otps[e].sendNo, otps[e].codeHash.value.input) in t)
  }

  /** A token in the reverse index was issued for the email it names. */
  ghost predicate RefFits(t: seq<Event>, h: Digest, ref: TokenRef) {
    exists sendNo, code, t0 :: TokenIssued(h, ref.email, sendNo, code, t0) in t && ref.expiry == At(t0 + OTP_TTL)
  }

  ghost predicate RefInv(t: seq<Event>, tokens: map<Digest, TokenRef>) {
    forall h :: h in tokens ==> RefFits(t, h, tokens[h])
  }

  ghost predicate CompareInv(s: State) {
    && (forall e, n: nat :: Compared(s.trace, e, n) <= MAX_ATTEMPTS)
    && (forall e, n: nat :: n >= s.sends ==> Compared(s.trace, e, n) == 0)
    && (forall e :: e in s.otps && s.otps[e].codeHash.Some? ==>
          s.otps[e].sendNo < s.sends && Compared(s.trace, e, s.otps[e].sendNo) <= s.otps[e].attempts)
  }

  ghost predicate Inv(s: State) {
    && WellOrdered(s.trace) && SessionInv(s) && OtpInv(s) && TokenInv(s)
    && CodeInv(s.trace, s.otps, s.sends) && RefInv(s.trace, s.tokens)
  }

  lemma Append(t: seq<Event>, e: Event)
    ensures (t + [e])[..|t|] == t && (t + [e])[|t|] == e
    ensures Keys(t + [e]) == Keys(t) + KeysOf(e)
    ensures WellOrdered(t) && Justified(e, t) ==> WellOrdered(t + [e])
    ensures forall email, n: nat ::
      Compared(t + [e], email, n) == Compared(t, email, n) + if Compares(e, email, n) then 1 else 0
    ensures forall x :: x in t + [e] <==> x in t || x == e
  {
    assert (t + [e])[..|t|] == t;
  }

  lemma OrderedAppend(t: seq<Event>, e: Event)
    requires WellOrdered(t) && Justified(e, t)
    ensures WellOrdered(t + [e])
  {
    assert (t + [e])[..|t|] == t;
  }

  lemma ExpireKeeps(s: State, now: int)
    requires Inv(s)
    ensures Inv(Expire(s, now))
  {
  }

  /** What was sent and issued stays on record. */
  lemma RecordsLast(t: seq<Event>, e: Event, otps: map<string, Otp>, sends: nat, tokens: map<Digest, TokenRef>)
    requires CodeInv(t, otps, sends) && RefInv(t, tokens) && !e.CodeSent?
    ensures CodeInv(t + [e], otps, sends) && RefInv(t + [e], tokens)
  {
    Append(t, e);
    forall h | h in tokens ensures RefFits(t + [e], h, tokens[h]) {
      var sendNo, code, t0 :|
        TokenIssued(h, tokens[h].email, sendNo, code, t0) in t && tokens[h].expiry == At(t0 + OTP_TTL);
      assert TokenIssued(h, tokens[h].email, sendNo, code, t0) in t + [e];
    }
  }

  // ----- one-time codes

  /** Writing a record that keeps its incarnation, its token and its consumed flag. */
  lemma PutKeepsOtps(s: State, email: string, otp: Otp)
    requires OtpInv(s)
    requires otp.epoch == OtpAt(s, email).epoch && otp.consumed == OtpAt(s, email).consumed && ':' !in otp.user
    ensures OtpInv(PutOtp(s, email, otp))
  {
  }

  lemma PutKeepsTokens(s: State, email: string, otp: Otp)
    requires TokenInv(s)
    requires otp.tokenHash == OtpAt(s, email).tokenHash && otp.consumed == OtpAt(s, email).consumed
    ensures TokenInv(PutOtp(s, email, otp))
  {
    assert email !in s.otps ==> otp.tokenHash.None?;
  }

  lemma SendKeeps(s: State, now: int, c: Call)
    requires Inv(s) && c.SendCode? && Fresh(s.trace, c)
    ensures Inv(SendStep(s, now, c).0)
  {
    var otp := OtpAt(s, c.email).(codeHash := Some(Sha256(c.code)), attempts := 0, user := c.lookup,
                                  expiry := At(now + OTP_TTL), sendNo := s.sends);
    PutKeepsOtps(s, c.email, otp);
    PutKeepsTokens(s, c.email, otp);
    var e, s1 := CodeSent(c.email, s.sends, c.code), PutOtp(s, c.email, otp);
    if c.email != "" && c.admitted {
      HarmlessEvent(s1, e);
      QuietEvent(s1, e);
      SentKeeps(s, c.email, otp, c.code);
    }
  }

  /** The send that is written down is the one the record names. */
  lemma SentKeeps(s: State, email: string, otp: Otp, code: string)
    requires CodeInv(s.trace, s.otps, s.sends) && RefInv(s.trace, s.tokens)
    requires otp.codeHash == Some(Sha256(code)) && otp.sendNo == s.sends
    ensures CodeInv(s.trace + [CodeSent(email, s.sends, code)], s.otps[email := otp], s.sends + 1)
    ensures RefInv(s.trace + [CodeSent(email, s.sends, code)], s.tokens)
  {
    var e := CodeSent(email, s.sends, code);
    Append(s.trace, e);
    forall h | h in s.tokens ensures RefFits(s.trace + [e], h, s.tokens[h]) {
      var sendNo, code, t0 :|
        TokenIssued(h, s.tokens[h].email, sendNo, code, t0) in s.trace && s.tokens[h].expiry == At(t0 + OTP_TTL);
      assert TokenIssued(h, s.tokens[h].email, sendNo, code, t0) in s.trace + [e];
    }
  }

  /** Events about codes and tokens do not touch the sessions. */
  lemma SessionsUntouched(t: seq<Event>, e: Event, sessions: map<string, Session>)
    requires forall sid :: sid in sessions ==> SessionFits(t, sid, sessions[sid])
    requires e.CodeSent? || e.CodeCompared? || e.TokenIssued? || e.OtpConsumed?
    ensures forall sid :: sid in sessions ==> SessionFits(t + [e], sid, sessions[sid])
  {
    forall sid | sid in sessions ensures SessionFits(t + [e], sid, sessions[sid]) {
      SessionFitsLater(t, e, sid, sessions[sid]);
    }
  }

  /** Sending, comparing and issuing change neither sessions nor what was consumed. */
  lemma HarmlessEvent(s: State, e: Event)
    requires WellOrdered(s.trace) && SessionInv(s) && OtpInv(s) && Justified(e, s.trace)
    requires e.CodeSent? || e.CodeCompared? || e.TokenIssued?
    ensures WellOrdered(Log(s, e).trace) && SessionInv(Log(s, e)) && OtpInv(Log(s, e))
  {
    Append(s.trace, e);
    SessionsUntouched(s.trace, e, s.sessions);
  }

  ghost predicate About(e: Event, sid: string) {
    (e.SessionCreated? || e.SessionApproved? || e.BundleHandedOut? || e.AccountRecovered?) && e.sid == sid
  }

  /** A session's standing is unaffected by an event that is not about it. */
  lemma SessionFitsLater(t: seq<Event>, e: Event, sid: string, x: Session)
    requires SessionFits(t, sid, x)
    requires !About(e, sid)
    ensures SessionFits(t + [e], sid, x)
  {
    Append(t, e);
  }

  /** Events that consume nothing leave the code and token records alone. */
  lemma QuietEvent(s: State, e: Event)
    requires OtpInv(s) && TokenInv(s)
    requires !e.OtpConsumed?
    ensures OtpInv(Log(s, e)) && TokenInv(Log(s, e))
  {
    Append(s.trace, e);
  }

  lemma IssueKeepsTokens(s: State, now: int, email: string, hash: Digest, code: string)
    requires TokenInv(s) && email in s.otps && KIssued(hash) !in Keys(s.trace)
    ensures TokenInv(IssueToken(s, now, email, hash, code))
  {
    Append(s.trace, TokenIssued(hash, email, s.otps[email].sendNo, code, now));
  }

  /** The reverse index names the email a token was issued for. */
  lemma IssueKeepsRefs(s: State, now: int, email: string, hash: Digest, code: string)
    requires CodeInv(s.trace, s.otps, s.sends) && RefInv(s.trace, s.tokens) && email in s.otps
    ensures
      var r := IssueToken(s, now, email, hash, code);
      CodeInv(r.trace, r.otps, r.sends) && RefInv(r.trace, r.tokens)
  {
    var r, e := IssueToken(s, now, email, hash, code), TokenIssued(hash, email, s.otps[email].sendNo, code, now);
    RecordsLast(s.trace, e, s.otps, s.sends, s.tokens);
    assert r.trace == s.trace + [e] && e in r.trace;
    assert RefFits(r.trace, hash, r.tokens[hash]);
  }

  /** A token is issued right after the comparison with the code that was sent. */
  lemma IssueKeeps(s: State, now: int, email: string, hash: Digest, code: string)
    requires Inv(s) && email in s.otps && KIssued(hash) !in Keys(s.trace)
    requires |s.trace| > 0 && s.trace[|s.trace| - 1] == CodeCompared(email, s.otps[email].sendNo, code)
    requires CodeSent(email, s.otps[email].sendNo, code) in s.trace
    ensures Inv(IssueToken(s, now, email, hash, code))
  {
    IssueKeepsTokens(s, now, email, hash, code);
    IssueKeepsRefs(s, now, email, hash, code);
    var otp := s.otps[email].(tokenHash := Some(hash), verified := true, expiry := At(now + OTP_TTL));
    PutKeepsOtps(s, email, otp);
    HarmlessEvent(PutOtp(s, email, otp), TokenIssued(hash, email, otp.sendNo, code, now));
  }

  lemma DropKeeps(s: State, email: string)
    requires Inv(s)
    ensures Inv(s.(otps := s.otps - {email}))
  {
  }

  lemma CountKeeps(s: State, email: string)
    requires Inv(s)
    ensures Inv(CountAttempt(s, email))
  {
    var otp := OtpAt(s, email).(attempts := OtpAt(s, email).attempts + 1);
    PutKeepsOtps(s, email, otp);
    PutKeepsTokens(s, email, otp);
  }

  lemma VerifyKeeps(s: State, now: int, c: Call)
    requires Inv(s) && c.VerifyCode? && Fresh(s.trace, c)
    ensures Inv(VerifyStep(s, now, c).0)
  {
    if c.email == "" || |c.code| != CODE_SIZE {
      return;
    }
    var s1 := CountAttempt(s, c.email);
    var otp := s1.otps[c.email];
    CountKeeps(s, c.email);
    if otp.attempts > MAX_ATTEMPTS {
      DropKeeps(s1, c.email);
    } else if otp.codeHash.Some? {
      var e := CodeCompared(c.email, otp.sendNo, c.code);
      HarmlessEvent(s1, e);
      QuietEvent(s1, e);
      RecordsLast(s1.trace, e, s1.otps, s1.sends, s1.tokens);
      var s2 := Log(s1, e);
      if otp.codeHash.value == Sha256(c.code) {
        Append(s1.trace, e);
        IssueKeeps(s2, now, c.email, Sha256(c.token), c.code);
      }
    }
  }

  // ----- sessions

  /** Marking a record consumed, with the event that says so. */
  function Consume(s: State, email: string, hash: Digest, now: int): State
    requires email in s.otps
  {
    var otp := s.otps[email].(consumed := true);
    Log(s.(otps := s.otps[email := otp]), OtpConsumed(email, otp.epoch, hash, otp.user, now))
  }

  lemma ConsumeKeepsOtps(s: State, email: string, hash: Digest, now: int)
    requires OtpInv(s) && email in s.otps
    ensures OtpInv(Consume(s, email, hash, now))
  {
    Append(s.trace, OtpConsumed(email, s.otps[email].epoch, hash, s.otps[email].user, now));
  }

  lemma ConsumeKeepsTokens(s: State, email: string, hash: Digest, now: int)
    requires TokenInv(s) && email in s.otps && s.otps[email].tokenHash == Some(hash)
    ensures TokenInv(Consume(s, email, hash, now))
  {
    Append(s.trace, OtpConsumed(email, s.otps[email].epoch, hash, s.otps[email].user, now));
  }

  lemma ConsumeKeeps(s: State, email: string, hash: Digest, now: int)
    requires Inv(s) && email in s.otps && !s.otps[email].consumed && s.otps[email].tokenHash == Some(hash)
    requires hash in s.tokens && s.tokens[hash].email == email && Alive(s.tokens[hash].expiry, now)
    ensures Inv(Consume(s, email, hash, now))
  {
    var e := OtpConsumed(email, s.otps[email].epoch, hash, s.otps[email].user, now);
    ConsumeKeepsOtps(s, email, hash, now);
    ConsumeKeepsTokens(s, email, hash, now);
    RecordsLast(s.trace, e, s.otps, s.sends, s.tokens);
    SessionsUntouched(s.trace, e, s.sessions);
    ConsumptionIsJustified(s, email, hash, now);
  }

  lemma ConsumptionIsJustified(s: State, email: string, hash: Digest, now: int)
    requires Inv(s) && email in s.otps && !s.otps[email].consumed && s.otps[email].tokenHash == Some(hash)
    requires hash in s.tokens && s.tokens[hash].email == email && Alive(s.tokens[hash].expiry, now)
    ensures WellOrdered(Consume(s, email, hash, now).trace)
  {
    Append(s.trace, OtpConsumed(email, s.otps[email].epoch, hash, s.otps[email].user, now));
    assert RefFits(s.trace, hash, s.tokens[hash]);
  }

  lemma OtherSessionsFit(s: State, sid: string, x: Session, e: Event)
    requires SessionInv(s) && SessionFits(s.trace + [e], sid, x)
    requires About(e, sid)
    ensures SessionInv(Log(s.(sessions := s.sessions[sid := x]), e))
  {
    forall i | i in s.sessions && i != sid ensures SessionFits(s.trace + [e], i, s.sessions[i]) {
      SessionFitsLater(s.trace, e, i, s.sessions[i]);
    }
  }

  /** Logging an event about one session, and writing that session, leaves the rest in place. */
  lemma SessionEventKeeps(s: State, sid: string, x: Session, e: Event)
    requires Inv(s)
    requires About(e, sid)
    requires Justified(e, s.trace) && SessionFits(s.trace + [e], sid, x)
    ensures Inv(Log(s.(sessions := s.sessions[sid := x]), e))
  {
    OtherSessionsFit(s, sid, x, e);
    QuietEvent(s, e);
    RecordsLast(s.trace, e, s.otps, s.sends, s.tokens);
    OrderedAppend(s.trace, e);
  }

  function NewSession(user: string, key: seq<Byte>, now: int): Session {
    Session(user, HexEncode(key), Pending, "", "", At(now + SESSION_TTL))
  }

  /** Storing a new session, with the event that says so. */
  function Create(s: State, sid: string, x: Session, hash: Digest, now: int): State {
    Log(s.(sessions := s.sessions[sid := x]), SessionCreated(sid, x.user, hash, now))
  }

  /** A session is created in the step that consumed the code, under an id never used before. */
  lemma CreateKeeps(s: State, sid: string, x: Session, hash: Digest, now: int)
    requires Inv(s) && KCreated(sid) !in Keys(s.trace)
    requires |s.trace| > 0 && exists email, epoch ::
      s.trace[|s.trace| - 1] == OtpConsumed(email, epoch, hash, x.user, now)
    requires x.user != "" && ':' !in x.user && x.phase == Pending && x.expiry == At(now + SESSION_TTL)
    ensures Inv(Create(s, sid, x, hash, now))
  {
    var e := SessionCreated(sid, x.user, hash, now);
    assert SessionFits(s.trace + [e], sid, x) by {
      Append(s.trace, e);
      NothingBeforeCreation(s.trace, sid);
    }
    SessionEventKeeps(s, sid, x, e);
  }

  /** In a well-ordered history nothing happens to a session before it is created. */
  lemma {:induction false} NothingBeforeCreation(t: seq<Event>, sid: string)
    requires WellOrdered(t) && KCreated(sid) !in Keys(t)
    ensures {KApproved(sid), KHandedOut(sid), KRecovered(sid)} !! Keys(t)
  {
    if t != [] {
      var p, e := t[..|t| - 1], t[|t| - 1];
      NothingBeforeCreation(p, sid);
      forall user, token, t0 ensures SessionCreated(sid, user, token, t0) !in p {
        if SessionCreated(sid, user, token, t0) in p {
          KeyOfMember(p, SessionCreated(sid, user, token, t0));
        }
      }
      forall user, device, bundle, at ensures SessionApproved(sid, user, device, bundle, at) !in p {
        if SessionApproved(sid, user, device, bundle, at) in p {
          KeyOfMember(p, SessionApproved(sid, user, device, bundle, at));
        }
      }
    }
  }

  lemma {:induction false} KeyOfMember(t: seq<Event>, e: Event)
    requires e in t
    ensures KeysOf(e) <= Keys(t)
  {
    if e != t[|t| - 1] {
      KeyOfMember(t[..|t| - 1], e);
    }
  }

  /** What an initiation can do to the state: nothing, consume a code, or consume it and open a session. */
  lemma InitiateShape(s: State, now: int, c: Call) returns (email: string)
    requires c.Initiate?
    ensures
      var r, hash := InitiateStep(s, now, c).0, Sha256(c.token);
      || r == s
      || (&& hash in s.tokens && s.tokens[hash].email == email
          && email in s.otps && !s.otps[email].consumed && s.otps[email].tokenHash == Some(hash)
          && (|| r == Consume(s, email, hash, now)
              || (&& s.otps[email].user != ""
                  && r == Create(Consume(s, email, hash, now), c.sid, NewSession(s.otps[email].user, c.key, now),
                    hash, now))))
  {
    var hash := Sha256(c.token);
    email := if hash in s.tokens then s.tokens[hash].email else "";
    if email in s.otps {
      ConsumeReadsBack(s.otps[email].user);
    }
  }

  /** Consuming a record and opening a session with it. */
  lemma OpenKeeps(s: State, email: string, hash: Digest, now: int, sid: string, x: Session)
    requires email in s.otps && Inv(Consume(s, email, hash, now)) && KCreated(sid) !in Keys(s.trace)
    requires x.user == s.otps[email].user != "" && ':' !in x.user && x.phase == Pending
      && x.expiry == At(now + SESSION_TTL)
    ensures Inv(Create(Consume(s, email, hash, now), sid, x, hash, now))
  {
    var e := OtpConsumed(email, s.otps[email].epoch, hash, s.otps[email].user, now);
    assert Consume(s, email, hash, now).trace == s.trace + [e];
    assert (s.trace + [e])[|s.trace + [e]| - 1] == e && KCreated(sid) !in Keys(s.trace + [e]) by {
      Append(s.trace, e);
    }
    CreateKeeps(Consume(s, email, hash, now), sid, x, hash, now);
  }

  lemma InitiateKeeps(s: State, now: int, c: Call)
    requires Inv(s) && c.Initiate? && Fresh(s.trace, c)
    requires forall h :: h in s.tokens ==> Alive(s.tokens[h].expiry, now)
    ensures Inv(InitiateStep(s, now, c).0)
  {
    var r, hash := InitiateStep(s, now, c).0, Sha256(c.token);
    var email := InitiateShape(s, now, c);
    if r != s {
      ConsumeKeeps(s, email, hash, now);
      if r != Consume(s, email, hash, now) {
        OpenKeeps(s, email, hash, now, c.sid, NewSession(s.otps[email].user, c.key, now));
      }
    }
  }

  /** What an approval can do to the state: nothing, or approve a pending session of the caller. */
  lemma ApproveShape(s: State, now: int, c: Call)
    requires c.Approve?
    ensures
      var r := ApproveStep(s, now, c).0;
      || r == s
      || (&& c.sid in s.sessions && s.sessions[c.sid].phase == Pending && c.caller == Some(s.sessions[c.sid].user)
          && r == Log(s.(sessions := s.sessions[c.sid := Approval(s.sessions[c.sid], c)]),
                      SessionApproved(c.sid, s.sessions[c.sid].user, c.device, c.bundle, now)))
  {
    if c.sid in s.sessions {
      assert s.sessions[c.sid := s.sessions[c.sid]] == s.sessions;
    }
  }

  function Approval(x: Session, c: Call): Session
    requires c.Approve?
  {
    x.(phase := Approved, bundleHex := HexEncode(c.bundle), approver := c.device)
  }

  lemma ApproveKeeps(s: State, now: int, c: Call)
    requires Inv(s) && c.Approve? && (c.sid in s.sessions ==> Alive(s.sessions[c.sid].expiry, now))
    ensures Inv(ApproveStep(s, now, c).0)
  {
    ApproveShape(s, now, c);
    if ApproveStep(s, now, c).0 != s {
      ApprovalKeeps(s, now, c);
    }
  }

  lemma ApprovalKeeps(s: State, now: int, c: Call)
    requires Inv(s) && c.Approve? && c.sid in s.sessions && Alive(s.sessions[c.sid].expiry, now)
    requires s.sessions[c.sid].phase == Pending
    ensures
      var e := SessionApproved(c.sid, s.sessions[c.sid].user, c.device, c.bundle, now);
      Inv(Log(s.(sessions := s.sessions[c.sid := Approval(s.sessions[c.sid], c)]), e))
  {
    var x := s.sessions[c.sid];
    var e := SessionApproved(c.sid, x.user, c.device, c.bundle, now);
    assert SessionFits(s.trace, c.sid, x);
    Append(s.trace, e);
    SessionEventKeeps(s, c.sid, Approval(x, c), e);
  }

  lemma PollShape(s: State, now: int, sid: string, bundle: seq<Byte>)
    requires sid in s.sessions && ValidSessionId(sid) && s.sessions[sid].phase == Approved
      && s.sessions[sid].bundleHex == HexEncode(bundle)
    ensures
      var x := s.sessions[sid].(phase := Completed, expiry := At(now + POLLED_TTL));
      PollStep(s, now, Poll(sid)).0 == Log(s.(sessions := s.sessions[sid := x]), BundleHandedOut(sid, bundle, now))
  {
    PollReadsBack(bundle);
  }

  /** Handing out the approved bundle. */
  lemma HandOutKeeps(s: State, now: int, sid: string, bundle: seq<Byte>)
    requires Inv(s) && sid in s.sessions && Alive(s.sessions[sid].expiry, now)
    requires s.sessions[sid].phase == Approved && s.sessions[sid].bundleHex == HexEncode(bundle)
    requires exists t1 :: SessionApproved(sid, s.sessions[sid].user, s.sessions[sid].approver, bundle, t1) in s.trace
    ensures
      var x := s.sessions[sid].(phase := Completed, expiry := At(now + POLLED_TTL));
      Inv(Log(s.(sessions := s.sessions[sid := x]), BundleHandedOut(sid, bundle, now)))
  {
    var x := s.sessions[sid];
    var e := BundleHandedOut(sid, bundle, now);
    assert SessionFits(s.trace, sid, x);
    Append(s.trace, e);
    SessionEventKeeps(s, sid, x.(phase := Completed, expiry := At(now + POLLED_TTL)), e);
  }

  lemma IdlePoll(s: State, now: int, sid: string)
    requires sid in s.sessions ==> s.sessions[sid].phase != Approved
    ensures PollStep(s, now, Poll(sid)).0 == s
  {
    if sid in s.sessions {
      assert s.sessions[sid := s.sessions[sid]] == s.sessions;
    }
  }

  lemma PollKeeps(s: State, now: int, c: Call)
    requires Inv(s) && c.Poll? && (c.sid in s.sessions ==> Alive(s.sessions[c.sid].expiry, now))
    ensures Inv(PollStep(s, now, c).0)
  {
    if !ValidSessionId(c.sid) || (c.sid in s.sessions ==> s.sessions[c.sid].phase != Approved) {
      if ValidSessionId(c.sid) {
        IdlePoll(s, now, c.sid);
      }
      return;
    }
    var x := s.sessions[c.sid];
    assert SessionFits(s.trace, c.sid, x);
    var bundle, t1 :| SessionApproved(c.sid, x.user, x.approver, bundle, t1) in s.trace
      && x.bundleHex == HexEncode(bundle);
    HandOutKeeps(s, now, c.sid, bundle);
    PollShape(s, now, c.sid, bundle);
  }

  lemma CompleteKeeps(s: State, now: int, c: Call)
    requires Inv(s) && c.Complete? && (c.sid in s.sessions ==> Alive(s.sessions[c.sid].expiry, now))
    ensures Inv(CompleteStep(s, now, c).0)
  {
    if !ValidSessionId(c.sid) || !c.inputsOk || c.sid !in s.sessions {
      return;
    }
    var x := s.sessions[c.sid];
    if x.phase != Completed {
      NotReadyReadsBack(PhaseName(x.phase));
      assert CompleteStep(s, now, c).0.sessions == s.sessions;
      return;
    }
    CompleteReadsBack(x.user, x.approver);
    var e := AccountRecovered(c.sid, x.user, x.approver, now);
    if c.storeOk {
      assert SessionFits(s.trace + [e], c.sid, x.(phase := Done)) by {
        Append(s.trace, e);
      }
      SessionEventKeeps(s, c.sid, x.(phase := Done), e);
    } else {
      assert SessionFits(s.trace, c.sid, x.(phase := Done));
    }
  }

  // ----- how often a code is compared

  lemma CountKeepsCompared(s: State, email: string)
    requires CompareInv(s)
    ensures CompareInv(CountAttempt(s, email))
    ensures
      var otp := CountAttempt(s, email).otps[email];
      otp.codeHash.Some? ==> Compared(s.trace, email, otp.sendNo) + 1 <= otp.attempts
  {
  }

  /** Codes, counters and send labels are as before, and at most one event was logged, not a comparison. */
  ghost predicate ComparesNothing(s: State, r: State) {
    && r.sends == s.sends
    && (forall e :: e in r.otps ==>
          && e in s.otps && r.otps[e].codeHash == s.otps[e].codeHash
          && r.otps[e].attempts == s.otps[e].attempts && r.otps[e].sendNo == s.otps[e].sendNo)
    && (r.trace == s.trace || exists e: Event :: !e.CodeCompared? && r.trace == s.trace + [e])
  }

  lemma ComparesNothingKeeps(s: State, r: State)
    requires CompareInv(s) && ComparesNothing(s, r)
    ensures CompareInv(r)
  {
    if r.trace != s.trace {
      var e: Event :| !e.CodeCompared? && r.trace == s.trace + [e];
      Append(s.trace, e);
    }
  }

  /** One comparison, already paid for by the attempt counter. */
  lemma CompareKeepsCompared(s: State, email: string, code: string)
    requires CompareInv(s) && email in s.otps && s.otps[email].codeHash.Some?
    requires Compared(s.trace, email, s.otps[email].sendNo) + 1 <= s.otps[email].attempts <= MAX_ATTEMPTS
    ensures CompareInv(Log(s, CodeCompared(email, s.otps[email].sendNo, code)))
  {
    Append(s.trace, CodeCompared(email, s.otps[email].sendNo, code));
  }

  lemma IssueComparesNothing(s: State, now: int, email: string, hash: Digest, code: string)
    requires email in s.otps
    ensures ComparesNothing(s, IssueToken(s, now, email, hash, code))
  {
    assert !TokenIssued(hash, email, s.otps[email].sendNo, code, now).CodeCompared?;
  }

  lemma VerifyKeepsCompared(s: State, now: int, c: Call)
    requires CompareInv(s) && c.VerifyCode?
    ensures CompareInv(VerifyStep(s, now, c).0)
  {
    if c.email == "" || |c.code| != CODE_SIZE {
      return;
    }
    var s1 := CountAttempt(s, c.email);
    var otp := s1.otps[c.email];
    CountKeepsCompared(s, c.email);
    if otp.attempts > MAX_ATTEMPTS || otp.codeHash.None? {
      return;
    }
    CompareKeepsCompared(s1, c.email, c.code);
    var s2 := Log(s1, CodeCompared(c.email, otp.sendNo, c.code));
    if otp.codeHash.value == Sha256(c.code) {
      IssueComparesNothing(s2, now, c.email, Sha256(c.token), c.code);
      ComparesNothingKeeps(s2, IssueToken(s2, now, c.email, Sha256(c.token), c.code));
    }
  }

  lemma SendKeepsCompared(s: State, now: int, c: Call)
    requires CompareInv(s) && c.SendCode?
    ensures CompareInv(SendStep(s, now, c).0)
  {
    Append(s.trace, CodeSent(c.email, s.sends, c.code));
  }

  lemma PollComparesNothing(s: State, now: int, c: Call)
    requires c.Poll?
    ensures ComparesNothing(s, PollStep(s, now, c).0)
  {
  }

  lemma ApproveComparesNothing(s: State, now: int, c: Call)
    requires c.Approve?
    ensures ComparesNothing(s, ApproveStep(s, now, c).0)
  {
  }

  lemma CompleteComparesNothing(s: State, now: int, c: Call)
    requires c.Complete?
    ensures ComparesNothing(s, CompleteStep(s, now, c).0)
  {
  }

  lemma InitiateKeepsCompared(s: State, now: int, c: Call)
    requires CompareInv(s) && c.Initiate?
    ensures CompareInv(InitiateStep(s, now, c).0)
  {
    var r, hash := InitiateStep(s, now, c).0, Sha256(c.token);
    var email := InitiateShape(s, now, c);
    if r != s {
      var s1 := Consume(s, email, hash, now);
      assert ComparesNothing(s, s1) by {
        assert !OtpConsumed(email, s.otps[email].epoch, hash, s.otps[email].user, now).CodeCompared?;
      }
      ComparesNothingKeeps(s, s1);
      if r != s1 {
        assert ComparesNothing(s1, r) by {
          assert !SessionCreated(c.sid, s.otps[email].user, hash, now).CodeCompared?;
        }
        ComparesNothingKeeps(s1, r);
      }
    }
  }

  lemma StepKeepsCompared(s0: State, now: int, c: Call)
    requires CompareInv(s0)
    ensures CompareInv(Step(s0, now, c).0)
  {
    var s := Expire(s0, now);
    assert CompareInv(s);
    match c
    case SendCode(_, _, _, _) => SendKeepsCompared(s, now, c);
    case VerifyCode(_, _, _) => VerifyKeepsCompared(s, now, c);
    case Initiate(_, _, _, _) => InitiateKeepsCompared(s, now, c);
    case Poll(_) =>
      PollComparesNothing(s, now, c);
      ComparesNothingKeeps(s, PollStep(s, now, c).0);
    case Approve(_, _, _, _) =>
      ApproveComparesNothing(s, now, c);
      ComparesNothingKeeps(s, ApproveStep(s, now, c).0);
    case Complete(_, _, _) =>
      CompleteComparesNothing(s, now, c);
      ComparesNothingKeeps(s, CompleteStep(s, now, c).0);
    case Cleanup(_) =>
  }

  lemma {:induction false} RunKeepsCompared(calls: seq<Timed>)
    ensures CompareInv(Run(calls))
  {
    if calls != [] {
      var last := calls[|calls| - 1];
      RunKeepsCompared(calls[..|calls| - 1]);
      StepKeepsCompared(Run(calls[..|calls| - 1]), last.now, last.call);
    }
  }

  // ----- every run

  lemma StepKeeps(s: State, now: int, c: Call)
    requires Inv(s) && Fresh(s.trace, c)
    ensures Inv(Step(s, now, c).0)
  {
    var s1 := Expire(s, now);
    ExpireKeeps(s, now);
    match c
    case SendCode(_, _, _, _) => SendKeeps(s1, now, c);
    case VerifyCode(_, _, _) => VerifyKeeps(s1, now, c);
    case Initiate(_, _, _, _) => InitiateKeeps(s1, now, c);
    case Poll(_) => PollKeeps(s1, now, c);
    case Approve(_, _, _, _) => ApproveKeeps(s1, now, c);
    case Complete(_, _, _) => CompleteKeeps(s1, now, c);
    case Cleanup(_) =>
  }

  lemma {:induction false} RunKeeps(calls: seq<Timed>)
    requires Legal(calls)
    ensures Inv(Run(calls))
  {
    if calls != [] {
      var prefix, last := calls[..|calls| - 1], calls[|calls| - 1];
      RunKeeps(prefix);
      StepKeeps(Run(prefix), last.now, last.call);
    }
  }

  /** Two events of a well-ordered history never share a once-only key. */
  lemma {:induction false} HappensOnce(t: seq<Event>, i: nat, j: nat)
    requires WellOrdered(t) && i < j < |t|
    ensures KeysOf(t[i]) !! KeysOf(t[j])
  {
    var p := t[..|t| - 1];
    if j == |t| - 1 {
      assert t[i] in p;
      KeyOfMember(p, t[i]);
    } else {
      HappensOnce(p, i, j);
    }
  }

  /** Every event of a well-ordered history is justified by what came before it. */
  lemma {:induction false} JustifiedAt(t: seq<Event>, i: nat)
    requires WellOrdered(t) && i < |t|
    ensures Justified(t[i], t[..i]) && WellOrdered(t[..i])
  {
    if i < |t| - 1 {
      JustifiedAt(t[..|t| - 1], i);
      assert t[..|t| - 1][..i] == t[..i];
    }
  }

  /** Where in the history the steps of one recovery stand. */
  datatype Trail = Trail(
    sent: nat, compared: nat, issued: nat, consumed: nat, created: nat, approved: nat, handedOut: nat, recovered: nat)

  ghost predicate InOrder(t: seq<Event>, p: Trail) {
    p.sent < p.compared < p.issued < p.consumed < p.created < p.approved < p.handedOut < p.recovered < |t|
  }

  /** The code that was mailed out came back, a token was issued for it, and the token was consumed. */
  ghost predicate CodeTrail(t: seq<Event>, p: Trail)
    requires InOrder(t, p)
  {
    && t[p.sent].CodeSent? && t[p.compared].CodeCompared? && t[p.issued].TokenIssued? && t[p.consumed].OtpConsumed?
    && t[p.sent].email == t[p.compared].email == t[p.issued].email == t[p.consumed].email
    && t[p.sent].sendNo == t[p.compared].sendNo && t[p.sent].code == t[p.compared].code
    && t[p.issued].token == t[p.consumed].token
    && t[p.consumed].at < t[p.issued].at + OTP_TTL
  }

  /** The session of that token was approved by its user, handed out its bundle and was completed. */
  ghost predicate SessionTrail(t: seq<Event>, p: Trail)
    requires InOrder(t, p)
  {
    && t[p.consumed].OtpConsumed? && t[p.created].SessionCreated? && t[p.approved].SessionApproved?
    && t[p.handedOut].BundleHandedOut? && t[p.recovered].AccountRecovered?
    && t[p.created].token == t[p.consumed].token && t[p.created].at == t[p.consumed].at
    && t[p.created].sid == t[p.approved].sid == t[p.handedOut].sid == t[p.recovered].sid
    && t[p.consumed].user == t[p.created].user == t[p.approved].user == t[p.recovered].user
    && t[p.approved].device == t[p.recovered].approver && t[p.approved].bundle == t[p.handedOut].bundle
    && t[p.approved].at < t[p.created].at + SESSION_TTL
    && t[p.handedOut].at < t[p.created].at + SESSION_TTL
    && t[p.recovered].at < t[p.handedOut].at + POLLED_TTL
  }

  ghost predicate RestsOn(t: seq<Event>, p: Trail) {
    InOrder(t, p) && CodeTrail(t, p) && SessionTrail(t, p)
  }

  /** Each of those events is the only one of its kind for this send, token, code record and session. */
  ghost predicate OnlyOnes(t: seq<Event>, p: Trail)
    requires RestsOn(t, p)
  {
    forall k | 0 <= k < |t| ::
      && (t[k].CodeSent? && t[k].sendNo == t[p.sent].sendNo ==> k == p.sent)
      && (t[k].TokenIssued? && t[k].token == t[p.issued].token ==> k == p.issued)
      && (t[k].OtpConsumed? && t[k].token == t[p.consumed].token ==> k == p.consumed)
      && (t[k].OtpConsumed? && t[k].epoch == t[p.consumed].epoch ==> k == p.consumed)
      && (t[k].SessionCreated? && t[k].sid == t[p.recovered].sid ==> k == p.created)
      && (t[k].SessionApproved? && t[k].sid == t[p.recovered].sid ==> k == p.approved)
      && (t[k].BundleHandedOut? && t[k].sid == t[p.recovered].sid ==> k == p.handedOut)
      && (t[k].AccountRecovered? && t[k].sid == t[p.recovered].sid ==> k == p.recovered)
  }

  /**
   A completed recovery rests on seven earlier steps, in order and within the time the keys live: the
   code that was mailed out was submitted, the token issued for it was consumed, and the session opened
   with it was approved by its own user and handed out the approved bundle.  All but the comparison are
   the only ones of their kind.
   */
  lemma CompletedRecovery(calls: seq<Timed>, n: nat) returns (p: Trail)
    requires Legal(calls) && n < |Run(calls).trace| && Run(calls).trace[n].AccountRecovered?
    ensures p.recovered == n && RestsOn(Run(calls).trace, p)
    ensures OnlyOnes(Run(calls).trace, p)
  {
    RunKeeps(calls);
    p := Chain(Run(calls).trace, n);
  }

  /** The two positions are the same when the events share a once-only key. */
  lemma SamePosition(t: seq<Event>, i: nat, j: nat)
    requires WellOrdered(t) && i < |t| && j < |t| && !(KeysOf(t[i]) !! KeysOf(t[j]))
    ensures i == j
  {
    if i < j { HappensOnce(t, i, j); } else if j < i { HappensOnce(t, j, i); }
  }

  /** Following the justifications back from a completion. */
  lemma Chain(t: seq<Event>, n: nat) returns (p: Trail)
    requires WellOrdered(t) && n < |t| && t[n].AccountRecovered?
    ensures p.recovered == n && RestsOn(t, p) && OnlyOnes(t, p)
  {
    var c', d := BeforeRecovered(t, n);
    var b, c := BeforeHandedOut(t, d);
    SamePosition(t, c', c);
    var a := BeforeCreated(t, b);
    var i := BeforeConsumed(t, a);
    var k, m := BeforeIssued(t, i);
    p := Trail(k, m, i, a, b, c, d, n);
    OnlyOnesHold(t, p);
  }

  lemma OnlyOnesHold(t: seq<Event>, p: Trail)
    requires WellOrdered(t) && RestsOn(t, p)
    ensures OnlyOnes(t, p)
  {
    forall i, j | 0 <= i < |t| && 0 <= j < |t| && i != j ensures KeysOf(t[i]) !! KeysOf(t[j]) {
      if i < j { HappensOnce(t, i, j); } else { HappensOnce(t, j, i); }
    }
  }

  lemma BeforeCreated(t: seq<Event>, b: nat) returns (a: nat)
    requires WellOrdered(t) && b < |t| && t[b].SessionCreated?
    ensures a < b && t[a].OtpConsumed? && t[a].token == t[b].token && t[a].user == t[b].user && t[a].at == t[b].at
  {
    JustifiedAt(t, b);
    a := b - 1;
    assert t[..b][|t[..b]| - 1] == t[a];
  }

  lemma BeforeConsumed(t: seq<Event>, a: nat) returns (i: nat)
    requires WellOrdered(t) && a < |t| && t[a].OtpConsumed?
    ensures i < a && t[i].TokenIssued? && t[i].token == t[a].token && t[i].email == t[a].email
    ensures t[a].at < t[i].at + OTP_TTL
  {
    JustifiedAt(t, a);
    var e := t[a];
    var sendNo, code, t0 :| TokenIssued(e.token, e.email, sendNo, code, t0) in t[..a] && e.at < t0 + OTP_TTL;
    i :| i < a && t[i] == TokenIssued(e.token, e.email, sendNo, code, t0);
  }

  lemma BeforeIssued(t: seq<Event>, i: nat) returns (k: nat, m: nat)
    requires WellOrdered(t) && i < |t| && t[i].TokenIssued?
    ensures k < m < i && t[k].CodeSent? && t[m].CodeCompared?
    ensures t[k].email == t[m].email == t[i].email
    ensures t[k].sendNo == t[m].sendNo && t[k].code == t[m].code
  {
    JustifiedAt(t, i);
    var e := t[i];
    m := i - 1;
    assert t[..i][|t[..i]| - 1] == t[m];
    k :| k < i && t[k] == CodeSent(e.email, e.sendNo, e.code);
  }

  lemma BeforeRecovered(t: seq<Event>, n: nat) returns (c: nat, d: nat)
    requires WellOrdered(t) && n < |t| && t[n].AccountRecovered?
    ensures c < n && d < n && t[c].SessionApproved? && t[d].BundleHandedOut?
    ensures t[c].sid == t[d].sid == t[n].sid && t[c].user == t[n].user && t[c].device == t[n].approver
    ensures t[d].bundle == t[c].bundle && t[n].at < t[d].at + POLLED_TTL
  {
    JustifiedAt(t, n);
    var e := t[n];
    var bundle, t1, t2 :|
      SessionApproved(e.sid, e.user, e.approver, bundle, t1) in t[..n] && BundleHandedOut(e.sid, bundle, t2) in t[..n]
      && e.at < t2 + POLLED_TTL;
    c :| c < n && t[c] == SessionApproved(e.sid, e.user, e.approver, bundle, t1);
    d :| d < n && t[d] == BundleHandedOut(e.sid, bundle, t2);
  }

  lemma BeforeHandedOut(t: seq<Event>, d: nat) returns (b: nat, c: nat)
    requires WellOrdered(t) && d < |t| && t[d].BundleHandedOut?
    ensures b < c < d && t[b].SessionCreated? && t[c].SessionApproved?
    ensures t[b].sid == t[c].sid == t[d].sid && t[b].user == t[c].user && t[c].bundle == t[d].bundle
    ensures t[c].at < t[b].at + SESSION_TTL && t[d].at < t[b].at + SESSION_TTL
  {
    JustifiedAt(t, d);
    var e := t[d];
    var user, token, t0, device, t1 :|
      SessionCreated(e.sid, user, token, t0) in t[..d] && SessionApproved(e.sid, user, device, e.bundle, t1) in t[..d]
      && e.at < t0 + SESSION_TTL;
    b :| b < d && t[b] == SessionCreated(e.sid, user, token, t0);
    c :| c < d && t[c] == SessionApproved(e.sid, user, device, e.bundle, t1);
    var b' := BeforeApproved(t, c);
    SamePosition(t, b, b');
  }

  lemma BeforeApproved(t: seq<Event>, c: nat) returns (b: nat)
    requires WellOrdered(t) && c < |t| && t[c].SessionApproved?
    ensures b < c && t[b].SessionCreated? && t[b].sid == t[c].sid && t[b].user == t[c].user
    ensures t[c].at < t[b].at + SESSION_TTL
  {
    JustifiedAt(t, c);
    var e := t[c];
    var token, t0 :| SessionCreated(e.sid, e.user, token, t0) in t[..c] && e.at < t0 + SESSION_TTL;
    b :| b < c && t[b] == SessionCreated(e.sid, e.user, token, t0);
  }

  /** At most five codes are ever compared against one sent code. */
  lemma FewComparisons(calls: seq<Timed>, email: string, sendNo: nat)
    ensures Compared(Run(calls).trace, email, sendNo) <= MAX_ATTEMPTS
  {
    RunKeepsCompared(calls);
  }

  /** Within one incarnation of a one-time-code record, at most one recovery token is consumed. */
  lemma OneConsumptionPerRecord(calls: seq<Timed>, i: nat, j: nat)
    requires Legal(calls) && i < j < |Run(calls).trace|
    requires Run(calls).trace[i].OtpConsumed? && Run(calls).trace[j].OtpConsumed?
    ensures Run(calls).trace[i].epoch != Run(calls).trace[j].epoch
  {
    RunKeeps(calls);
    HappensOnce(Run(calls).trace, i, j);
  }
}
