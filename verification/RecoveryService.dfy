/**
 The recovery handlers as they run on Redis: hashes of text fields with a lifetime, changed field by
 field, and the scripts with their reply texts.  `Valid` says how the protocol's records are read out of
 the fields, and each handler is proved to take what is read one `Step` of the protocol further.

 The key spaces `recovery:otp:`, `recovery:otp:token:` and `device:recovery:` are separate maps.
 */
module RecoveryService {
  import opened Common
  import opened RecoveryText
  import opened DeviceRecovery

  datatype Name =
    | CodeHash | Attempts | UserId | SessionTokenHash | VerifiedFlag | ConsumedFlag
    | EphemeralPub | StateName | WrappedBundle | ApproverDeviceId

  /** A field holds text; the hex text of a digest is kept apart, being one for one with the digest. */
  datatype Field = Text(text: string) | HexOf(digest: Digest)

  type Fields = map<Name, Field>

  datatype Hash = Hash(fields: Fields, expiry: Expiry)

  type Keyspace = map<string, Hash>

  // ----- the Redis commands

  function HGet(keys: Keyspace, key: string, name: Name): Option<Field> {
    if key in keys && name in keys[key].fields then Some(keys[key].fields[name]) else None
  }

  /** What a hash command finds: the hash, or the empty one it creates, which has no expiry. */
  function HashAt(keys: Keyspace, key: string): Hash {
    if key in keys then keys[key] else Hash(map[], Never)
  }

  function HSet(keys: Keyspace, key: string, fields: Fields): Keyspace {
    keys[key := Hash(HashAt(keys, key).fields + fields, HashAt(keys, key).expiry)]
  }

  /** EXPIRE does nothing to a key that is not there. */
  function SetExpiry(keys: Keyspace, key: string, time: int): Keyspace {
    if key in keys then keys[key := keys[key].(expiry := At(time))] else keys
  }

  /** HINCRBY by one reads the decimal text of the field, or 0 where there is none, and writes it back. */
  function HIncr(keys: Keyspace, key: string): (Keyspace, nat) {
    var n := Counter(HashAt(keys, key).fields) + 1;
    (HSet(keys, key, map[Attempts := Text(Decimal(n))]), n)
  }

  function Remaining(keys: Keyspace, now: int): Keyspace {
    map k | k in keys && Alive(keys[k].expiry, now) :: keys[k]
  }

  /** A script's `(value or '')`. */
  function OrEmpty(value: Option<Field>): string {
    if value.Some? && value.value.Text? then value.value.text else ""
  }

  // ----- reading records out of fields

  function TextAt(fields: Fields, name: Name): string {
    if name in fields && fields[name].Text? then fields[name].text else ""
  }

  function DigestAt(fields: Fields, name: Name): Option<Digest> {
    if name in fields && fields[name].HexOf? then Some(fields[name].digest) else None
  }

  function Counter(fields: Fields): nat {
    var text := TextAt(fields, Attempts);
    if AllDigits(text) then Value(text) else 0
  }

  function ReadPhase(text: string): Option<Phase> {
    if text == "pending" then Some(Pending)
    else if text == "approved" then Some(Approved)
    else if text == "completed" then Some(Completed)
    else if text == "done" then Some(Done)
    else None
  }

  /** A hash and the code record it is: the counter is decimal text, the flags are the text `true`. */
  ghost predicate OtpIs(h: Hash, otp: Otp) {
    var f := h.fields;
    && (Attempts in f ==> f[Attempts].Text? && AllDigits(f[Attempts].text))
    && (CodeHash in f ==> f[CodeHash].HexOf?)
    && (SessionTokenHash in f ==> f[SessionTokenHash].HexOf?)
    && (UserId in f ==> f[UserId].Text?)
    && otp.codeHash == DigestAt(f, CodeHash) && otp.tokenHash == DigestAt(f, SessionTokenHash)
    && otp.attempts == Counter(f) && otp.user == TextAt(f, UserId) && otp.expiry == h.expiry
    && (otp.verified <==> TextAt(f, VerifiedFlag) == "true")
    && (otp.consumed <==> TextAt(f, ConsumedFlag) == "true")
  }

  /** A hash and the session it is: all fields are text, the state one of four names. */
  ghost predicate SessionIs(h: Hash, session: Session) {
    var f := h.fields;
    && (forall n :: n in f ==> f[n].Text?)
    && StateName in f && ReadPhase(f[StateName].text) == Some(session.phase)
    && session.user == TextAt(f, UserId) && session.ephemeralPub == TextAt(f, EphemeralPub)
    && session.bundleHex == TextAt(f, WrappedBundle) && session.approver == TextAt(f, ApproverDeviceId)
    && session.expiry == h.expiry
  }

  ghost predicate OtpsAre(keys: Keyspace, otps: map<string, Otp>) {
    keys.Keys == otps.Keys && forall e :: e in keys ==> OtpIs(keys[e], otps[e])
  }

  ghost predicate SessionsAre(keys: Keyspace, sessions: map<string, Session>) {
    keys.Keys == sessions.Keys && forall i :: i in keys ==> SessionIs(keys[i], sessions[i])
  }

  // ----- what the commands of a handler mean

  lemma PutReads(keys: Keyspace, otps: map<string, Otp>, email: string, h: Hash, otp: Otp)
    requires OtpsAre(keys, otps) && OtpIs(h, otp)
    ensures OtpsAre(keys[email := h], otps[email := otp])
  {
  }

  lemma PutSessionReads(keys: Keyspace, sessions: map<string, Session>, sid: string, h: Hash, session: Session)
    requires SessionsAre(keys, sessions) && SessionIs(h, session)
    ensures SessionsAre(keys[sid := h], sessions[sid := session])
  {
  }

  lemma RemainingReads(keys: Keyspace, otps: map<string, Otp>, now: int)
    requires OtpsAre(keys, otps)
    ensures OtpsAre(Remaining(keys, now), map e | e in otps && Alive(otps[e].expiry, now) :: otps[e])
  {
  }

  lemma RemainingSessionsRead(keys: Keyspace, sessions: map<string, Session>, now: int)
    requires SessionsAre(keys, sessions)
    ensures SessionsAre(Remaining(keys, now), map i | i in sessions && Alive(sessions[i].expiry, now) :: sessions[i])
  {
  }

  /** The hash a command finds or creates is the record the protocol finds or creates. */
  lemma FoundReads(keys: Keyspace, s: State, email: string)
    requires OtpsAre(keys, s.otps)
    ensures OtpIs(HashAt(keys, email), OtpAt(s, email))
  {
  }

  function Sent(keys: Keyspace, email: string, code: string, user: string, time: int): Keyspace {
    var fields := map[CodeHash := HexOf(Sha256(code)), Attempts := Text("0"), UserId := Text(user)];
    SetExpiry(HSet(keys, email, fields), email, time)
  }

  lemma SentFieldsRead(h: Hash, otp: Otp, code: string, user: string, time: int, sendNo: nat)
    requires OtpIs(h, otp)
    ensures OtpIs(Hash(h.fields
      + map[CodeHash := HexOf(Sha256(code)), Attempts := Text("0"), UserId := Text(user)], At(time)),
                  otp.(codeHash := Some(Sha256(code)), attempts := 0, user := user, expiry := At(time),
                    sendNo := sendNo))
  {
    assert Decimal(0) == "0";
    DecimalReadsBack(0);
  }

  lemma SentReads(keys: Keyspace, s: State, now: int, email: string, code: string, user: string)
    requires OtpsAre(keys, s.otps)
    ensures OtpsAre(Sent(keys, email, code, user, now + OTP_TTL), StoreCode(s, now, email, code, user).otps)
  {
    var h := HashAt(keys, email);
    var f := h.fields + map[CodeHash := HexOf(Sha256(code)), Attempts := Text("0"), UserId := Text(user)];
    FoundReads(keys, s, email);
    SentFieldsRead(h, OtpAt(s, email), code, user, now + OTP_TTL, s.sends);
    PutReads(keys, s.otps, email, Hash(f, At(now + OTP_TTL)), StoreCode(s, now, email, code, user).otps[email]);
  }

  lemma CountReads(keys: Keyspace, s: State, email: string)
    requires OtpsAre(keys, s.otps)
    ensures OtpsAre(HIncr(keys, email).0, CountAttempt(s, email).otps)
    ensures HIncr(keys, email).1 == CountAttempt(s, email).otps[email].attempts
  {
    FoundReads(keys, s, email);
    DecimalReadsBack(HIncr(keys, email).1);
    PutReads(keys, s.otps, email, HIncr(keys, email).0[email], CountAttempt(s, email).otps[email]);
  }

  function Issued(keys: Keyspace, email: string, token: Digest, time: int): Keyspace {
    SetExpiry(HSet(keys, email, map[SessionTokenHash := HexOf(token), VerifiedFlag := Text("true")]), email, time)
  }

  lemma IssuedFieldsRead(h: Hash, otp: Otp, token: Digest, time: int)
    requires OtpIs(h, otp)
    ensures OtpIs(Hash(h.fields + map[SessionTokenHash := HexOf(token), VerifiedFlag := Text("true")], At(time)),
                  otp.(tokenHash := Some(token), verified := true, expiry := At(time)))
  {
  }

  lemma IssuedReads(keys: Keyspace, s: State, now: int, email: string, token: Digest, code: string)
    requires OtpsAre(keys, s.otps)
    ensures OtpsAre(Issued(keys, email, token, now + OTP_TTL), IssueToken(s, now, email, token, code).otps)
  {
    var h := HashAt(keys, email);
    var f := h.fields + map[SessionTokenHash := HexOf(token), VerifiedFlag := Text("true")];
    FoundReads(keys, s, email);
    IssuedFieldsRead(h, OtpAt(s, email), token, now + OTP_TTL);
    PutReads(keys, s.otps, email, Hash(f, At(now + OTP_TTL)), IssueToken(s, now, email, token, code).otps[email]);
  }

  lemma DroppedReads(keys: Keyspace, otps: map<string, Otp>, email: string)
    requires OtpsAre(keys, otps)
    ensures OtpsAre(keys - {email}, otps - {email})
  {
  }

  lemma ConsumedReads(keys: Keyspace, otps: map<string, Otp>, email: string)
    requires OtpsAre(keys, otps) && email in keys
    ensures OtpsAre(HSet(keys, email, map[ConsumedFlag := Text("true")]), otps[email := otps[email].(consumed := true)])
  {
    PutReads(keys, otps, email, HSet(keys, email, map[ConsumedFlag := Text("true")])[email],
      otps[email].(consumed := true));
  }

  lemma PhaseReads(phase: Phase)
    ensures ReadPhase(PhaseName(phase)) == Some(phase)
  {
  }

  lemma NamesDiffer(text: string, phase: Phase)
    requires ReadPhase(text) == Some(phase)
    ensures text == PhaseName(phase)
  {
  }

  lemma StateReads(keys: Keyspace, sessions: map<string, Session>, sid: string, phase: Phase)
    requires SessionsAre(keys, sessions) && sid in keys
    ensures SessionsAre(HSet(keys, sid, map[StateName := Text(PhaseName(phase))]),
      sessions[sid := sessions[sid].(phase := phase)])
  {
    PhaseReads(phase);
    var h := HSet(keys, sid, map[StateName := Text(PhaseName(phase))])[sid];
    PutSessionReads(keys, sessions, sid, h, sessions[sid].(phase := phase));
  }

  function HandedOut(keys: Keyspace, sid: string, time: int): Keyspace {
    SetExpiry(HSet(keys, sid, map[StateName := Text("completed")]), sid, time)
  }

  lemma HandedOutFieldsRead(h: Hash, session: Session, time: int)
    requires SessionIs(h, session)
    ensures SessionIs(Hash(h.fields + map[StateName := Text("completed")], At(time)),
      session.(phase := Completed, expiry := At(time)))
  {
    PhaseReads(Completed);
  }

  lemma HandedOutReads(keys: Keyspace, sessions: map<string, Session>, sid: string, time: int)
    requires SessionsAre(keys, sessions) && sid in keys
    ensures SessionsAre(HandedOut(keys, sid, time),
      sessions[sid := sessions[sid].(phase := Completed, expiry := At(time))])
  {
    var h := Hash(keys[sid].fields + map[StateName := Text("completed")], At(time));
    HandedOutFieldsRead(keys[sid], sessions[sid], time);
    PutSessionReads(keys, sessions, sid, h, sessions[sid].(phase := Completed, expiry := At(time)));
  }

  function ApprovalFields(bundle: string, device: string): Fields {
    map[WrappedBundle := Text(bundle), ApproverDeviceId := Text(device), StateName := Text("approved")]
  }

  lemma ApprovedReads(keys: Keyspace, sessions: map<string, Session>, sid: string, bundle: string, device: string)
    requires SessionsAre(keys, sessions) && sid in keys
    ensures SessionsAre(HSet(keys, sid, ApprovalFields(bundle, device)),
                        sessions[sid := sessions[sid].(phase := Approved, bundleHex := bundle, approver := device)])
  {
    PhaseReads(Approved);
    PutSessionReads(keys, sessions, sid, HSet(keys, sid, ApprovalFields(bundle, device))[sid],
                    sessions[sid].(phase := Approved, bundleHex := bundle, approver := device));
  }

  function NewFields(user: string, key: seq<Byte>): Fields {
    map[UserId := Text(user), EphemeralPub := Text(HexEncode(key)), StateName := Text("pending")]
  }

  lemma NewFieldsRead(user: string, key: seq<Byte>, now: int)
    ensures SessionIs(Hash(NewFields(user, key), At(now + SESSION_TTL)), NewSession(user, key, now))
  {
    PhaseReads(Pending);
  }

  /** A session is written to an id no key exists for. */
  lemma OpenedReads(keys: Keyspace, sessions: map<string, Session>, sid: string, user: string, key: seq<Byte>, now: int)
    requires SessionsAre(keys, sessions) && sid !in keys
    ensures SessionsAre(SetExpiry(HSet(keys, sid, NewFields(user, key)), sid, now + SESSION_TTL),
                        sessions[sid := NewSession(user, key, now)])
  {
    assert map[] + NewFields(user, key) == NewFields(user, key);
    NewFieldsRead(user, key, now);
    PutSessionReads(keys, sessions, sid, Hash(NewFields(user, key), At(now + SESSION_TTL)), NewSession(user, key, now));
  }

  lemma StateIs(keys: Keyspace, sessions: map<string, Session>, sid: string)
    requires SessionsAre(keys, sessions)
    ensures HGet(keys, sid, StateName) == if sid in sessions then Some(Text(PhaseName(sessions[sid].phase))) else None
  {
    if sid in keys {
      NamesDiffer(keys[sid].fields[StateName].text, sessions[sid].phase);
    }
  }

  /** Reading the script's reply, the handler records exactly what the script wrote. */
  lemma ConsumptionWrites(s: State, now: int, email: string, hash: Digest)
    ensures
      var (after, reply) := ConsumeScript(if email in s.otps then Some(s.otps[email]) else None, hash);
      var (r, user) := ConsumeStep(s, now, email, hash);
      && r.otps == (if after.Some? then s.otps[email := after.value] else s.otps)
      && r.tokens == s.tokens && r.sessions == s.sessions && user == ReadConsume(reply)
  {
    if email in s.otps {
      ConsumeReadsBack(s.otps[email].user);
    }
  }

  /** A poll changes nothing but the session the script wrote, and answers what its reply reads as. */
  lemma PollWrites(s: State, now: int, sid: string)
    requires ValidSessionId(sid)
    ensures
      var (r, reply) := PollStep(s, now, Poll(sid));
      var text := if sid in s.sessions then PollScript(s.sessions[sid], now).1 else "expired";
      && r.otps == s.otps && r.tokens == s.tokens
      && r.sessions == (if sid in s.sessions then s.sessions[sid := PollScript(s.sessions[sid], now).0] else s.sessions)
      && reply == if ReadPoll(text).PollBroken? then Failed(Internal) else Polled(ReadPoll(text))
  {
  }

  /** What the scripts read of a session. */
  lemma SessionTexts(keys: Keyspace, sessions: map<string, Session>, sid: string)
    requires SessionsAre(keys, sessions) && sid in sessions
    ensures OrEmpty(HGet(keys, sid, UserId)) == sessions[sid].user
    ensures OrEmpty(HGet(keys, sid, ApproverDeviceId)) == sessions[sid].approver
    ensures OrEmpty(HGet(keys, sid, WrappedBundle)) == sessions[sid].bundleHex
  {
  }

  function DoneKeys(keys: Keyspace, sid: string): Keyspace {
    HSet(keys, sid, map[StateName := Text("done")])
  }

  /** The last part of the completion script: `done` is written, then user and approver are read. */
  lemma CompletionReads(keys: Keyspace, sessions: map<string, Session>, sid: string)
    requires SessionsAre(keys, sessions) && sid in sessions && sessions[sid].phase == Completed
    ensures
      var done := DoneKeys(keys, sid);
      var (session, text) := CompleteScript(sessions[sid]);
      && SessionsAre(done, sessions[sid := session])
      && "ok:" + OrEmpty(HGet(done, sid, UserId)) + ":" + OrEmpty(HGet(done, sid, ApproverDeviceId)) == text
  {
    StateReads(keys, sessions, sid, Done);
    SessionTexts(DoneKeys(keys, sid), sessions[sid := sessions[sid].(phase := Done)], sid);
  }

  /** The last part of the poll script: `completed` and a new lifetime are written, then the bundle is read. */
  lemma HandingOutReads(keys: Keyspace, sessions: map<string, Session>, sid: string, now: int)
    requires SessionsAre(keys, sessions) && sid in sessions && sessions[sid].phase == Approved
    ensures
      var out := HandedOut(keys, sid, now + POLLED_TTL);
      var (session, text) := PollScript(sessions[sid], now);
      SessionsAre(out, sessions[sid := session]) && "approved:" + OrEmpty(HGet(out, sid, WrappedBundle)) == text
  {
    HandedOutReads(keys, sessions, sid, now + POLLED_TTL);
    SessionTexts(HandedOut(keys, sid, now + POLLED_TTL), sessions[sid := PollScript(sessions[sid], now).0], sid);
  }

  class Service {
    var otps: Keyspace
    var tokens: map<Digest, TokenRef>
    var sessions: Keyspace

    /** The protocol's state, which the fields are read as. */
    ghost var view: State

    ghost predicate Valid()
      reads this
    {
      OtpsAre(otps, view.otps) && tokens == view.tokens && SessionsAre(sessions, view.sessions)
    }

    constructor ()
      ensures Valid() && view == Init()
    {
      otps, tokens, sessions, view := map[], map[], map[], Init();
    }

    method DropExpired(now: int)
      requires Valid()
      modifies this
      ensures Valid() && view == Expire(old(view), now)
    {
      RemainingReads(otps, view.otps, now);
      RemainingSessionsRead(sessions, view.sessions, now);
      otps := Remaining(otps, now);
      tokens := map h | h in tokens && Alive(tokens[h].expiry, now) :: tokens[h];
      sessions := Remaining(sessions, now);
      view := Expire(view, now);
    }

    method SendCode(now: int, email: string, code: string, lookup: string, admitted: bool) returns (r: Reply)
      requires Valid()
      modifies this
      ensures Valid() && (view, r) == SendStep(old(view), now, Call.SendCode(email, code, lookup, admitted))
    {
      if email == "" {
        return Failed(InvalidArgument);
      }
      if !admitted {
        return Failed(ResourceExhausted);
      }
      SentReads(otps, view, now, email, code, lookup);
      otps := HSet(otps, email, map[CodeHash := HexOf(Sha256(code)), Attempts := Text("0"), UserId := Text(lookup)]);
      otps := SetExpiry(otps, email, now + OTP_TTL);
      view := StoreCode(view, now, email, code, lookup);
      return OtpSent;
    }

    method VerifyCode(now: int, email: string, code: string, token: string) returns (r: Reply)
      requires Valid()
      modifies this
      ensures Valid() && (view, r) == VerifyStep(old(view), now, Call.VerifyCode(email, code, token))
    {
      if email == "" || |code| != CODE_SIZE {
        return Failed(InvalidArgument);
      }
      var attempts := CountOneAttempt(email);
      r := CheckCode(now, email, code, token, attempts);
    }

    method CheckCode(now: int, email: string, code: string, token: string, attempts: nat) returns (r: Reply)
      requires Valid() && email in view.otps && attempts == view.otps[email].attempts
      modifies this
      ensures Valid() && (view, r) == CheckStep(old(view), now, Call.VerifyCode(email, code, token))
    {
      if attempts > MAX_ATTEMPTS {
        DroppedReads(otps, view.otps, email);
        otps := otps - {email};
        view := view.(otps := view.otps - {email});
        return Failed(PermissionDenied);
      }
      var stored := HGet(otps, email, CodeHash);
      if stored.None? {
        return Failed(NotFound);
      }
      view := Log(view, CodeCompared(email, view.otps[email].sendNo, code));
      if stored != Some(HexOf(Sha256(code))) {
        return Failed(PermissionDenied);
      }
      MarkVerified(now, email, code, token);
      return Verified(token);
    }

    method CountOneAttempt(email: string) returns (attempts: nat)
      requires Valid()
      modifies this
      ensures Valid() && view == CountAttempt(old(view), email) && attempts == view.otps[email].attempts
    {
      CountReads(otps, view, email);
      var (counted, n) := HIncr(otps, email);
      otps := counted;
      view := CountAttempt(view, email);
      return n;
    }

    method MarkVerified(now: int, email: string, code: string, token: string)
      requires Valid()
      modifies this
      ensures Valid() && view == IssueToken(old(view), now, email, Sha256(token), code)
    {
      var hash := Sha256(token);
      IssuedReads(otps, view, now, email, hash, code);
      otps := Issued(otps, email, hash, now + OTP_TTL);
      tokens := tokens[hash := TokenRef(email, At(now + OTP_TTL))];
      view := IssueToken(view, now, email, hash, code);
    }

    /** otpConsumeScript, on the fields. */
    method RunConsumeScript(email: string, hash: Digest) returns (reply: string)
      requires Valid()
      modifies this`otps
      ensures
        var (after, text) := ConsumeScript(if email in view.otps then Some(view.otps[email]) else None, hash);
        && reply == text
        && OtpsAre(otps, if after.Some? then view.otps[email := after.value] else view.otps)
    {
      if OrEmpty(HGet(otps, email, VerifiedFlag)) != "true" {
        return "not_verified";
      }
      if OrEmpty(HGet(otps, email, ConsumedFlag)) == "true" {
        return "already_consumed";
      }
      if HGet(otps, email, SessionTokenHash) != Some(HexOf(hash)) {
        return "invalid_token";
      }
      ConsumedReads(otps, view.otps, email);
      otps := HSet(otps, email, map[ConsumedFlag := Text("true")]);
      return "ok:" + OrEmpty(HGet(otps, email, UserId));
    }

    method ConsumeCode(now: int, email: string, hash: Digest) returns (user: Option<string>)
      requires Valid()
      modifies this
      ensures Valid() && (view, user) == ConsumeStep(old(view), now, email, hash)
      ensures sessions == old(sessions)
    {
      var reply := RunConsumeScript(email, hash);
      ConsumptionWrites(view, now, email, hash);
      view := ConsumeStep(view, now, email, hash).0;
      return ReadConsume(reply);
    }

    method InitiateDeviceRecovery(now: int, token: string, key: seq<Byte>, admitted: bool, sid: string)
      returns (r: Reply)
      requires Valid() && sid !in sessions
      modifies this
      ensures Valid() && (view, r) == InitiateStep(old(view), now, Initiate(token, key, admitted, sid))
    {
      if token == "" || |key| != KEY_SIZE || HexEncode(key) in LOW_ORDER_POINTS {
        return Failed(InvalidArgument);
      }
      var hash := Sha256(token);
      if hash !in tokens {
        return FakeSession;
      }
      var email := tokens[hash].email;
      var user := ConsumeCode(now, email, hash);
      if user.None? || user.value == "" {
        return FakeSession;
      }
      if !admitted {
        return Failed(ResourceExhausted);
      }
      OpenSession(now, sid, user.value, key, hash);
      return SessionOpened(sid);
    }

    method OpenSession(now: int, sid: string, user: string, key: seq<Byte>, hash: Digest)
      requires Valid() && sid !in sessions
      modifies this
      ensures Valid() && view == Create(old(view), sid, NewSession(user, key, now), hash, now)
    {
      OpenedReads(sessions, view.sessions, sid, user, key, now);
      sessions := HSet(sessions, sid, NewFields(user, key));
      sessions := SetExpiry(sessions, sid, now + SESSION_TTL);
      view := Create(view, sid, NewSession(user, key, now), hash, now);
    }

    /** pollTransitionScript, on the fields. */
    method RunPollScript(sid: string, now: int) returns (reply: string)
      requires Valid()
      modifies this`sessions
      ensures sid !in view.sessions ==> reply == "expired" && sessions == old(sessions)
      ensures sid in view.sessions ==>
        var (session, text) := PollScript(view.sessions[sid], now);
        reply == text && SessionsAre(sessions, view.sessions[sid := session])
    {
      StateIs(sessions, view.sessions, sid);
      var state := HGet(sessions, sid, StateName);
      if state.None? {
        return "expired";
      }
      if OrEmpty(state) == "pending" {
        return "pending";
      }
      if OrEmpty(state) == "completed" || OrEmpty(state) == "done" {
        return "completed";
      }
      HandingOutReads(sessions, view.sessions, sid, now);
      sessions := HandedOut(sessions, sid, now + POLLED_TTL);
      return "approved:" + OrEmpty(HGet(sessions, sid, WrappedBundle));
    }

    method PollDeviceRecovery(now: int, sid: string) returns (r: Reply)
      requires Valid()
      modifies this
      ensures Valid() && (view, r) == PollStep(old(view), now, Poll(sid))
    {
      if !ValidSessionId(sid) {
        return Failed(InvalidArgument);
      }
      var reply := RunPollScript(sid, now);
      PollWrites(view, now, sid);
      view := PollStep(view, now, Poll(sid)).0;
      var status := ReadPoll(reply);
      if status.PollBroken? {
        return Failed(Internal);
      }
      return Polled(status);
    }

    /** approveTransitionScript, on the fields. */
    method RunApproveScript(sid: string, bundle: string, device: string, caller: string) returns (reply: string)
      requires Valid()
      modifies this`sessions
      ensures
        var found := if sid in view.sessions then Some(view.sessions[sid]) else None;
        var (after, text) := ApproveScript(found, bundle, device, caller);
        && reply == text
        && SessionsAre(sessions, if after.Some? then view.sessions[sid := after.value] else view.sessions)
    {
      StateIs(sessions, view.sessions, sid);
      var state := HGet(sessions, sid, StateName);
      if state.None? {
        return "expired";
      }
      if OrEmpty(state) != "pending" {
        return "already_approved";
      }
      if OrEmpty(HGet(sessions, sid, UserId)) != caller {
        return "wrong_user";
      }
      ApprovedReads(sessions, view.sessions, sid, bundle, device);
      sessions := HSet(sessions, sid, ApprovalFields(bundle, device));
      return "ok";
    }

    method ApproveDeviceRecovery(now: int, sid: string, bundle: seq<Byte>, caller: Option<string>, device: string)
      returns (r: Reply)
      requires Valid()
      modifies this
      ensures Valid() && (view, r) == ApproveStep(old(view), now, Approve(sid, bundle, caller, device))
    {
      if !ValidSessionId(sid) || |bundle| != BUNDLE_SIZE {
        return Failed(InvalidArgument);
      }
      if caller.None? {
        return Failed(Unauthenticated);
      }
      var reply := RunApproveScript(sid, HexEncode(bundle), device, caller.value);
      view := ApproveStep(view, now, Approve(sid, bundle, caller, device)).0;
      return ReadApprove(reply);
    }

    /** completeTransitionScript, on the fields. */
    method RunCompleteScript(sid: string) returns (reply: string)
      requires Valid()
      modifies this`sessions
      ensures sid !in view.sessions ==> reply == "expired" && sessions == old(sessions)
      ensures sid in view.sessions ==>
        var (session, text) := CompleteScript(view.sessions[sid]);
        reply == text && SessionsAre(sessions, view.sessions[sid := session])
    {
      StateIs(sessions, view.sessions, sid);
      var state := HGet(sessions, sid, StateName);
      if state.None? {
        return "expired";
      }
      if OrEmpty(state) == "done" {
        return "already_done";
      }
      if OrEmpty(state) != "completed" {
        return "not_ready:" + OrEmpty(state);
      }
      CompletionReads(sessions, view.sessions, sid);
      sessions := DoneKeys(sessions, sid);
      return "ok:" + OrEmpty(HGet(sessions, sid, UserId)) + ":" + OrEmpty(HGet(sessions, sid, ApproverDeviceId));
    }

    method CompleteDeviceRecovery(now: int, sid: string, inputsOk: bool, storeOk: bool) returns (r: Reply)
      requires Valid()
      modifies this
      ensures Valid() && (view, r) == CompleteStep(old(view), now, Complete(sid, inputsOk, storeOk))
    {
      if !ValidSessionId(sid) || !inputsOk {
        return Failed(InvalidArgument);
      }
      var reply := RunCompleteScript(sid);
      view := CompleteStep(view, now, Complete(sid, inputsOk, storeOk)).0;
      match ReadComplete(reply) {
        case Gone => return Failed(NotFound);
        case AlreadyDone => return Failed(FailedPrecondition);
        case NotReady => return Failed(FailedPrecondition);
        case Unknown => return Failed(Internal);
        case Accepted(user, _) =>
          if !storeOk {
            return Failed(Internal);
          }
          return Recovered(user);
      }
    }

    method CleanUp(sid: string) returns (r: Reply)
      requires Valid()
      modifies this
      ensures Valid() && view == old(view).(sessions := old(view).sessions - {sid}) && r == Cleaned
    {
      sessions := sessions - {sid};
      view := view.(sessions := view.sessions - {sid});
      return Cleaned;
    }

    /** One call: Redis drops what has expired, then the handler runs. */
    method Handle(now: int, c: Call) returns (r: Reply)
      requires Valid() && (c.Initiate? ==> c.sid !in sessions)
      modifies this
      ensures Valid() && (view, r) == Step(old(view), now, c)
    {
      DropExpired(now);
      match c {
        case SendCode(email, code, lookup, admitted) => r := SendCode(now, email, code, lookup, admitted);
        case VerifyCode(email, code, token) => r := VerifyCode(now, email, code, token);
        case Initiate(token, key, admitted, sid) => r := InitiateDeviceRecovery(now, token, key, admitted, sid);
        case Poll(sid) => r := PollDeviceRecovery(now, sid);
        case Approve(sid, bundle, caller, device) => r := ApproveDeviceRecovery(now, sid, bundle, caller, device);
        case Complete(sid, inputsOk, storeOk) => r := CompleteDeviceRecovery(now, sid, inputsOk, storeOk);
        case Cleanup(sid) => r := CleanUp(sid);
      }
    }
  }
}
