/**
 The text encodings that carry values through the recovery scripts: hex, the `ok:` and `approved:`
 reply prefixes, and Go's strings.Cut on the first colon.
 */
module RecoveryText {
  import opened Common

  type Byte = b: int | 0 <= b < 256

  function HexDigit(n: int): char
    requires 0 <= n < 16
  {
    if n < 10 then '0' + n as char else 'a' + (n - 10) as char
  }

  /** Both letter cases are accepted. */
  function HexValue(c: char): Option<int>
    ensures HexValue(c).Some? ==> 0 <= HexValue(c).value < 16
  {
    if '0' <= c <= '9' then Some(c as int - '0' as int)
    else if 'a' <= c <= 'f' then Some(c as int - 'a' as int + 10)
    else if 'A' <= c <= 'F' then Some(c as int - 'A' as int + 10)
    else None
  }

  function HexEncode(bytes: seq<Byte>): string {
    if bytes == [] then ""
    else [HexDigit(bytes[0] / 16), HexDigit(bytes[0] % 16)] + HexEncode(bytes[1..])
  }

  /** Fails on an odd length and on any character that is not a hex digit. */
  function HexDecode(text: string): Option<seq<Byte>> {
    if text == "" then Some([])
    else if |text| == 1 then None
    else
      match (HexValue(text[0]), HexValue(text[1]), HexDecode(text[2..]))
      case (Some(hi), Some(lo), Some(rest)) => Some([hi * 16 + lo] + rest)
      case _ => None
  }

  lemma DigitReadsBack(n: int)
    requires 0 <= n < 16
    ensures HexValue(HexDigit(n)) == Some(n)
  {
  }

  lemma {:induction false} HexRoundTrip(bytes: seq<Byte>)
    ensures HexDecode(HexEncode(bytes)) == Some(bytes)
    ensures |HexEncode(bytes)| == 2 * |bytes|
  {
    if bytes != [] {
      var hi, lo := bytes[0] / 16, bytes[0] % 16;
      DigitReadsBack(hi);
      DigitReadsBack(lo);
      HexRoundTrip(bytes[1..]);
      assert HexEncode(bytes)[2..] == HexEncode(bytes[1..]);
      assert [bytes[0]] + bytes[1..] == bytes;
    }
  }

  /** A session id is the hex text of 32 bytes. */
  predicate ValidSessionId(id: string) {
    |id| == 64 && HexDecode(id).Some?
  }

  datatype Cut = Cut(before: string, after: string, found: bool)

  /** Splits around the first colon. */
  function CutColon(text: string): Cut {
    if text == "" then Cut("", "", false)
    else if text[0] == ':' then Cut("", text[1..], true)
    else
      var rest := CutColon(text[1..]);
      Cut([text[0]] + rest.before, rest.after, rest.found)
  }

  /** What `<user>:<device>` is read back as: the pair itself exactly when the user has no colon. */
  lemma {:induction false} CutReadsBack(user: string, device: string)
    ensures CutColon(user + ":" + device) == Cut(user, device, true) <==> ':' !in user
  {
    var text := user + ":" + device;
    if user == "" {
      assert text == ":" + device && text[1..] == device;
    } else {
      assert text[1..] == user[1..] + ":" + device;
      assert user == [user[0]] + user[1..];
      CutReadsBack(user[1..], device);
      if user[0] != ':' {
        var rest := CutColon(text[1..]);
        assert CutColon(text).before == [user[0]] + rest.before;
        assert [user[0]] + rest.before == user <==> rest.before == user[1..] by {
          assert ([user[0]] + rest.before)[1..] == rest.before;
        }
      } else {
        assert CutColon(text).before == "";
      }
    }
  }

  // ----- replies of the atomic scripts, as the handlers read them

  /** otpConsumeScript: None is a refusal, Some carries the (possibly empty) user id. */
  function ReadConsume(reply: string): Option<string> {
    if reply == "not_verified" || reply == "already_consumed" || reply == "invalid_token" then None
    else Some(CutColon(reply).after)
  }

  lemma ConsumeReadsBack(user: string)
    ensures ReadConsume("ok:" + user) == Some(user)
  {
    var reply := "ok:" + user;
    assert reply[0] == 'o';
    assert reply[1..] == "k:" + user && reply[1..][1..] == ":" + user && (":" + user)[1..] == user;
    assert CutColon(":" + user).after == user;
    assert CutColon("k:" + user).after == user;
  }

  datatype PollStatus = PollExpired | PollPending | PollCompleted | PollApproved(bundle: seq<Byte>) | PollBroken

  /** pollTransitionScript. */
  function ReadPoll(reply: string): PollStatus {
    if reply == "expired" then PollExpired
    else if reply == "pending" then PollPending
    else if reply == "completed" then PollCompleted
    else if "approved:" <= reply then
      match HexDecode(reply[|"approved:"|..])
      case Some(bundle) => PollApproved(bundle)
      case None => PollBroken
    else PollExpired
  }

  lemma PollReadsBack(bundle: seq<Byte>)
    ensures ReadPoll("approved:" + HexEncode(bundle)) == PollApproved(bundle)
  {
    var reply := "approved:" + HexEncode(bundle);
    assert reply[0] == 'a';
    assert reply[|"approved:"|..] == HexEncode(bundle);
    HexRoundTrip(bundle);
  }

  datatype CompleteStatus = Gone | AlreadyDone | Accepted(user: string, approver: string) | NotReady | Unknown

  /** completeTransitionScript. */
  function ReadComplete(reply: string): CompleteStatus {
    if reply == "expired" then Gone
    else if reply == "already_done" then AlreadyDone
    else if |reply| > 4 && reply[..3] == "ok:" then
      var cut := CutColon(reply[3..]);
      Accepted(cut.before, cut.after)
    else if "not_ready:" <= reply then NotReady
    else Unknown
  }

  lemma CompleteReadsBack(user: string, approver: string)
    requires user != ""
    ensures ReadComplete("ok:" + user + ":" + approver) == Accepted(user, approver) <==> ':' !in user
  {
    var reply := "ok:" + user + ":" + approver;
    assert reply[0] == 'o';
    assert reply[..3] == "ok:";
    assert reply[3..] == user + ":" + approver;
    CutReadsBack(user, approver);
    if CutColon(reply[3..]).before == user && CutColon(reply[3..]).after == approver {
      CutFound(reply[3..]);
    }
  }

  lemma {:induction false} CutFound(text: string)
    ensures CutColon(text).found <==> ':' in text
  {
    if text != "" && text[0] != ':' {
      CutFound(text[1..]);
      assert text == [text[0]] + text[1..];
    }
  }

  lemma NotReadyReadsBack(state: string)
    ensures ReadComplete("not_ready:" + state) == NotReady
  {
    var reply := "not_ready:" + state;
    assert reply[0] == 'n';
    assert reply[..3][0] == 'n';
  }

  /** Without user and approver the completion reply is too short to act on. */
  lemma NobodyIsUnknown()
    ensures ReadComplete("ok::") == Unknown && ReadComplete("ok:u:") == Accepted("u", "")
  {
    var short, long := "ok::", "ok:u:";
    assert short[0] == 'o' && long[0] == 'o' && short[..3] == "ok:" && long[..3] == "ok:";
    assert long[3..] == "u" + ":" + "";
    CutReadsBack("u", "");
  }
}
