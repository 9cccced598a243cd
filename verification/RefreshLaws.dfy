/**
 What each call on the refresh-token table leaves, said row by row, and that an honest device never loses
 its line of tokens.
 */
module RefreshLaws {
  import opened Common
  import opened RefreshTokens

  // milliseconds
  const DAY := 24 * 3600 * 1000

  /** Exactly the rows that `keep` selects are left, as they were. */
  ghost predicate Left(s: State, r: State, keep: (Token, Row) -> bool) {
    forall t ::
      && (t in r.stored <==> t in s.stored && keep(t, s.stored[t]))
      && (t in r.stored ==> r.stored[t] == s.stored[t])
  }

  /** A logout takes the rows of the user's one device and no others. */
  lemma LogoutLaw(s: State, user: string, device: string, now: int)
    ensures
      var (r, reply) := Step(s, Logout(user, device), now);
      && (reply == Done <==> device != "") && (reply == Failed <==> device == "")
      && Left(s, r, (t: Token, row: Row) => device == "" || row.user != user || row.device != device)
  {
  }

  /** The token that a call may add to the table, and its row: thirty days from now. */
  ghost predicate Adds(s: State, r: State, t: Token, user: string, device: string, now: int) {
    && t in r.stored && r.stored[t] == Row(user, device, now + 30 * DAY)
    && t.signed && t.isRefresh && t.user == user && t.device == device
    && t.exp <= now + 30 * DAY < t.exp + 1000
  }

  /** An issue adds one token, with the claim it was asked for, and touches no other row. */
  lemma IssueLaw(s: State, user: string, device: string, federated: bool, jti: string, storeOk: bool, now: int)
    ensures
      var (r, reply) := Step(s, Issue(user, device, federated, jti, storeOk), now);
      && (reply.Issued? <==> storeOk) && (reply == Failed <==> !storeOk)
      && (!storeOk ==> r.stored == s.stored)
      && (reply.Issued? ==>
            && Adds(s, r, reply.token, user, device, now)
            && reply.token.federated == federated && reply.token.jti == jti
            && r.stored - {reply.token} == s.stored - {reply.token})
  {
  }

  /** A recovery leaves exactly the old rows of other users and of kept devices, and adds one for the new device. */
  lemma RecoverLaw(s: State, user: string, keep: set<string>, device: string, jti: string, deviceOk: bool,
      storeOk: bool, now: int)
    ensures
      var (r, reply) := Step(s, Recover(user, keep, device, jti, deviceOk, storeOk), now);
      && (reply.Issued? <==> deviceOk && storeOk) && (reply == Failed <==> !(deviceOk && storeOk))
      && (reply == Failed ==> Left(s, r, (t: Token, row: Row) => row.user != user || row.device in keep))
      && (reply.Issued? ==>
            && Adds(s, r, reply.token, user, device, now) && !reply.token.federated && reply.token.jti == jti
            && forall t :: t != reply.token ==>
                 && (t in r.stored <==> t in s.stored && (s.stored[t].user != user || s.stored[t].device in keep))
                 && (t in r.stored ==> r.stored[t] == s.stored[t]))
  {
  }

  /** The token may be exchanged: signed, a refresh token with a user, unexpired, and its row lives. */
  predicate Good(s: State, t: Token, now: int) {
    t.signed && t.isRefresh && t.user != "" && now < t.exp && t in s.stored && now < s.stored[t].expires
  }

  /** A refresh gives back one token for one, for the row's user and device; a bad token changes nothing. */
  lemma RefreshLaw(s: State, t: Token, jti: string, storeOk: bool, now: int)
    ensures
      var (r, reply) := Step(s, Refresh(t, jti, storeOk), now);
      && (reply.Issued? <==> Good(s, t, now) && storeOk) && (reply == Failed <==> !(Good(s, t, now) && storeOk))
      && (!Good(s, t, now) ==> r == s)
      && (Good(s, t, now) && !storeOk ==> r.stored == s.stored - {t})
      && (reply.Issued? ==>
            && Adds(s, r, reply.token, s.stored[t].user, s.stored[t].device, now)
            && !reply.token.federated && reply.token.jti == jti
            && (reply.token != t ==> t !in r.stored)
            && r.stored - {reply.token} == s.stored - {t, reply.token})
  {
  }

  /** The same at the federated endpoint, for the user and device of the token's claims. */
  lemma FederationRefreshLaw(s: State, t: Token, assertionOk: bool, userMatches: bool, jti: string, storeOk: bool,
      now: int)
    ensures
      var (r, reply) := Step(s, FederationRefresh(t, assertionOk, userMatches, jti, storeOk), now);
      var good := Good(s, t, now) && assertionOk && userMatches;
      && (reply.Issued? <==> good && storeOk) && (reply == Failed <==> !(good && storeOk))
      && (!good ==> r == s)
      && (good && !storeOk ==> r.stored == s.stored - {t})
      && (reply.Issued? ==>
            && Adds(s, r, reply.token, t.user, t.device, now) && reply.token.federated && reply.token.jti == jti
            && (reply.token != t ==> t !in r.stored)
            && r.stored - {reply.token} == s.stored - {t, reply.token})
  {
  }

  /** The rows a call deletes without an exchange. */
  ghost predicate Deleted(s: State, c: Call, t: Token) {
    && t in s.stored
    && match c
       case Logout(user, device) => device != "" && s.stored[t].user == user && s.stored[t].device == device
       case Recover(user, keep, _, _, _, _) => s.stored[t].user == user && s.stored[t].device !in keep
       case _ => false
  }

  /** What each call writes on the books. */
  lemma BooksLaw(s: State, c: Call, now: int)
    ensures
      var (r, reply) := Step(s, c, now);
      && r.book.minted == s.book.minted + (if reply.Issued? then {reply.token} else {})
      && r.book.devices == s.book.devices + (if c.Issue? || c.Recover? then {c.device} else {})
      && (forall t :: t in r.book.revoked <==> t in s.book.revoked || Deleted(s, c, t))
  {
  }

  /**
   A device that exchanges its token before it ends always gets the next one: issued at `t0`, exchanged at
   `t1` and again at `t2`, each within thirty days less a second of the one before.
   */
  lemma HonestLine(s: State, user: string, device: string, t0: int, t1: int, t2: int, j0: string, j1: string,
      j2: string)
    requires user != "" && j0 != j1 && j1 != j2
    requires t0 <= t1 <= t0 + 30 * DAY - 1000 && t1 <= t2 <= t1 + 30 * DAY - 1000
    ensures
      var (s1, r1) := Step(s, Issue(user, device, false, j0, true), t0);
      && r1.Issued?
      && var (s2, r2) := Step(s1, Refresh(r1.token, j1, true), t1);
      && r2.Issued? && r2.token.user == user && r2.token.device == device
      && var r3 := Step(s2, Refresh(r2.token, j2, true), t2).1;
      r3.Issued? && r3.token.user == user && r3.token.device == device
  {
    IssueLaw(s, user, device, false, j0, true, t0);
    var (s1, r1) := Step(s, Issue(user, device, false, j0, true), t0);
    RefreshLaw(s1, r1.token, j1, true, t1);
    var (s2, r2) := Step(s1, Refresh(r1.token, j1, true), t1);
    RefreshLaw(s2, r2.token, j2, true, t2);
  }
}
