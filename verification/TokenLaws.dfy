/** What the token endpoint and the revocations do to the rows of tokens and sessions, and what
    no later run takes back: a code is redeemed once, a refresh token is used once, and what is
    revoked stays rejected by every reader. */
module TokenLaws {
  import opened Common
  import opened Tables
  import opened ServerRuns
  import opened Liveness
  import CascadeLaws
  import CodeLaws
  import Scopes
  import Text

  // ------------------------------------------------- what the readers look at

  /** Introspection of an access token, in a reachable state: its one row is unrevoked and
      unexpired and, unless it is a client's own, some active session holds the token. */
  lemma {:induction false} IntrospectsIff(st: State, t: string, now: int)
    requires Inv(st) && t in st.db.tokens
    ensures
      var row := st.db.tokens[t];
      Introspects(st.db, row.access, now) <==>
        row.revoked.None? && now <= row.accessExpires && (row.user.None? || HasSession(st.db, row.access))
  {
    var v := st.db.tokens[t].access;
    if Introspects(st.db, v, now) {
      var u :| Active(st.db, u, v, now);
      assert u == t;
    }
    assert TokenSecret(st.db.tokens[t], st.seen);
    assert Active(st.db, t, v, now) <==>
      st.db.tokens[t].revoked.None? && now <= st.db.tokens[t].accessExpires
      && (st.db.tokens[t].user.None? || HasSession(st.db, v));
  }

  /** Introspection of a refresh token asks the same of its row. */
  lemma {:induction false} RefreshIntrospectsIff(st: State, t: string, now: int)
    requires Inv(st) && t in st.db.tokens && st.db.tokens[t].user.Some?
    ensures Introspects(st.db, st.db.tokens[t].refresh, now) <==> Introspects(st.db, st.db.tokens[t].access, now)
  {
    var v, w := st.db.tokens[t].refresh, st.db.tokens[t].access;
    assert TokenSecret(st.db.tokens[t], st.seen);
    if Introspects(st.db, v, now) {
      var u :| Active(st.db, u, v, now);
      assert u == t;
      assert Active(st.db, t, w, now);
    }
    if Introspects(st.db, w, now) {
      var u :| Active(st.db, u, w, now);
      assert u == t;
      assert Active(st.db, t, v, now);
    }
  }

  /** The bearer check, in a reachable state: the row is unrevoked and some active session holds
      the token. It leaves the expiry to the signed token. */
  lemma {:induction false} BearerAcceptsIff(st: State, t: string)
    requires Inv(st) && t in st.db.tokens
    ensures
      var row := st.db.tokens[t];
      BearerAccepts(st.db, row.access) <==> row.revoked.None? && HasSession(st.db, row.access)
  {
    var v := st.db.tokens[t].access;
    assert BearerAccepts(st.db, v) ==> st.db.tokens[t].revoked.None?;
  }

  /** No reader accepts the value. */
  ghost predicate NoneAccepts(db: Db, v: string, now: int) {
    !BearerAccepts(db, v) && !Introspects(db, v, now)
  }

  lemma {:induction false} RevokedIsRejected(st: State, t: string, now: int)
    requires Inv(st) && t in st.db.tokens && st.db.tokens[t].revoked.Some?
    ensures NoneAccepts(st.db, st.db.tokens[t].access, now)
    ensures st.db.tokens[t].user.Some? ==> !Introspects(st.db, st.db.tokens[t].refresh, now)
  {
    IntrospectsIff(st, t, now);
    BearerAcceptsIff(st, t);
    if st.db.tokens[t].user.Some? {
      RefreshIntrospectsIff(st, t, now);
    }
  }

  /** Rejected once, an issued value is rejected by every later reader. */
  lemma {:induction false} StaysRejected(st: State, es: seq<Event>, v: string, later: int)
    requires Inv(st) && LegalRun(st, es) && v in st.seen && NoneAccepts(st.db, v, st.clock) && st.clock <= later
    ensures NoneAccepts(Run(st, es).db, v, later)
  {
    DeadStaysDead(st, es, v, st.clock, later);
  }

  /** A step that revokes a row ends its access token for good. */
  lemma {:induction false} RevokedForGood(st: State, es: seq<Event>, t: string, later: int)
    requires Inv(st) && LegalRun(st, es) && t in st.db.tokens && st.db.tokens[t].revoked.Some? && st.clock <= later
    ensures NoneAccepts(Run(st, es).db, st.db.tokens[t].access, later)
    ensures st.db.tokens[t].user.Some? ==> !Introspects(Run(st, es).db, st.db.tokens[t].refresh, later)
  {
    RevokedIsRejected(st, t, st.clock);
    assert TokenSecret(st.db.tokens[t], st.seen);
    StaysRejected(st, es, st.db.tokens[t].access, later);
    if st.db.tokens[t].user.Some? {
      DeadStaysDead(st, es, st.db.tokens[t].refresh, st.clock, later);
    }
  }

  // ------------------------------------------------------ rows over whole runs

  /** As long as the row is there, it is the old one, and no stamp is taken back. */
  ghost predicate TokenStill(a: Db, b: Db, t: string) {
    t in b.tokens ==>
      && t in a.tokens && b.tokens[t] == a.tokens[t].(revoked := b.tokens[t].revoked)
      && (a.tokens[t].revoked.Some? ==> b.tokens[t].revoked.Some?)
  }

  ghost predicate SessionStill(a: Db, b: Db, x: string) {
    x in b.sessions ==>
      && x in a.sessions && b.sessions[x] == a.sessions[x].(deactivated := b.sessions[x].deactivated)
      && (a.sessions[x].deactivated.Some? ==> b.sessions[x].deactivated.Some?)
  }

  ghost predicate Still(a: Db, b: Db, key: string) {
    TokenStill(a, b, key) && SessionStill(a, b, key)
  }

  lemma {:induction false} QuietStill(a: Db, b: Db, key: string)
    requires Quiet(a, b)
    ensures Still(a, b, key)
  {
  }

  lemma {:induction false} IssueStill(a: Db, b: Db, user: Option<string>, idp: Option<string>, grant: Grant,
                                      scope: string, p: Pair, key: string)
    requires Still(a, b, key) && key != p.tokenId && key != p.sessionId
    ensures Still(a, Issue(b, user, idp, grant, scope, p), key)
  {
  }

  lemma {:induction false} FinishStill(db: Db, prepared: Prepared, p: Pair, key: string)
    requires Quiet(db, prepared.db) && key != p.tokenId && key != p.sessionId
    ensures Still(db, Finish(prepared, p), key)
  {
    hide Still, Quiet;
    QuietStill(db, prepared.db, key);
    if prepared.Ready? {
      IssueStill(db, prepared.db, Some(prepared.user), prepared.idp, prepared.grant, prepared.scope, p, key);
    }
  }

  lemma {:induction false} OldKey(st: State, e: Event, key: string)
    requires Legal(st, e) && key in st.seen && Pairs(e.op) != {}
    ensures key != e.op.pair.tokenId && key != e.op.pair.sessionId
  {
    LegalPair(st, e);
    PairMembers(st, e.op.pair);
  }

  lemma {:induction false} PairStepStill(st: State, e: Event, key: string)
    requires Legal(st, e) && key in st.seen && Pairs(e.op) != {}
    ensures Still(st.db, Step(st, e).db, key)
  {
    hide Still, Quiet, Legal;
    OldKey(st, e, key);
    match e.op
    case Redeem(code, checks, p) =>
      RedeemIsQuiet(st.db, code, checks, e.now);
      FinishStill(st.db, PrepareRedeem(st.db, code, checks, e.now), p, key);
    case Refresh(jwt, checks, p) =>
      RefreshIsQuiet(st.db, jwt, checks, e.now);
      FinishStill(st.db, PrepareRefresh(st.db, jwt, checks, e.now), p, key);
    case IssueToUser(user, scope, p) =>
      SameStill(st.db, st.db, key);
      IssueStill(st.db, st.db, Some(user), None, OtherGrant, scope, p, key);
    case IssueToClient(scope, p) =>
      SameStill(st.db, st.db, key);
      IssueStill(st.db, st.db, None, None, ClientCredentials, scope, p, key);
    case _ =>
  }

  lemma {:induction false} SameStill(a: Db, b: Db, key: string)
    requires a.tokens == b.tokens && a.sessions == b.sessions
    ensures Still(a, b, key)
  {
  }

  lemma {:induction false} StepStill(st: State, e: Event, key: string)
    requires Legal(st, e) && key in st.seen
    ensures Still(st.db, Step(st, e).db, key)
  {
    hide Still, Quiet, Legal;
    if Pairs(e.op) != {} {
      PairStepStill(st, e, key);
    } else if e.op.Login? || e.op.LoginWithCode? || e.op.SignOn? || e.op.PostConsent? {
      LoginStepsAside(st.cfg, st.db, e.now, e.op);
      SameStill(st.db, Step(st, e).db, key);
    } else {
      QuietStep(st.cfg, st.db, e.now, e.op);
      QuietStill(st.db, Step(st, e).db, key);
    }
  }

  lemma {:induction false} StillTransitive(a: Db, b: Db, c: Db, key: string)
    requires Still(a, b, key) && Still(b, c, key)
    ensures Still(a, c, key)
  {
  }

  lemma {:induction false} RunStill(st: State, es: seq<Event>, key: string)
    requires LegalRun(st, es) && key in st.seen
    ensures Still(st.db, Run(st, es).db, key)
    decreases |es|
  {
    hide Still;
    if es == [] {
      SameStill(st.db, st.db, key);
    } else {
      StepStill(st, es[0], key);
      RunStill(Step(st, es[0]), es[1..], key);
      StillTransitive(st.db, Step(st, es[0]).db, Run(st, es).db, key);
    }
  }

  // ----------------------------------------------------------- a pair is issued

  /** The rows of a stored pair, field by field; every other row stays. */
  lemma {:induction false} IssuedRows(db: Db, user: string, idp: Option<string>, grant: Grant, scope: string, p: Pair)
    requires p.Stored() && p.tokenId !in db.tokens && p.sessionId !in db.sessions
    ensures
      var after := Issue(db, Some(user), idp, grant, scope, p);
      && after.idps == db.idps && after.codes == db.codes && after.consents == db.consents
      && after.tokens.Keys == db.tokens.Keys + {p.tokenId} && after.sessions.Keys == db.sessions.Keys + {p.sessionId}
      && (forall t :: t in db.tokens ==> after.tokens[t] == db.tokens[t])
      && (forall x :: x in db.sessions ==> after.sessions[x] == db.sessions[x])
    ensures
      var t := Issue(db, Some(user), idp, grant, scope, p).tokens[p.tokenId];
      && t.user == Some(user) && t.access == p.access && t.refresh == p.refresh && t.grant == grant && t.scope == scope
      && t.accessExpires == p.accessExpires && t.refreshExpires == p.refreshExpires && t.revoked.None?
    ensures
      var x := Issue(db, Some(user), idp, grant, scope, p).sessions[p.sessionId];
      && x.user == user && x.access == p.access && x.refresh == p.refresh && x.expires == p.accessExpires
      && x.idp == idp && x.deactivated.None?
  {
  }

  /** What a failing write leaves: nothing, or the token row alone, which no reader accepts; and
      a client's own token, which has no session and no refresh token. */
  lemma {:induction false} PartlyIssued(db: Db, user: Option<string>, idp: Option<string>, grant: Grant, scope: string,
                                        p: Pair)
    ensures
      var after := Issue(db, user, idp, grant, scope, p);
      && (!p.generated || !p.tokenStored ==> after == db)
      && (user.None? || !p.sessionStored ==> after == db.(tokens := after.tokens))
      && (p.generated && p.tokenStored && user.None? ==>
            p.tokenId in after.tokens && after.tokens[p.tokenId].access == p.access
            && after.tokens[p.tokenId].user.None? && after.tokens[p.tokenId].refresh == ""
            && after.tokens[p.tokenId].accessExpires == after.tokens[p.tokenId].refreshExpires == p.accessExpires
            && after.tokens[p.tokenId].revoked.None?)
  {
  }

  /** The answer says what was stored: tokens are answered exactly if the rows are there and,
      for a scope with `openid`, the ID token is signed. */
  lemma {:induction false} AnswerTellsStored(db: Db, user: string, idp: Option<string>, grant: Grant, scope: string,
                                             p: Pair)
    requires p.tokenId !in db.tokens && p.sessionId !in db.sessions
    ensures
      var a, after := IssueAnswer(true, scope, p), Issue(db, Some(user), idp, grant, scope, p);
      && (a == TokenNotStored <==> p.generated && !p.tokenStored)
      && (a == SessionNotStored <==> p.tokenId in after.tokens && !p.sessionStored)
      && (a.TokensIssued? ==> a.scope == scope && p.tokenId in after.tokens && p.sessionId in after.sessions)
      && (a == NotGenerated ==> after == db || (p.sessionId in after.sessions && !p.idSigned))
      && (p.Stored() && p.idSigned ==> a == TokensIssued(scope))
  {
  }

  /** The ID token goes with a scope that has the word `openid`; if signing it fails the rows are
      there and the answer is an error. */
  lemma {:induction false} IdTokenIff(words: seq<string>, p: Pair)
    requires words != [] && Text.AreWords(words) && p.Stored()
    ensures
      var scope := Text.Join(words, " ");
      && (WantsId(scope) <==> "openid" in words)
      && IssueAnswer(true, scope, p) == if "openid" in words && !p.idSigned then NotGenerated else TokensIssued(scope)
  {
    forall i | 0 <= i < |words| ensures ' ' !in words[i] {
      assert Text.IsWord(words[i]) && Text.IsSpace(' ');
    }
    Text.SplitOfJoin(words, ' ');
  }

  /** A new pair works: both readers accept its access token until it expires, and the refresh
      token that goes with it is not turned down. */
  lemma {:induction false} NewPairWorks(st: State, user: string, idp: Option<string>, grant: Grant, scope: string,
                                        p: Pair, now: int)
    requires Inv(st) && NewPairFor(st, p) && p.Stored()
    ensures
      var after := Issue(st.db, Some(user), idp, grant, scope, p);
      && BearerAccepts(after, p.access)
      && (now <= p.accessExpires ==> Introspects(after, p.access, now))
      && (now < RefreshJwt(p).expires ==>
            RefreshRejection(after, RefreshJwt(p), RefreshChecks(true, true, true, true, ""), now).None?)
  {
    PairMembers(st, p);
    IssuedRows(st.db, user, idp, grant, scope, p);
    var after := Issue(st.db, Some(user), idp, grant, scope, p);
    assert HasSession(after, p.access);
    assert after.tokens[p.tokenId].access == p.access;
    assert now <= p.accessExpires ==> Active(after, p.tokenId, p.access, now);
    forall t | t in st.db.tokens ensures st.db.tokens[t].refresh != p.refresh {
      assert TokenSecret(st.db.tokens[t], st.seen);
    }
    assert !AnyRevoked(after.tokens, p.refresh);
  }

  /** Passwords and device codes issue to the user without a login and under a grant of their own,
      which no replayed code revokes; a client's own token has no user. */
  lemma {:induction false} DirectGrants(st: State, e: Event)
    requires (e.op.IssueToUser? || e.op.IssueToClient?) && e.op.pair.generated && e.op.pair.tokenStored
    ensures
      var p, after := e.op.pair, Step(st, e).db;
      && p.tokenId in after.tokens && after.tokens[p.tokenId].scope == e.op.scope
      && after.tokens[p.tokenId].grant != AuthorizationCode
      && (e.op.IssueToClient? <==> after.tokens[p.tokenId].grant == ClientCredentials)
      && after.tokens[p.tokenId].user == (if e.op.IssueToUser? then Some(e.op.user) else None)
      && (e.op.IssueToUser? && p.sessionStored ==>
            p.sessionId in after.sessions && after.sessions[p.sessionId].idp.None?
            && after.sessions[p.sessionId].user == e.op.user)
  {
  }

  /** A refresh token expires with its row, rounded down to a second. */
  lemma {:induction false} JwtExpiry(p: Pair)
    ensures RefreshJwt(p).expires % SECOND == 0
    ensures RefreshJwt(p).expires <= p.refreshExpires < RefreshJwt(p).expires + SECOND
    ensures RefreshJwt(p).session == p.sessionId && RefreshJwt(p).refresh == p.refresh
  {
  }

  // ------------------------------------------------------- redeeming a code

  /** The answer to a redemption and the tables it leaves when no pair is issued, case by case. */
  lemma {:induction false} RedeemAnswers(db: Db, code: string, checks: RedeemChecks, now: int, p: Pair)
    ensures
      var answer, after := FinishAnswer(PrepareRedeem(db, code, checks, now), p),
          Finish(PrepareRedeem(db, code, checks, now), p);
      && (code !in db.codes ==> answer == InvalidCode && after == db)
      && (code in db.codes && !db.codes[code].used ==>
            && (now > db.codes[code].expires || !checks.redirect <==> answer == InvalidCode)
            && (answer == InvalidCode ==> after == db)
            && (answer == WrongClient ==> !checks.client && after == db)
            && (answer == WrongVerifier ==> checks.client && !checks.verifier && after == db)
            && (answer == NotMarked ==> checks.client && checks.verifier && !checks.marked && after == db))
  {
  }

  predicate AllGood(checks: RedeemChecks) {
    checks.redirect && checks.client && checks.verifier && checks.marked && checks.user
  }

  /** A pair is prepared exactly for an unused code that has not expired, if every check passes;
      it is for the code's user, login and scope, and the code is marked. */
  lemma {:induction false} RedeemsIff(db: Db, code: string, checks: RedeemChecks, now: int)
    ensures
      var prepared := PrepareRedeem(db, code, checks, now);
      && (prepared.Ready? <==>
            code in db.codes && !db.codes[code].used && now <= db.codes[code].expires && AllGood(checks))
      && (prepared.Ready? ==>
            && prepared.user == db.codes[code].user && prepared.idp == db.codes[code].idp
            && prepared.scope == db.codes[code].scope && prepared.grant == AuthorizationCode
            && prepared.db == db.(codes := db.codes[code := db.codes[code].(used := true)]))
  {
  }

  /** A replayed code ends what was issued to its user by codes: exactly those token rows are
      revoked, and no other row of any table changes. */
  lemma {:induction false} ReplayRevokes(db: Db, code: string, checks: RedeemChecks, now: int, p: Pair)
    requires code in db.codes && db.codes[code].used
    ensures
      var after, user := Finish(PrepareRedeem(db, code, checks, now), p), db.codes[code].user;
      && FinishAnswer(PrepareRedeem(db, code, checks, now), p) == CodeReused
      && after == db.(tokens := after.tokens) && after.tokens.Keys == db.tokens.Keys
      && forall t :: t in db.tokens ==>
           if db.tokens[t].user == Some(user) && db.tokens[t].grant == AuthorizationCode
           then after.tokens[t].revoked.Some? && after.tokens[t].(revoked := None) == db.tokens[t].(revoked := None)
           else after.tokens[t] == db.tokens[t]
  {
  }

  /** So no reader accepts any of them again, in any run. */
  lemma {:induction false} ReplayIsForever(st: State, e: Event, es: seq<Event>, t: string, later: int)
    requires Inv(st) && Legal(st, e) && e.op.Redeem? && LegalRun(Step(st, e), es) && e.now <= later
    requires e.op.code in st.db.codes && st.db.codes[e.op.code].used
    requires t in st.db.tokens && st.db.tokens[t].grant == AuthorizationCode
    requires st.db.tokens[t].user == Some(st.db.codes[e.op.code].user)
    ensures NoneAccepts(Run(Step(st, e), es).db, st.db.tokens[t].access, later)
    ensures !Introspects(Run(Step(st, e), es).db, st.db.tokens[t].refresh, later)
  {
    hide Inv, PrepareRedeem, Finish, Legal;
    StepKeepsInv(st, e);
    RedeemStep(st, e);
    ReplayRevokes(st.db, e.op.code, e.op.redeemChecks, e.now, e.op.pair);
    RevokedForGood(Step(st, e), es, t, later);
  }

  /** A code stays used as long as its row is there. */
  lemma {:induction false} UsedStaysUsed(st: State, es: seq<Event>, c: string)
    requires LegalRun(st, es) && c in st.seen && (c in st.db.codes ==> st.db.codes[c].used)
    ensures c in Run(st, es).db.codes ==> Run(st, es).db.codes[c].used
    decreases |es|
  {
    if es != [] {
      CodeLaws.StepMovesCodesOn(st, es[0], c);
      UsedStaysUsed(Step(st, es[0]), es[1..], c);
    }
  }

  /** One code, one pair: after a redemption that got as far as marking the code, no redemption
      of it in any later run issues anything. */
  lemma {:induction false} OnePairPerCode(st: State, e: Event, es: seq<Event>, again: Event)
    requires Inv(st) && Legal(st, e) && LegalRun(Step(st, e), es)
    requires e.op.Redeem? && again.op.Redeem? && again.op.code == e.op.code
    requires PrepareRedeem(st.db, e.op.code, e.op.redeemChecks, e.now).Ready?
    ensures
      var end := Run(Step(st, e), es).db;
      var prepared := PrepareRedeem(end, again.op.code, again.op.redeemChecks, again.now);
      prepared.Rejected? && prepared.answer == if e.op.code in end.codes then CodeReused else InvalidCode
  {
    var c, checks, p := e.op.code, e.op.redeemChecks, e.op.pair;
    RedeemsIff(st.db, c, checks, e.now);
    RedeemStep(st, e);
    CodeLaws.RedeemAside(st.db, c, checks, e.now, p);
    assert c in st.seen;
    UsedStaysUsed(Step(st, e), es, c);
  }

  // --------------------------------------------------- using a refresh token

  /** A refresh is not turned down exactly if it comes in time from its own client, its session is
      active, no row of its token is revoked, its user is there and, if it has a row, the second
      factor is in order. */
  lemma {:induction false} RefreshPassesIff(db: Db, jwt: Jwt, checks: RefreshChecks, now: int)
    ensures RefreshRejection(db, jwt, checks, now).None? <==>
      && now < jwt.expires && jwt.session in db.sessions && db.sessions[jwt.session].deactivated.None?
      && checks.client && checks.user
      && forall t :: t in db.tokens && db.tokens[t].refresh == jwt.refresh ==> db.tokens[t].revoked.None? && checks.mfa
  {
    hide SECOND;
    assert AnyRevoked(db.tokens, jwt.refresh) ==> AnyToken(db.tokens, jwt.refresh);
  }

  /** Otherwise the first check that fails is answered. */
  lemma {:induction false} RefreshRejections(db: Db, jwt: Jwt, checks: RefreshChecks, now: int)
    ensures
      var reason := RefreshRejection(db, jwt, checks, now);
      && (now >= jwt.expires <==> reason == Some(InvalidRefresh))
      && (now < jwt.expires && jwt.session !in db.sessions <==> reason == Some(SessionGone))
      && (now < jwt.expires && jwt.session in db.sessions ==>
            && (db.sessions[jwt.session].deactivated.Some? <==> reason == Some(SessionOver))
            && (db.sessions[jwt.session].deactivated.None? && !checks.client <==> reason == Some(WrongClient))
            && (reason == Some(UserUnknown) ==> checks.client && !checks.user)
            && (reason == Some(MfaNeeded) ==> checks.client && checks.user && !checks.mfa))
  {
  }

  /** The bump: the login, if it is active, was last used now; nothing else changes. */
  lemma {:induction false} BumpSets(db: Db, login: string, now: int)
    ensures
      var after := Bumped(db, Some(login), now);
      && after == db.(idps := after.idps) && after.idps.Keys == db.idps.Keys && Bumped(db, None, now) == db
      && forall i :: i in db.idps ==>
           if i == login && db.idps[i].deactivated.None?
           then after.idps[i].lastActivity == now
             && after.idps[i].(lastActivity := 0) == db.idps[i].(lastActivity := 0)
           else after.idps[i] == db.idps[i]
  {
  }

  /** The rotation revokes the rows of the refresh token and no others. */
  lemma {:induction false} RotationRevokes(db: Db, refresh: string, idp: Option<string>, now: int)
    ensures
      var after := Rotated(db, refresh, idp, now);
      && after.idps == Bumped(db, idp, now).idps && after.sessions == db.sessions && after.codes == db.codes
      && after.tokens.Keys == db.tokens.Keys
      && forall t :: t in db.tokens ==>
           if db.tokens[t].refresh == refresh
           then after.tokens[t].revoked.Some? && after.tokens[t].(revoked := None) == db.tokens[t].(revoked := None)
           else after.tokens[t] == db.tokens[t]
  {
  }

  /** What a refresh that is not turned down comes to. Without the rotation only the bump is left;
      with it the old rows are revoked, also if the scope is refused. */
  lemma {:induction false} RefreshOutcome(db: Db, jwt: Jwt, checks: RefreshChecks, now: int)
    requires RefreshRejection(db, jwt, checks, now).None?
    ensures
      var prepared, x := PrepareRefresh(db, jwt, checks, now), db.sessions[jwt.session];
      if !checks.rotated then prepared == Rejected(Bumped(db, x.idp, now), NotRotated)
      else
        && prepared.db == Rotated(db, jwt.refresh, x.idp, now)
        && (prepared.Rejected? ==> prepared.answer == ScopeExceeded)
        && (prepared.Ready? ==>
              prepared.user == x.user && prepared.idp == x.idp && prepared.grant == Grant.RefreshToken)
  {
  }

  /** The scope of a refresh: that of its token row if none is requested, the requested one if it
      lies within, and otherwise a refusal. */
  lemma {:induction false} RefreshScopes(db: Db, jwt: Jwt, checks: RefreshChecks, now: int, t: string)
    requires RefreshRejection(db, jwt, checks, now).None? && checks.rotated
    requires OneTokenRow(db.tokens, jwt.refresh) && t in db.tokens && db.tokens[t].refresh == jwt.refresh
    ensures
      var prepared, granted := PrepareRefresh(db, jwt, checks, now), db.tokens[t].scope;
      && (checks.scope == "" ==> prepared.Ready? && prepared.scope == granted)
      && (checks.scope != "" ==>
            (prepared.Ready? <==> forall w :: w in Scopes.ScopeSet(checks.scope) ==> w in Scopes.ScopeSet(granted))
            && (prepared.Ready? ==> prepared.scope == checks.scope))
  {
    ScopeOfRow(db.tokens, jwt.refresh, t);
  }

  /** A refresh whose token row is revoked is a replay: it ends every token of the user, and
      changes nothing else. */
  lemma {:induction false} RefreshReplayRevokes(db: Db, jwt: Jwt, checks: RefreshChecks, now: int, p: Pair)
    requires RefreshRejection(db, jwt, checks, now) == Some(Replayed)
    ensures
      var after, user := Finish(PrepareRefresh(db, jwt, checks, now), p), db.sessions[jwt.session].user;
      && FinishAnswer(PrepareRefresh(db, jwt, checks, now), p) == Replayed
      && after == db.(tokens := after.tokens) && after.tokens.Keys == db.tokens.Keys
      && forall t :: t in db.tokens ==>
           if db.tokens[t].user == Some(user)
           then after.tokens[t].revoked.Some? && after.tokens[t].(revoked := None) == db.tokens[t].(revoked := None)
           else after.tokens[t] == db.tokens[t]
  {
  }

  /** A used refresh token, presented again, is turned down. */
  lemma {:induction false} SpentIsTurnedDown(db: Db, jwt: Jwt, checks: RefreshChecks, now: int, t: string)
    requires t in db.tokens && db.tokens[t].refresh == jwt.refresh && db.tokens[t].revoked.Some?
    ensures PrepareRefresh(db, jwt, checks, now).Rejected?
    ensures
      now < jwt.expires && jwt.session in db.sessions && db.sessions[jwt.session].deactivated.None? && checks.client ==>
        RefreshRejection(db, jwt, checks, now) == Some(Replayed)
  {
    assert AnyRevoked(db.tokens, jwt.refresh);
  }

  /** A refresh that passes its checks revokes its own token row, so that right after it the same
      token is a replay. */
  lemma {:induction false} RefreshUsesUp(st: State, e: Event, t: string, again: RefreshChecks, later: int)
    requires Inv(st) && Legal(st, e) && e.op.Refresh? && e.op.refreshChecks.rotated
    requires RefreshRejection(st.db, e.op.jwt, e.op.refreshChecks, e.now).None?
    requires t in st.db.tokens && st.db.tokens[t].refresh == e.op.jwt.refresh
    ensures t in Step(st, e).db.tokens && Step(st, e).db.tokens[t].revoked.Some?
    ensures Step(st, e).db.tokens[t].refresh == e.op.jwt.refresh
    ensures later < e.op.jwt.expires && again.client ==>
      RefreshRejection(Step(st, e).db, e.op.jwt, again, later) == Some(Replayed)
  {
    hide Links, Secrets, Legal, PrepareRefresh, Finish, Rotated;
    var jwt, p := e.op.jwt, e.op.pair;
    var prepared := PrepareRefresh(st.db, jwt, e.op.refreshChecks, e.now);
    RefreshStep(st, e);
    RefreshOutcome(st.db, jwt, e.op.refreshChecks, e.now);
    RotationRevokes(st.db, jwt.refresh, st.db.sessions[jwt.session].idp, e.now);
    RowKeysSeen(st);
    RefreshPassesIff(st.db, jwt, e.op.refreshChecks, e.now);
    KeepsOldRows(st, e, prepared, t);
    KeepsOldRows(st, e, prepared, jwt.session);
    SpentIsTurnedDown(Step(st, e).db, jwt, again, later, t);
  }

  lemma {:induction false} RowKeysSeen(st: State)
    requires Inv(st)
    ensures st.db.tokens.Keys + st.db.sessions.Keys <= st.seen
  {
  }

  lemma {:induction false} KeepsOldRows(st: State, e: Event, prepared: Prepared, key: string)
    requires Legal(st, e) && Pairs(e.op) != {} && key in st.seen
    ensures key in prepared.db.tokens ==>
      key in Finish(prepared, e.op.pair).tokens && Finish(prepared, e.op.pair).tokens[key] == prepared.db.tokens[key]
    ensures key in prepared.db.sessions ==>
      key in Finish(prepared, e.op.pair).sessions
      && Finish(prepared, e.op.pair).sessions[key] == prepared.db.sessions[key]
  {
    OldKey(st, e, key);
  }

  lemma {:induction false} FinishKeepsTokens(prepared: Prepared, p: Pair)
    ensures prepared.db.tokens.Keys <= Finish(prepared, p).tokens.Keys
  {
  }

  lemma {:induction false} PrepareKeepsTokens(db: Db, now: int)
    ensures forall code, checks :: PrepareRedeem(db, code, checks, now).db.tokens.Keys == db.tokens.Keys
    ensures forall jwt, checks :: PrepareRefresh(db, jwt, checks, now).db.tokens.Keys == db.tokens.Keys
  {
    hide RefreshRejection, ScopeOf, ScopeFits, EffectiveScope;
  }

  /** Only the cleaner and the deletion of the user take a token row away. */
  lemma {:induction false} TokenRowsStay(st: State, e: Event)
    requires !e.op.Cleanup? && !e.op.HardDelete?
    ensures st.db.tokens.Keys <= Step(st, e).db.tokens.Keys
  {
    hide PrepareRedeem, PrepareRefresh, Finish, AutoLogin, ConsentPost;
    PrepareKeepsTokens(st.db, e.now);
    if e.op.Redeem? {
      RedeemStep(st, e);
      FinishKeepsTokens(PrepareRedeem(st.db, e.op.code, e.op.redeemChecks, e.now), e.op.pair);
    } else if e.op.Refresh? {
      RefreshStep(st, e);
      FinishKeepsTokens(PrepareRefresh(st.db, e.op.jwt, e.op.refreshChecks, e.now), e.op.pair);
    } else if e.op.Login? || e.op.LoginWithCode? || e.op.SignOn? || e.op.PostConsent? {
      LoginStepsAside(st.cfg, st.db, e.now, e.op);
    }
  }

  lemma {:induction false} KeptByDeletions(db: Db, tables: seq<Swept>, skipped: set<Swept>, threshold: int, t: string)
    requires t in db.tokens && db.tokens[t].refreshExpires >= threshold
    ensures t in DeleteAll(db, tables, skipped, threshold).tokens
    ensures DeleteAll(db, tables, skipped, threshold).tokens[t].refreshExpires >= threshold
    decreases |tables|
  {
    if tables != [] {
      KeptByDeletions(db, tables[..|tables| - 1], skipped, threshold, t);
    }
  }

  /** A sweep takes no token row away. */
  lemma {:induction false} SweepsKeepToken(db: Db, cfg: Config, now: int, done: set<string>, t: string)
    requires t in db.tokens
    ensures t in IdleSwept(db, cfg, now, done).tokens && t in AgedSwept(db, cfg, now, done).tokens
    ensures IdleSwept(db, cfg, now, done).tokens[t].refreshExpires == db.tokens[t].refreshExpires
    ensures AgedSwept(db, cfg, now, done).tokens[t].refreshExpires == db.tokens[t].refreshExpires
  {
    hide CascadeAll;
    CascadeLaws.CascadeChangesExactly(db, IdleIds(db.idps, now - cfg.idle) * done, now);
    CascadeLaws.CascadeChangesExactly(db, AgedIds(db.idps, now - cfg.maxAge) * done, now);
  }

  lemma {:induction false} KeptByTick(st: State, e: Event, t: string)
    requires e.op.Cleanup? && t in st.db.tokens && st.db.tokens[t].refreshExpires >= e.now - e.op.retention
    ensures t in Step(st, e).db.tokens
  {
    hide IdleSwept, AgedSwept, DeleteAll;
    var op := e.op;
    var db1 := IdleSwept(st.db, st.cfg, e.now, op.idleDone);
    SweepsKeepToken(st.db, st.cfg, e.now, op.idleDone, t);
    SweepsKeepToken(db1, st.cfg, e.now, op.agedDone, t);
    KeptByDeletions(AgedSwept(db1, st.cfg, e.now, op.agedDone), TRANSIENT_TABLES, op.skipped, e.now - op.retention, t);
  }

  lemma {:induction false} KeptByDeletionOfOthers(st: State, e: Event, t: string)
    requires e.op.HardDelete? && t in st.db.tokens && st.db.tokens[t].user != Some(e.op.user)
    ensures t in Step(st, e).db.tokens
  {
  }

  /** With a retention that is not negative the row of a refresh token is there until it expires,
      unless its user is deleted. */
  lemma {:induction false} TokenRowLasts(st: State, es: seq<Event>, t: string, user: string)
    requires LegalRun(st, es) && t in st.seen && t in st.db.tokens && st.db.tokens[t].user == Some(user)
    requires CodeLaws.KeepsUser(es, user, 0) && Run(st, es).clock <= st.db.tokens[t].refreshExpires
    ensures t in Run(st, es).db.tokens
    decreases |es|
  {
    if es != [] {
      var e, next := es[0], Step(st, es[0]);
      ClockAdvances(next, es[1..]);
      StepStill(st, e, t);
      if e.op.Cleanup? {
        KeptByTick(st, e, t);
      } else if e.op.HardDelete? {
        KeptByDeletionOfOthers(st, e, t);
      } else {
        TokenRowsStay(st, e);
      }
      assert forall i :: 0 <= i < |es[1..]| ==> es[1..][i] == es[i + 1];
      TokenRowLasts(next, es[1..], t, user);
    }
  }

  /** One pair per refresh token: after a refresh that passed its checks and rotated, no refresh
      with the same token in any later run issues anything, as long as the token row is there. */
  lemma {:induction false} SpentStaysSpent(st: State, e: Event, es: seq<Event>, t: string, again: Event)
    requires Inv(st) && Legal(st, e) && LegalRun(Step(st, e), es)
    requires e.op.Refresh? && e.op.refreshChecks.rotated && again.op.Refresh? && again.op.jwt == e.op.jwt
    requires RefreshRejection(st.db, e.op.jwt, e.op.refreshChecks, e.now).None?
    requires t in st.db.tokens && st.db.tokens[t].refresh == e.op.jwt.refresh && t in Run(Step(st, e), es).db.tokens
    ensures PrepareRefresh(Run(Step(st, e), es).db, again.op.jwt, again.op.refreshChecks, again.now).Rejected?
  {
    RefreshUsesUp(st, e, t, again.op.refreshChecks, again.now);
    RunStill(Step(st, e), es, t);
    SpentIsTurnedDown(Run(Step(st, e), es).db, again.op.jwt, again.op.refreshChecks, again.now, t);
  }

  /** And the row is there for as long as the token could be used at all, if the retention is not
      negative and the user is not deleted: then the second refresh never issues anything. */
  lemma {:induction false} OnePairPerRefreshToken(st: State, e: Event, es: seq<Event>, t: string, again: Event)
    requires Inv(st) && Legal(st, e) && LegalRun(Step(st, e), es) && Run(Step(st, e), es).clock <= again.now
    requires e.op.Refresh? && e.op.refreshChecks.rotated && again.op.Refresh? && again.op.jwt == e.op.jwt
    requires RefreshRejection(st.db, e.op.jwt, e.op.refreshChecks, e.now).None?
    requires t in st.db.tokens && st.db.tokens[t].refresh == e.op.jwt.refresh
    requires CodeLaws.KeepsUser(es, st.db.sessions[e.op.jwt.session].user, 0)
    ensures PrepareRefresh(Run(Step(st, e), es).db, again.op.jwt, again.op.refreshChecks, again.now).Rejected?
  {
    hide Legal, PrepareRefresh, LegalRun, RefreshRejection;
    var jwt := e.op.jwt;
    RefreshPassesIff(st.db, jwt, e.op.refreshChecks, e.now);
    if again.now < jwt.expires {
      SpentRow(st, e, t);
      TokenRowLasts(Step(st, e), es, t, st.db.sessions[jwt.session].user);
      SpentStaysSpent(st, e, es, t, again);
    } else {
      RefreshTooLate(Run(Step(st, e), es).db, jwt, again.op.refreshChecks, again.now);
    }
  }

  lemma {:induction false} RefreshTooLate(db: Db, jwt: Jwt, checks: RefreshChecks, now: int)
    requires now >= jwt.expires
    ensures PrepareRefresh(db, jwt, checks, now) == Rejected(db, InvalidRefresh)
  {
  }

  /** The row of a refresh token right after it was used. */
  lemma {:induction false} SpentRow(st: State, e: Event, t: string)
    requires Inv(st) && Legal(st, e) && e.op.Refresh? && e.op.jwt.session in st.db.sessions
    requires RefreshRejection(st.db, e.op.jwt, e.op.refreshChecks, e.now).None? && e.op.refreshChecks.rotated
    requires t in st.db.tokens && st.db.tokens[t].refresh == e.op.jwt.refresh
    ensures
      var after := Step(st, e);
      && t in after.seen && t in after.db.tokens && e.op.jwt.expires <= after.db.tokens[t].refreshExpires
      && after.db.tokens[t].user == Some(st.db.sessions[e.op.jwt.session].user)
  {
    RefreshUsesUp(st, e, t, e.op.refreshChecks, e.now);
    StepStill(st, e, t);
    PriorRowIsOwn(st, e.op.jwt);
    assert JwtSecret(st.db, e.op.jwt, st.seen);
  }
}
