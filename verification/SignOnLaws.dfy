/** Browser logins, auto-login, consent decisions and the codes that come of them: when a request
    is answered with a code, what the code says, and that it dies with its login. */
module SignOnLaws {
  import opened Common
  import opened Tables
  import opened ServerRuns
  import opened Liveness
  import opened TokenLaws
  import CascadeLaws
  import CodeLaws
  import Scopes
  import Text

  // ------------------------------------------------------- who is signed on

  /** The login of the cookie is there and has not ended. */
  predicate SignedIn(db: Db, cookie: string) {
    cookie != "" && cookie in db.idps && db.idps[cookie].deactivated == None
  }

  /** Nothing is done for the request, and the login page is shown. */
  ghost predicate Refused(cfg: Config, db: Db, r: AuthRequest, now: int, code: string) {
    AutoLoginAnswer(cfg, db, r, now, code).Login? && AutoLogin(cfg, db, r, now, code) == db
  }

  /** Without single sign-on, with `prompt=login` or without a live login: the login page, with
      the hint that there is a session only in none of these cases. */
  lemma {:induction false} NobodyIsRefused(cfg: Config, db: Db, r: AuthRequest, now: int, code: string)
    requires !cfg.ssoEnabled || "login" in Text.Fields(r.prompt) || !SignedIn(db, r.cookie)
    ensures Refused(cfg, db, r, now, code) && AutoLoginAnswer(cfg, db, r, now, code) == Answer.Login(false)
  {
  }

  /** Idle for the timeout or longer. A timeout of zero is none. */
  lemma {:induction false} IdleIsRefused(cfg: Config, db: Db, r: AuthRequest, now: int, code: string)
    requires SignedIn(db, r.cookie) && cfg.idle != 0 && now - db.idps[r.cookie].lastActivity >= cfg.idle
    ensures Refused(cfg, db, r, now, code)
  {
  }

  /** As old as the maximum age or older. */
  lemma {:induction false} AgedIsRefused(cfg: Config, db: Db, r: AuthRequest, now: int, code: string)
    requires SignedIn(db, r.cookie) && cfg.maxAge != 0 && now - db.idps[r.cookie].created >= cfg.maxAge
    ensures Refused(cfg, db, r, now, code)
  {
  }

  /** Older than the request's `max_age` of `n` seconds, as far as Go's durations reach. */
  lemma {:induction false} MaxAgeIsRefused(cfg: Config, db: Db, r: AuthRequest, now: int, code: string, n: nat)
    requires n <= MAX_INT64 / SECOND && r.maxAge in {Decimal(n), "+" + Decimal(n)}
    requires SignedIn(db, r.cookie) && now - db.idps[r.cookie].created > n * SECOND
    ensures Refused(cfg, db, r, now, code)
  {
    MaxAgeRoundTrip(n);
    assert Wrap64(n * SECOND) == n * SECOND;
  }

  /** The login page is told of a session exactly when single sign-on was tried with a live one. */
  lemma {:induction false} HintIff(cfg: Config, db: Db, r: AuthRequest, now: int, code: string)
    ensures
      var answer := AutoLoginAnswer(cfg, db, r, now, code);
      answer.Login? ==>
        (answer.hasSession <==> cfg.ssoEnabled && "login" !in Text.Fields(r.prompt) && SignedIn(db, r.cookie))
  {
  }

  /** In time for everything: what the three refusals leave. `limit` is the request's `max_age` in
      seconds, None if there is none. */
  predicate InTimeFor(cfg: Config, s: IdpSession, limit: Option<nat>, now: int) {
    && (cfg.idle == 0 || now < s.lastActivity + cfg.idle)
    && (cfg.maxAge == 0 || now < s.created + cfg.maxAge)
    && (limit.Some? ==> now <= s.created + limit.value * SECOND)
  }

  predicate Limits(maxAge: string, limit: Option<nat>) {
    if limit.None? then ParseMaxAge(maxAge) == -1 else ParseMaxAge(maxAge) == limit.value <= MAX_INT64 / SECOND
  }

  /** The user must be asked: the prompt says so, or the client requires consent and the last grant
      does not cover every requested scope. */
  ghost predicate MustAsk(db: Db, r: AuthRequest, user: string) {
    || "consent" in Text.Fields(r.prompt)
    || (r.consentRequired == Some(true)
        && ((user, r.client) !in db.consents
            || exists w :: w in Text.Fields(r.scope) && w !in Text.Fields(db.consents[(user, r.client)])))
  }

  /** The whole decision. Given a code that can be stored, a request gets it exactly if single
      sign-on is on, no new login is asked for, the login of the cookie lives and is in time, and
      the user need not be asked; the user is asked exactly if that is all that is missing. */
  lemma {:induction false} SignOnIff(cfg: Config, db: Db, r: AuthRequest, now: int, code: string, limit: Option<nat>)
    requires Limits(r.maxAge, limit) && code != "" && code !in db.codes
    ensures
      var answer := AutoLoginAnswer(cfg, db, r, now, code);
      var signedOn := cfg.ssoEnabled && "login" !in Text.Fields(r.prompt) && SignedIn(db, r.cookie)
        && InTimeFor(cfg, db.idps[r.cookie], limit, now);
      && (answer == Issued(code) <==> signedOn && !MustAsk(db, r, db.idps[r.cookie].user))
      && (answer == AskConsent <==> signedOn && MustAsk(db, r, db.idps[r.cookie].user))
      && (answer.Login? <==> !signedOn)
  {
    if limit.Some? {
      assert Wrap64(limit.value * SECOND) == limit.value * SECOND;
    }
    if SignedIn(db, r.cookie) {
      AskedIff(db, r);
    }
  }

  lemma {:induction false} AskedIff(db: Db, r: AuthRequest)
    requires r.cookie in db.idps
    ensures MustConsent(db, r) <==> MustAsk(db, r, db.idps[r.cookie].user)
  {
    var k := (db.idps[r.cookie].user, r.client);
    if k in db.consents {
      var have := Scopes.ScopeSet(db.consents[k]);
      assert Scopes.ScopeSet(r.scope) <= have <==> forall w :: w in Text.Fields(r.scope) ==> w in have;
    }
  }

  /** A request that gets past the checks counts as activity, and apart from the code nothing else
      is written. */
  lemma {:induction false} SignOnBumps(cfg: Config, db: Db, r: AuthRequest, now: int, code: string)
    ensures
      var answer, after := AutoLoginAnswer(cfg, db, r, now, code), AutoLogin(cfg, db, r, now, code);
      && after == db.(idps := after.idps, codes := after.codes)
      && (answer.Issued? || answer == AskConsent ==>
            && r.cookie in db.idps
            && after.idps == db.idps[r.cookie := db.idps[r.cookie].(lastActivity := now)])
      && (!answer.Issued? ==> after.codes == db.codes)
  {
  }

  /** A bumped login is not idle until the timeout has passed again, for a sweep or for an
      auto-login. */
  lemma {:induction false} BumpedLoginLasts(cfg: Config, idps: map<string, IdpSession>, login: string, now: int,
                                            later: int)
    requires ActiveIdp(idps, login) && cfg.idle > 0 && later < now + cfg.idle
    ensures
      var after := Touch(idps, login, now);
      && ActiveIdp(after, login) && login !in IdleIds(after, later - cfg.idle)
      && later < after[login].lastActivity + cfg.idle
  {
  }

  // -------------------------------------------------------------- new logins

  /** A new login is active, the user's, and as young and as active as can be. */
  lemma {:induction false} NewLoginIs(db: Db, login: string, user: string, now: int)
    requires login != ""
    ensures
      var after := LoggedIn(db, login, user, now);
      && after == db.(idps := after.idps) && after.idps.Keys == db.idps.Keys + {login}
      && (forall i :: i in db.idps && i != login ==> after.idps[i] == db.idps[i])
      && SignedIn(after, login) && after.idps[login].user == user
      && after.idps[login].created == now && after.idps[login].lastActivity == now
    ensures LoggedIn(db, "", user, now) == db
  {
  }

  /** So the next request of the browser is signed on without a new login. */
  lemma {:induction false} NewLoginSignsOn(cfg: Config, db: Db, login: string, user: string, now: int, r: AuthRequest,
                                           code: string)
    requires login != "" && r.cookie == login && cfg.ssoEnabled && "login" !in Text.Fields(r.prompt)
    requires cfg.idle >= 0 && cfg.maxAge >= 0 && ParseMaxAge(r.maxAge) == -1 && code != "" && code !in db.codes
    ensures AutoLoginAnswer(cfg, LoggedIn(db, login, user, now), r, now, code) in {Issued(code), AskConsent}
  {
    var after := LoggedIn(db, login, user, now);
    NewLoginIs(db, login, user, now);
    SignOnIff(cfg, after, r, now, code, None);
  }

  // ------------------------------------------------------------ what a code says

  /** The row of a code issued at `now` to the user for the client and scope, by way of the login. */
  predicate CodeFor(row: AuthCode, user: string, client: string, scope: string, expires: int, login: Option<string>) {
    && row.user == user && row.client == client && row.scope == scope && row.expires == expires
    && row.idp == login && !row.used
  }

  /** Only the one code is new. */
  ghost predicate AddsCode(before: map<string, AuthCode>, after: map<string, AuthCode>, code: string) {
    after.Keys == before.Keys + {code} && forall c :: c in before && c != code ==> after[c] == before[c]
  }

  /** Auto-login: the code is the login's user's, for the request's client and scope, names the
      login, and takes over the time of the login. */
  lemma {:induction false} SignOnCode(cfg: Config, db: Db, r: AuthRequest, now: int, code: string)
    requires AutoLoginAnswer(cfg, db, r, now, code) == Issued(code)
    ensures r.cookie in db.idps && r.cookie != ""
    ensures
      var s, after := db.idps[r.cookie], AutoLogin(cfg, db, r, now, code).codes;
      && AddsCode(db.codes, after, code) && code !in db.codes && code != ""
      && CodeFor(after[code], s.user, r.client, r.scope, now + cfg.codeExpiration, Some(r.cookie))
      && after[code].created == s.created
  {
  }

  /** A consent decision: refused without a live login, without effect when denied or when it
      cannot be stored, and otherwise stored before a code is issued that names the login. */
  lemma {:induction false} ConsentCode(cfg: Config, db: Db, cookie: string, client: string, scope: string, deny: bool,
                                       upsertOk: bool, code: string, now: int)
    ensures
      var after := ConsentPost(cfg, db, cookie, client, scope, deny, upsertOk, code, now);
      if !SignedIn(db, cookie) || deny || !upsertOk then after == db
      else
        var user := db.idps[cookie].user;
        && after == db.(consents := after.consents, codes := after.codes)
        && after.consents == db.consents[(user, client) := scope]
        && (code == "" || code in db.codes ==> after.codes == db.codes)
        && (code != "" && code !in db.codes ==>
              && AddsCode(db.codes, after.codes, code) && after.codes[code].created == now
              && CodeFor(after.codes[code], user, client, scope, now + cfg.codeExpiration, Some(cookie)))
  {
  }

  /** A login that issues a code: the code is for the user who logged in and names the new login, or
      none if there is none. */
  lemma {:induction false} LoginCode(cfg: Config, db: Db, login: string, user: string, code: string, client: string,
                                     scope: string, now: int)
    ensures
      var after := LoggedInWithCode(db, cfg, login, user, code, client, scope, now);
      && after.idps == LoggedIn(db, login, user, now).idps && after == db.(idps := after.idps, codes := after.codes)
      && (code == "" ==> after.codes == db.codes)
      && (code != "" ==>
            && AddsCode(db.codes, after.codes, code) && after.codes[code].created == now
            && CodeFor(after.codes[code], user, client, scope, now + cfg.codeExpiration,
                       if login == "" then None else Some(login)))
  {
    if code != "" {
      var row := NewCode(user, client, scope, now + cfg.codeExpiration, None, login, now);
      assert LoggedInWithCode(db, cfg, login, user, code, client, scope, now).codes == db.codes[code := row];
    }
  }

  /** A code can be looked up from when it is issued until it expires, unless it is used. */
  lemma {:induction false} LookupIff(codes: map<string, AuthCode>, code: string, now: int)
    ensures Redeemable(codes, code, now) <==>
      code in codes.Keys && codes[code].used == false && now < codes[code].expires
  {
  }

  // ----------------------------------------------------- a code and its login

  /** A redeemed code makes a session that hangs on the code's login, and whose two secrets the
      new token row shares. */
  lemma {:induction false} RedeemedSession(st: State, e: Event, login: string)
    requires Inv(st) && Legal(st, e) && e.op.Redeem? && e.op.pair.Stored()
    requires e.op.code in st.db.codes && st.db.codes[e.op.code].idp == Some(login)
    requires PrepareRedeem(st.db, e.op.code, e.op.redeemChecks, e.now).Ready?
    ensures
      var p, after := e.op.pair, Step(st, e);
      && p.sessionId in after.db.sessions && after.db.sessions[p.sessionId].idp == Some(login)
      && after.db.sessions[p.sessionId].access == p.access && after.db.sessions[p.sessionId].refresh == p.refresh
      && p.tokenId in after.db.tokens && after.db.tokens[p.tokenId].access == p.access
      && after.db.tokens[p.tokenId].user == Some(st.db.codes[e.op.code].user)
      && p.sessionId in after.seen && p.tokenId in after.seen && p.access in after.seen
  {
    hide Inv, Legal, Issue;
    var code, checks, p := e.op.code, e.op.redeemChecks, e.op.pair;
    var prepared := PrepareRedeem(st.db, code, checks, e.now);
    RedeemStep(st, e);
    RedeemsIff(st.db, code, checks, e.now);
    FreshKeys(st, e);
    IssuedRows(prepared.db, prepared.user, prepared.idp, prepared.grant, prepared.scope, p);
  }

  lemma {:induction false} FreshKeys(st: State, e: Event)
    requires Inv(st) && Legal(st, e) && e.op.Redeem?
    ensures e.op.pair.tokenId !in st.db.tokens && e.op.pair.sessionId !in st.db.sessions
  {
    LegalPair(st, e);
    PairMembers(st, e.op.pair);
  }

  lemma {:induction false} PreparedSessions(db: Db, now: int)
    ensures forall code, checks :: PrepareRedeem(db, code, checks, now).db.sessions == db.sessions
    ensures forall jwt, checks :: PrepareRefresh(db, jwt, checks, now).db.sessions == db.sessions
  {
    hide RefreshRejection, ScopeOf, ScopeFits;
  }

  /** Sessions and token rows are only added with a new pair, and with its secrets. */
  ghost predicate AddsOnly(before: Db, after: Db, p: Pair) {
    && (forall y :: y in after.sessions && y !in before.sessions ==> after.sessions[y].access == p.access)
    && (forall t :: t in after.tokens && t !in before.tokens ==>
          after.tokens[t].access == p.access && after.tokens[t].refresh in {"", p.refresh})
  }

  lemma {:induction false} IssueAdds(db: Db, user: Option<string>, idp: Option<string>, grant: Grant, scope: string,
                                     p: Pair)
    ensures AddsOnly(db, Issue(db, user, idp, grant, scope, p), p)
  {
  }

  lemma {:induction false} FinishAdds(db: Db, prepared: Prepared, p: Pair)
    requires Quiet(db, prepared.db)
    ensures AddsOnly(db, Finish(prepared, p), p)
  {
    if prepared.Ready? {
      IssueAdds(prepared.db, Some(prepared.user), prepared.idp, prepared.grant, prepared.scope, p);
    }
  }

  lemma {:induction false} PairStepAdds(st: State, e: Event)
    requires Pairs(e.op) != {}
    ensures AddsOnly(st.db, Step(st, e).db, e.op.pair)
  {
    hide Quiet, AddsOnly;
    match e.op
    case Redeem(code, checks, p) =>
      RedeemIsQuiet(st.db, code, checks, e.now);
      FinishAdds(st.db, PrepareRedeem(st.db, code, checks, e.now), p);
    case Refresh(jwt, checks, p) =>
      RefreshIsQuiet(st.db, jwt, checks, e.now);
      FinishAdds(st.db, PrepareRefresh(st.db, jwt, checks, e.now), p);
    case IssueToUser(user, scope, p) => IssueAdds(st.db, Some(user), None, OtherGrant, scope, p);
    case IssueToClient(scope, p) => IssueAdds(st.db, None, None, ClientCredentials, scope, p);
    case _ =>
  }

  lemma {:induction false} OtherStepsAdd(st: State, e: Event)
    requires Pairs(e.op) == {}
    ensures Step(st, e).db.sessions.Keys <= st.db.sessions.Keys && Step(st, e).db.tokens.Keys <= st.db.tokens.Keys
  {
    if e.op.Login? || e.op.LoginWithCode? || e.op.SignOn? || e.op.PostConsent? {
      LoginStepsAside(st.cfg, st.db, e.now, e.op);
    } else {
      QuietStep(st.cfg, st.db, e.now, e.op);
    }
  }

  /** After the step, a row with one of the session's secrets is an older one, with the same
      secrets. */
  lemma {:induction false} OldSecret(st: State, e: Event, v: string, k: string)
    requires Legal(st, e) && v in st.seen && v != "" && st.db.sessions.Keys + st.db.tokens.Keys <= st.seen
    ensures k in Step(st, e).db.sessions && Step(st, e).db.sessions[k].access == v ==>
      k in st.db.sessions && st.db.sessions[k].access == v
    ensures k in Step(st, e).db.tokens && Step(st, e).db.tokens[k].access == v ==>
      k in st.db.tokens && st.db.tokens[k] == Step(st, e).db.tokens[k].(revoked := st.db.tokens[k].revoked)
    ensures k in Step(st, e).db.tokens && Step(st, e).db.tokens[k].refresh == v ==>
      k in st.db.tokens && st.db.tokens[k].refresh == v
  {
    hide Legal;
    if k in st.seen {
      StepStill(st, e, k);
    } else if Pairs(e.op) != {} {
      PairStepAdds(st, e);
      LegalPair(st, e);
      PairMembers(st, e.op.pair);
    } else {
      OtherStepsAdd(st, e);
    }
  }

  /** When the row of a session is taken away, its access token is rejected. */
  lemma {:induction false} SessionTaken(st: State, e: Event, x: string)
    requires Inv(st) && Legal(st, e) && x in st.db.sessions && x !in Step(st, e).db.sessions
    ensures NoneAccepts(Step(st, e).db, st.db.sessions[x].access, e.now)
  {
    hide Legal;
    var v, after := st.db.sessions[x].access, Step(st, e).db;
    assert v in st.seen && v != "";
    forall y | y in after.sessions ensures after.sessions[y].access != v {
      OldSecret(st, e, v, y);
    }
    assert !HasSession(after, v);
    forall t ensures !Active(after, t, v, e.now) {
      OldSecret(st, e, v, t);
      if t in st.db.tokens {
        assert Paired(st.db.tokens[t], st.db.sessions[x]);
        assert TokenSecret(st.db.tokens[t], st.seen);
      }
    }
  }

  /** Over a run a session stays, or its access token is rejected for good. */
  lemma {:induction false} SessionStaysOrIsOver(st: State, es: seq<Event>, x: string)
    requires Inv(st) && LegalRun(st, es) && x in st.db.sessions
    ensures
      var end, v := Run(st, es), st.db.sessions[x].access;
      if x in end.db.sessions then
        end.db.sessions[x].access == v && end.db.sessions[x].idp == st.db.sessions[x].idp
      else NoneAccepts(end.db, v, end.clock)
    decreases |es|
  {
    hide Legal, Links, TokenSecrets, PairSecrets, JwtSecrets, NoneAccepts;
    if es != [] {
      var e, next, v := es[0], Step(st, es[0]), st.db.sessions[x].access;
      StepKeepsInv(st, e);
      StepStill(st, e, x);
      ClockAdvances(next, es[1..]);
      if x in next.db.sessions {
        SessionStaysOrIsOver(next, es[1..], x);
      } else {
        SessionTaken(st, e, x);
        StaysRejected(next, es[1..], v, Run(next, es[1..]).clock);
        RunStill(next, es[1..], x);
      }
    }
  }

  lemma {:induction false} AfterCascade(st: State, x: string, v: string, login: string, at: int, more: seq<Event>)
    requires Inv(st) && st.clock <= at && login != "" && v in st.seen
    requires LegalRun(Step(st, Event(at, Cascade(login, false))), more)
    requires
      if x in st.db.sessions then st.db.sessions[x].access == v && st.db.sessions[x].idp == Some(login)
      else NoneAccepts(st.db, v, st.clock)
    ensures
      var end := Run(Step(st, Event(at, Cascade(login, false))), more);
      NoneAccepts(end.db, v, end.clock)
  {
    hide Inv;
    var kill := Event(at, Cascade(login, false));
    if x in st.db.sessions {
      CascadeIsForever(st, more, login, x, at);
    } else {
      RunCons(st, kill, more);
      ClockAdvances(st, [kill] + more);
      StaysRejected(st, [kill] + more, v, Run(st, [kill] + more).clock);
    }
  }

  /** Killing a login ends what was redeemed from its codes before: whatever ran between the
      redemption and the cascade, and whatever runs after it, no reader accepts the access token. */
  lemma {:induction false} CascadeEndsRedeemed(st: State, e: Event, es: seq<Event>, login: string, at: int,
                                               more: seq<Event>)
    requires Inv(st) && Legal(st, e) && e.op.Redeem? && e.op.pair.Stored() && login != ""
    requires e.op.code in st.db.codes && st.db.codes[e.op.code].idp == Some(login)
    requires PrepareRedeem(st.db, e.op.code, e.op.redeemChecks, e.now).Ready?
    requires LegalRun(Step(st, e), es) && Run(Step(st, e), es).clock <= at
    requires LegalRun(Step(Run(Step(st, e), es), Event(at, Cascade(login, false))), more)
    ensures
      var end := Run(Step(Run(Step(st, e), es), Event(at, Cascade(login, false))), more);
      NoneAccepts(end.db, e.op.pair.access, end.clock)
  {
    hide Inv, Legal, PrepareRedeem, LegalRun, NoneAccepts;
    var s1 := Step(st, e);
    RedeemedSession(st, e, login);
    StepKeepsInv(st, e);
    ReachableInv(s1, es);
    ClockAdvances(s1, es);
    SessionStaysOrIsOver(s1, es, e.op.pair.sessionId);
    AfterCascade(Run(s1, es), e.op.pair.sessionId, e.op.pair.access, login, at, more);
  }

  /** A code is the row it was, or marked used, until it is deleted. */
  lemma {:induction false} RunMovesCodesOn(st: State, es: seq<Event>, c: string)
    requires LegalRun(st, es) && c in st.seen
    ensures CodeLaws.CodesMoveOn(st.db.codes, Run(st, es).db.codes, c)
    decreases |es|
  {
    if es != [] {
      CodeLaws.StepMovesCodesOn(st, es[0], c);
      RunMovesCodesOn(Step(st, es[0]), es[1..], c);
    }
  }

  lemma {:induction false} SignOnStep(st: State, e: Event)
    requires e.op.SignOn? && AutoLoginAnswer(st.cfg, st.db, e.op.r, e.now, e.op.code) == Issued(e.op.code)
    ensures Step(st, e).db == AutoLogin(st.cfg, st.db, e.op.r, e.now, e.op.code) && e.op.code != ""
    ensures e.op.code in Step(st, e).seen
  {
  }

  /** From the auto-login to the end: the code it issues is redeemed at some time, the login is
      killed at some later time, and no reader accepts the access token after that. */
  lemma {:induction false} SignOnDiesWithLogin(st: State, signOn: Event, a: seq<Event>, e: Event, b: seq<Event>,
                                               at: int, c: seq<Event>)
    requires Inv(st) && Legal(st, signOn) && signOn.op.SignOn?
    requires AutoLoginAnswer(st.cfg, st.db, signOn.op.r, signOn.now, signOn.op.code) == Issued(signOn.op.code)
    requires LegalRun(Step(st, signOn), a) && Legal(Run(Step(st, signOn), a), e)
    requires e.op.Redeem? && e.op.code == signOn.op.code && e.op.pair.Stored()
    requires PrepareRedeem(Run(Step(st, signOn), a).db, e.op.code, e.op.redeemChecks, e.now).Ready?
    requires LegalRun(Step(Run(Step(st, signOn), a), e), b) && Run(Step(Run(Step(st, signOn), a), e), b).clock <= at
    requires
      LegalRun(Step(Run(Step(Run(Step(st, signOn), a), e), b), Event(at, Cascade(signOn.op.r.cookie, false))), c)
    ensures
      var killed := Step(Run(Step(Run(Step(st, signOn), a), e), b), Event(at, Cascade(signOn.op.r.cookie, false)));
      NoneAccepts(Run(killed, c).db, e.op.pair.access, Run(killed, c).clock)
  {
    hide Inv, Legal, LegalRun, NoneAccepts, AutoLogin, AutoLoginAnswer;
    var code, login := signOn.op.code, signOn.op.r.cookie;
    StepKeepsInv(st, signOn);
    SignOnCode(st.cfg, st.db, signOn.op.r, signOn.now, code);
    SignOnStep(st, signOn);
    RunMovesCodesOn(Step(st, signOn), a, code);
    ReachableInv(Step(st, signOn), a);
    CascadeEndsRedeemed(Run(Step(st, signOn), a), e, b, login, at, c);
  }
}
