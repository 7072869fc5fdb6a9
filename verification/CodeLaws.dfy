/** Authorization codes and consent over whole runs of the server. */
module CodeLaws {
  import opened Common
  import opened Tables
  import opened ServerRuns
  import Scopes

  /** A code row as it was, or marked used. */
  ghost predicate SameOrUsed(a: AuthCode, b: AuthCode) {
    b == a || b == a.(used := true)
  }

  ghost predicate CodesMoveOn(a: map<string, AuthCode>, b: map<string, AuthCode>, c: string) {
    c in b ==> c in a && SameOrUsed(a[c], b[c])
  }

  function Unexpired(codes: map<string, AuthCode>, threshold: int): map<string, AuthCode> {
    map c | c in codes && !(codes[c].expires < threshold) :: codes[c]
  }

  lemma {:induction false} DeletedCodes(db: Db, tables: seq<Swept>, skipped: set<Swept>, threshold: int)
    ensures DeleteAll(db, tables, skipped, threshold).consents == db.consents
    ensures DeleteAll(db, tables, skipped, threshold).codes ==
      if AuthCodes in tables && AuthCodes !in skipped then Unexpired(db.codes, threshold) else db.codes
    decreases |tables|
  {
    if tables != [] {
      var before, t := tables[..|tables| - 1], tables[|tables| - 1];
      DeletedCodes(db, before, skipped, threshold);
      assert AuthCodes in tables <==> AuthCodes in before || t == AuthCodes;
      assert Unexpired(Unexpired(db.codes, threshold), threshold) == Unexpired(db.codes, threshold);
    }
  }

  lemma {:induction false} CleanupCodes(db: Db, cfg: Config, now: int, retention: int,
                                        idleDone: set<string>, agedDone: set<string>, skipped: set<Swept>)
    ensures
      var after := CleanupRun(db, cfg, now, retention, idleDone, agedDone, skipped);
      after.consents == db.consents
      && after.codes == if AuthCodes in skipped then db.codes else Unexpired(db.codes, now - retention)
  {
    var db2 := AgedSwept(IdleSwept(db, cfg, now, idleDone), cfg, now, agedDone);
    DeletedCodes(db2, TRANSIENT_TABLES, skipped, now - retention);
    assert TRANSIENT_TABLES[0] == AuthCodes;
  }

  /** No step makes a row for a code that was generated before, or takes "used" back. */
  lemma {:induction false} StepMovesCodesOn(st: State, e: Event, c: string)
    requires Legal(st, e) && c in st.seen
    ensures CodesMoveOn(st.db.codes, Step(st, e).db.codes, c)
  {
    if e.op.Cleanup? {
      CleanupCodes(st.db, st.cfg, e.now, e.op.retention, e.op.idleDone, e.op.agedDone, e.op.skipped);
    } else {
      OtherStepsMoveCodesOn(st, e, c);
    }
  }

  ghost predicate TouchesCodes(op: Op) {
    op.LoginWithCode? || op.SignOn? || op.PostConsent? || op.Redeem? || op.HardDelete? || op.Cleanup?
  }

  lemma {:induction false} CodesAside(cfg: Config, db: Db, now: int, op: Op)
    requires !TouchesCodes(op)
    ensures Execute(cfg, db, now, op).codes == db.codes
  {
    if op.Refresh? {
      RefreshAside(db, op.jwt, op.refreshChecks, now, op.pair);
    }
  }

  lemma {:induction false} FinishAside(prepared: Prepared, p: Pair)
    ensures
      var after := Finish(prepared, p);
      after.codes == prepared.db.codes && after.consents == prepared.db.consents && after.idps == prepared.db.idps
  {
  }

  lemma {:induction false} PrepareRefreshAside(db: Db, jwt: Jwt, checks: RefreshChecks, now: int)
    ensures PrepareRefresh(db, jwt, checks, now).db.codes == db.codes
    ensures PrepareRefresh(db, jwt, checks, now).db.consents == db.consents
  {
  }

  lemma {:induction false} RefreshAside(db: Db, jwt: Jwt, checks: RefreshChecks, now: int, p: Pair)
    ensures Finish(PrepareRefresh(db, jwt, checks, now), p).codes == db.codes
    ensures Finish(PrepareRefresh(db, jwt, checks, now), p).consents == db.consents
  {
    hide PrepareRefresh, Finish;
    PrepareRefreshAside(db, jwt, checks, now);
    FinishAside(PrepareRefresh(db, jwt, checks, now), p);
  }

  lemma {:induction false} PrepareRedeemAside(db: Db, code: string, checks: RedeemChecks, now: int)
    ensures
      var prepared := PrepareRedeem(db, code, checks, now);
      prepared.db.consents == db.consents && prepared.db.idps == db.idps
  {
  }

  lemma {:induction false} RedeemAside(db: Db, code: string, checks: RedeemChecks, now: int, p: Pair)
    ensures Finish(PrepareRedeem(db, code, checks, now), p).codes == PrepareRedeem(db, code, checks, now).db.codes
    ensures Finish(PrepareRedeem(db, code, checks, now), p).consents == db.consents
    ensures Finish(PrepareRedeem(db, code, checks, now), p).idps == db.idps
  {
    hide PrepareRedeem, Finish;
    PrepareRedeemAside(db, code, checks, now);
    FinishAside(PrepareRedeem(db, code, checks, now), p);
  }

  /** Only logins, auto-logins and consent decisions add codes. */
  lemma {:induction false} NoNewCodes(st: State, e: Event, c: string)
    requires !e.op.LoginWithCode? && !e.op.SignOn? && !e.op.PostConsent?
    ensures c in Step(st, e).db.codes ==> c in st.db.codes
  {
    if e.op.Cleanup? {
      CleanupCodes(st.db, st.cfg, e.now, e.op.retention, e.op.idleDone, e.op.agedDone, e.op.skipped);
    } else if e.op.Redeem? {
      RedeemAside(st.db, e.op.code, e.op.redeemChecks, e.now, e.op.pair);
    } else if !TouchesCodes(e.op) {
      CodesAside(st.cfg, st.db, e.now, e.op);
    }
  }

  lemma {:induction false} OtherStepsMoveCodesOn(st: State, e: Event, c: string)
    requires Legal(st, e) && c in st.seen && !e.op.Cleanup?
    ensures CodesMoveOn(st.db.codes, Step(st, e).db.codes, c)
    ensures c in st.db.codes && !(e.op.HardDelete? && e.op.user == st.db.codes[c].user) ==> c in Step(st, e).db.codes
  {
    if !TouchesCodes(e.op) {
      CodesAside(st.cfg, st.db, e.now, e.op);
    } else if e.op.Redeem? {
      RedeemAside(st.db, e.op.code, e.op.redeemChecks, e.now, e.op.pair);
    }
  }

  /** Single use and expiry over whole runs: once `AuthCodeByCode` does not return a code
      that was generated, it never returns it again. */
  lemma {:induction false} CodeStaysUnusable(st: State, es: seq<Event>, c: string, now: int, later: int)
    requires LegalRun(st, es) && c in st.seen && now <= later
    requires !Redeemable(st.db.codes, c, now)
    ensures !Redeemable(Run(st, es).db.codes, c, later)
    decreases |es|
  {
    if es != [] {
      StepMovesCodesOn(st, es[0], c);
      CodeStaysUnusable(Step(st, es[0]), es[1..], c, now, later);
    }
  }

  /** The cleaner never changes the answer of `AuthCodeByCode`, as long as its retention is
      not negative. */
  lemma {:induction false} CleanupKeepsAnswers(st: State, e: Event, c: string, later: int)
    requires e.op.Cleanup? && e.op.retention >= 0 && e.now <= later
    ensures Redeemable(Step(st, e).db.codes, c, later) <==> Redeemable(st.db.codes, c, later)
  {
    CleanupCodes(st.db, st.cfg, e.now, e.op.retention, e.op.idleDone, e.op.agedDone, e.op.skipped);
  }

  /** In general, a live code stays live over a tick if and only if the cleaner skips the
      table or the code does not fall under its threshold: with a negative retention live
      codes can be deleted. */
  lemma {:induction false} CleanupKeepsCodeIff(st: State, e: Event, c: string)
    requires e.op.Cleanup? && Redeemable(st.db.codes, c, e.now)
    ensures Redeemable(Step(st, e).db.codes, c, e.now) <==>
      AuthCodes in e.op.skipped || st.db.codes[c].expires >= e.now - e.op.retention
  {
    CleanupCodes(st.db, st.cfg, e.now, e.op.retention, e.op.idleDone, e.op.agedDone, e.op.skipped);
  }

  ghost predicate KeepsUser(es: seq<Event>, user: string, retention: int) {
    forall i :: 0 <= i < |es| ==>
      && !(es[i].op.HardDelete? && es[i].op.user == user)
      && (es[i].op.Cleanup? ==> es[i].op.retention >= retention)
  }

  /** Replay detection: whatever runs, the lookup of used codes still finds the row, with
      its owner, until its expiry plus the retention, unless the user is deleted. */
  lemma {:induction false} ReplayLookupFinds(st: State, es: seq<Event>, c: string, retention: int)
    requires LegalRun(st, es) && c in st.seen && c in st.db.codes
    requires KeepsUser(es, st.db.codes[c].user, retention)
    requires Run(st, es).clock <= st.db.codes[c].expires + retention
    ensures c in Run(st, es).db.codes && SameOrUsed(st.db.codes[c], Run(st, es).db.codes[c])
    ensures st.db.codes[c].used ==> Run(st, es).db.codes[c].used
    decreases |es|
  {
    if es != [] {
      var e := es[0];
      ClockAdvances(Step(st, e), es[1..]);
      StepMovesCodesOn(st, e, c);
      if e.op.Cleanup? {
        CleanupCodes(st.db, st.cfg, e.now, e.op.retention, e.op.idleDone, e.op.agedDone, e.op.skipped);
      } else {
        OtherStepsMoveCodesOn(st, e, c);
      }
      assert c in Step(st, e).db.codes;
      assert forall i :: 0 <= i < |es[1..]| ==> es[1..][i] == es[i + 1];
      ReplayLookupFinds(Step(st, e), es[1..], c, retention);
    }
  }

  // ------------------------------------------------------------------- consent

  lemma {:induction false} OnlyThreeChangeConsents(st: State, e: Event)
    requires !e.op.PostConsent?
    ensures Step(st, e).db.consents ==
      if e.op.DeleteClient? then ForgetClient(st.db.consents, e.op.client) else st.db.consents
  {
    if e.op.Cleanup? {
      CleanupCodes(st.db, st.cfg, e.now, e.op.retention, e.op.idleDone, e.op.agedDone, e.op.skipped);
    } else {
      ConsentsAside(st.cfg, st.db, e.now, e.op);
    }
  }

  lemma {:induction false} AutoLoginAside(cfg: Config, db: Db, r: AuthRequest, now: int, code: string)
    ensures AutoLogin(cfg, db, r, now, code).consents == db.consents
  {
  }

  lemma {:induction false} ConsentsAside(cfg: Config, db: Db, now: int, op: Op)
    requires !op.PostConsent? && !op.Cleanup?
    ensures Execute(cfg, db, now, op).consents ==
      if op.DeleteClient? then ForgetClient(db.consents, op.client) else db.consents
  {
    hide PrepareRedeem, PrepareRefresh, Finish, DeactivateWhere, RevokeWhere, DeactivateIdps, AutoLogin;
    if op.Redeem? {
      RedeemAside(db, op.code, op.redeemChecks, now, op.pair);
    } else if op.Refresh? {
      RefreshAside(db, op.jwt, op.refreshChecks, now, op.pair);
    } else if op.SignOn? {
      AutoLoginAside(cfg, db, op.r, now, op.code);
    }
  }

  predicate NoPosts(es: seq<Event>) {
    forall i :: 0 <= i < |es| ==> !es[i].op.PostConsent?
  }

  predicate Deletes(es: seq<Event>, client: string) {
    exists i :: 0 <= i < |es| && es[i].op == DeleteClient(client)
  }

  /** Between consent decisions a stored grant is kept exactly as it is if and only if its
      client is not deleted; deleting a client forgets every consent given to it, and
      reactivating the client does not bring any back. */
  lemma {:induction false} GrantIsKeptIff(st: State, es: seq<Event>, user: string, client: string)
    requires LegalRun(st, es) && NoPosts(es) && (user, client) in st.db.consents
    ensures (user, client) in Run(st, es).db.consents <==> !Deletes(es, client)
    ensures !Deletes(es, client) ==> Run(st, es).db.consents[(user, client)] == st.db.consents[(user, client)]
    decreases |es|
  {
    if es != [] {
      var e, rest := es[0], es[1..];
      OnlyThreeChangeConsents(st, e);
      assert forall i :: 0 <= i < |rest| ==> rest[i] == es[i + 1];
      DeletesCons(es, client);
      if e.op == DeleteClient(client) {
        ForgottenStaysForgotten(Step(st, e), rest, user, client);
      } else {
        GrantIsKeptIff(Step(st, e), rest, user, client);
      }
    }
  }

  lemma {:induction false} DeletesCons(es: seq<Event>, client: string)
    requires es != []
    ensures Deletes(es, client) <==> es[0].op == DeleteClient(client) || Deletes(es[1..], client)
  {
    if Deletes(es, client) {
      var i :| 0 <= i < |es| && es[i].op == DeleteClient(client);
      assert i > 0 ==> es[1..][i - 1].op == DeleteClient(client);
    }
    if Deletes(es[1..], client) {
      var i :| 0 <= i < |es[1..]| && es[1..][i].op == DeleteClient(client);
      assert es[i + 1].op == DeleteClient(client);
    }
  }

  lemma {:induction false} ForgottenStaysForgotten(st: State, es: seq<Event>, user: string, client: string)
    requires LegalRun(st, es) && NoPosts(es) && (user, client) !in st.db.consents
    ensures (user, client) !in Run(st, es).db.consents
    decreases |es|
  {
    if es != [] {
      OnlyThreeChangeConsents(st, es[0]);
      assert forall i :: 0 <= i < |es[1..]| ==> es[1..][i] == es[i + 1];
      ForgottenStaysForgotten(Step(st, es[0]), es[1..], user, client);
    }
  }

  /** After a user grants consent, a later auto-login of any of the user's live sessions for
      that client issues a code if the grant covers the request and the client has not been
      deleted in between, and asks again in every other case, whatever else ran. */
  lemma {:induction false} GrantedScopesSignOn(st: State, post: Event, es: seq<Event>, r: AuthRequest, code: string,
          now: int)
    requires Inv(st) && Legal(st, post) && post.op.PostConsent? && post.op.upsertOk
    requires ConsentAccepted(st.db, post.op.cookie, post.op.deny)
    requires LegalRun(Step(st, post), es) && NoPosts(es)
    requires code != "" && code !in Run(Step(st, post), es).seen
    requires r.client == post.op.client && r.consentRequired == Some(true) && !Scopes.HasPrompt(r.prompt, "consent")
    requires Accepted(Run(Step(st, post), es).cfg, Run(Step(st, post), es).db, r, now)
    requires Run(Step(st, post), es).db.idps[r.cookie].user == st.db.idps[post.op.cookie].user
    ensures
      var end := Run(Step(st, post), es);
      AutoLoginAnswer(end.cfg, end.db, r, now, code) ==
        if Scopes.ScopeSet(r.scope) <= Scopes.ScopeSet(post.op.scope) && !Deletes(es, r.client)
        then Issued(code) else AskConsent
  {
    var user, end := st.db.idps[post.op.cookie].user, Run(Step(st, post), es);
    PostStoresGrant(st, post);
    GrantIsKeptIff(Step(st, post), es, user, r.client);
    StepKeepsInv(st, post);
    ReachableInv(Step(st, post), es);
    assert code !in end.db.codes;
    AnswerByGrant(end.cfg, end.db, r, now, code);
  }

  lemma {:induction false} PostStoresGrant(st: State, post: Event)
    requires post.op.PostConsent? && post.op.upsertOk && ConsentAccepted(st.db, post.op.cookie, post.op.deny)
    ensures
      var k := (st.db.idps[post.op.cookie].user, post.op.client);
      k in Step(st, post).db.consents && Step(st, post).db.consents[k] == post.op.scope
  {
  }

  lemma {:induction false} AnswerByGrant(cfg: Config, db: Db, r: AuthRequest, now: int, code: string)
    requires Accepted(cfg, db, r, now) && code != "" && code !in db.codes
    requires r.consentRequired == Some(true) && !Scopes.HasPrompt(r.prompt, "consent")
    ensures
      var k := (db.idps[r.cookie].user, r.client);
      AutoLoginAnswer(cfg, db, r, now, code) ==
        if k in db.consents && Scopes.ScopeSet(r.scope) <= Scopes.ScopeSet(db.consents[k])
        then Issued(code) else AskConsent
  {
  }

  // -------------------------------------------------------------------- logins

  function KeptIdps(idps: map<string, IdpSession>, threshold: int): map<string, IdpSession> {
    map i | i in idps && !(idps[i].deactivated.Some? && idps[i].deactivated.value < threshold) :: idps[i]
  }

  lemma {:induction false} DeletedIdps(db: Db, tables: seq<Swept>, skipped: set<Swept>, threshold: int)
    ensures DeleteAll(db, tables, skipped, threshold).idps ==
      if IdpSessions in tables && IdpSessions !in skipped then KeptIdps(db.idps, threshold) else db.idps
    decreases |tables|
  {
    if tables != [] {
      var before, t := tables[..|tables| - 1], tables[|tables| - 1];
      DeletedIdps(db, before, skipped, threshold);
      assert IdpSessions in tables <==> IdpSessions in before || t == IdpSessions;
      assert KeptIdps(KeptIdps(db.idps, threshold), threshold) == KeptIdps(db.idps, threshold);
    }
  }

  /** A tick activates no login. */
  lemma {:induction false} CleanupEndsLogins(db: Db, cfg: Config, now: int, retention: int, idleDone: set<string>,
                                             agedDone: set<string>, skipped: set<Swept>, login: string)
    requires !ActiveIdp(db.idps, login)
    ensures !ActiveIdp(CleanupRun(db, cfg, now, retention, idleDone, agedDone, skipped).idps, login)
  {
    hide CascadeAll;
    var db1 := IdleSwept(db, cfg, now, idleDone);
    var db2 := AgedSwept(db1, cfg, now, agedDone);
    CascadeEndsLogins(db, IdleIds(db.idps, now - cfg.idle) * idleDone, now, login);
    CascadeEndsLogins(db1, AgedIds(db1.idps, now - cfg.maxAge) * agedDone, now, login);
    DeletedIdps(db2, TRANSIENT_TABLES, skipped, now - retention);
  }

  lemma {:induction false} CascadeEndsLogins(db: Db, ids: set<string>, now: int, login: string)
    requires !ActiveIdp(db.idps, login)
    ensures !ActiveIdp(CascadeAll(db, ids, now).idps, login)
  {
  }

  lemma {:induction false} EndingsActivateNone(cfg: Config, db: Db, now: int, op: Op, login: string)
    requires op.DeactivateLogin? || op.DeactivateUserLogins? || op.Cascade? || op.RevokeUser? || op.HardDelete?
    requires !ActiveIdp(db.idps, login)
    ensures !ActiveIdp(Execute(cfg, db, now, op).idps, login)
  {
  }

  lemma {:induction false} AutoLoginTouches(cfg: Config, db: Db, r: AuthRequest, now: int, code: string)
    ensures AutoLogin(cfg, db, r, now, code).idps ==
      if Accepted(cfg, db, r, now) then Touch(db.idps, r.cookie, now) else db.idps
  {
  }

  lemma {:induction false} PostLeavesLogins(cfg: Config, db: Db, op: Op, now: int)
    requires op.PostConsent?
    ensures Execute(cfg, db, now, op).idps == db.idps
  {
  }

  lemma {:induction false} LoginsAfter(cfg: Config, db: Db, now: int, op: Op, login: string)
    requires !op.Cleanup? && !ActiveIdp(db.idps, login)
    ensures ActiveIdp(Execute(cfg, db, now, op).idps, login) ==>
      (op.Login? || op.LoginWithCode?) && op.login == login != ""
  {
    if op.DeactivateLogin? || op.DeactivateUserLogins? || op.Cascade? || op.RevokeUser? || op.HardDelete? {
      EndingsActivateNone(cfg, db, now, op, login);
    } else {
      hide RevokeUserAccess, CascadeAll, DeleteUser, DeactivateIdps, AutoLogin, ConsentPost;
      if op.Redeem? {
        RedeemAside(db, op.code, op.redeemChecks, now, op.pair);
      } else if op.Refresh? {
        RefreshTouches(db, op.jwt, op.refreshChecks, now, op.pair);
      } else if op.SignOn? {
        AutoLoginTouches(cfg, db, op.r, now, op.code);
      } else if op.PostConsent? {
        PostLeavesLogins(cfg, db, op, now);
      }
    }
  }

  /** A refresh bumps its login exactly when it gets past the rejections. */
  lemma {:induction false} RefreshTouches(db: Db, jwt: Jwt, checks: RefreshChecks, now: int, p: Pair)
    ensures Finish(PrepareRefresh(db, jwt, checks, now), p).idps ==
      if RefreshRejection(db, jwt, checks, now).None? && db.sessions[jwt.session].idp.Some?
      then Touch(db.idps, db.sessions[jwt.session].idp.value, now) else db.idps
  {
  }
}
