/** The steps of the run model are the operations of the database: performing one leaves the
    tables that `ServerRuns.Step` says. */
module ServerSteps {
  import opened Common
  import opened Tables
  import opened SessionStore
  import opened ServerRuns

  /** Any request or revocation, in a reachable state. */
  method Perform(d: Database, cfg: Config, e: Event, ghost st: State)
    requires d.View() == st.db && cfg == st.cfg && Inv(st) && Legal(st, e) && !e.op.Cleanup?
    modifies d
    ensures d.View() == Step(st, e).db
  {
    if e.op.Redeem? || e.op.Refresh? || e.op.IssueToUser? || e.op.IssueToClient? {
      PerformTokenRequest(d, e, st);
    } else if e.op.Login? || e.op.LoginWithCode? || e.op.SignOn? || e.op.PostConsent? {
      PerformLogin(d, cfg, e, st);
    } else {
      PerformEnding(d, e, st);
    }
  }

  method PerformTokenRequest(d: Database, e: Event, ghost st: State)
    requires d.View() == st.db && Inv(st) && Legal(st, e)
    requires e.op.Redeem? || e.op.Refresh? || e.op.IssueToUser? || e.op.IssueToClient?
    modifies d
    ensures d.View() == Step(st, e).db
  {
    hide Inv, Finish, FinishAnswer, Issue;
    match e.op
    case Redeem(code, checks, pair) => var _ := d.RedeemCode(code, checks, pair, e.now);
    case Refresh(jwt, checks, pair) =>
      PriorRowIsOwn(st, jwt);
      assert st.db.sessions == d.sessions && st.db.tokens == d.tokens;
      var _ := d.RefreshPair(jwt, checks, pair, e.now);
    case IssueToUser(user, scope, pair) => var _ := d.StorePair(Some(user), None, OtherGrant, scope, pair);
    case IssueToClient(scope, pair) => var _ := d.StorePair(None, None, ClientCredentials, scope, pair);
  }

  lemma {:induction false} NewKeysAreFree(st: State, e: Event)
    requires Inv(st) && Legal(st, e)
    ensures e.op.Login? || e.op.LoginWithCode? ==> e.op.login !in st.db.idps
    ensures e.op.LoginWithCode? ==> e.op.code !in st.db.codes
  {
    assert (e.op.Login? || e.op.LoginWithCode?) && e.op.login != "" ==> e.op.login in NewIds(e.op);
    assert e.op.LoginWithCode? && e.op.code != "" ==> e.op.code in NewIds(e.op);
  }

  method PerformLogin(d: Database, cfg: Config, e: Event, ghost st: State)
    requires d.View() == st.db && cfg == st.cfg && Inv(st) && Legal(st, e)
    requires e.op.Login? || e.op.LoginWithCode? || e.op.SignOn? || e.op.PostConsent?
    modifies d
    ensures d.View() == Step(st, e).db
  {
    NewKeysAreFree(st, e);
    assert d.idps == st.db.idps && d.codes == st.db.codes;
    match e.op
    case Login(login, user) => var _ := d.FinalizeLogin(login, user, e.now);
    case LoginWithCode(login, user, code, client, scope) =>
      ghost var named;
      var ok;
      ok, named := d.CompleteAuthFlow(cfg, login, user, client, scope, code, e.now);
    case SignOn(r, code) => var _ := d.TryAutoLogin(cfg, r, e.now, code);
    case PostConsent(cookie, client, scope, deny, upsertOk, code) =>
      var _ := d.HandleConsentPost(cfg, cookie, client, scope, true, deny, upsertOk, code, e.now);
  }

  predicate Ends(op: Op) {
    || op.DeactivateLogin? || op.DeactivateUserLogins? || op.Cascade? || op.RevokeToken? || op.RevokeRow?
    || op.DeactivateSession? || op.DeactivateUserSessions? || op.RevokeUser? || op.HardDelete? || op.DeleteClient?
    || op.Reconfigure?
  }

  method PerformEnding(d: Database, e: Event, ghost st: State)
    requires d.View() == st.db && Ends(e.op)
    modifies d
    ensures d.View() == Step(st, e).db
  {
    hide AutoLogin, ConsentPost, PrepareRedeem, PrepareRefresh, CleanupRun, Issue, LoggedIn;
    assert d.idps == st.db.idps && d.sessions == st.db.sessions && d.tokens == st.db.tokens &&
        d.consents == st.db.consents;
    match e.op
    case DeactivateLogin(login) => d.DeactivateIdpSession(login, e.now);
    case DeactivateUserLogins(user) => d.DeactivateAllForUser(user, e.now);
    case Cascade(login, failed) =>
      var fault := if failed then AtTokens else NoFault;
      var _ := d.DeactivateWithCascade(login, e.now, fault);
    case RevokeToken(value) => d.RevokeByTokenValue(value, e.now);
    case RevokeRow(tokenId) => var _ := d.RevokeByID(tokenId, e.now);
    case DeactivateSession(id) => var _ := d.DeactivateSessionByID(id, e.now);
    case DeactivateUserSessions(user) => d.DeactivateUserSessions(user, e.now);
    case RevokeUser(user, keep) => d.RevokeAccessOfUser(user, keep, e.now, true);
    case HardDelete(user, done) => d.HardDeleteUser(user, done);
    case DeleteClient(client) => d.DeleteConsentsOf(client);
    case Reconfigure(_) =>
  }

  /** A tick of the cleaner, whatever fails in it, is a `Cleanup` step; and one in which the
      sweeps do not fail gets through their whole lists. */
  method PerformTick(d: Database, cfg: Config, now: int, retention: int, readOk: bool, idleFaults: nat -> Fault,
                     ageFaults: nat -> Fault, failing: set<Swept>, ghost st: State)
    returns (ghost e: Event)
    requires d.View() == st.db && cfg == st.cfg && st.clock <= now
    modifies d
    ensures Legal(st, e) && e.now == now && e.op.Cleanup? && e.op.retention == retention && e.op.skipped == failing
    ensures d.View() == Step(st, e).db
    ensures cfg.idle > 0 && Healthy(readOk, idleFaults) && "" !in st.db.idps ==>
      e.op.idleDone == IdleIds(st.db.idps, now - cfg.idle)
    ensures cfg.maxAge > 0 && Healthy(readOk, ageFaults) && "" !in st.db.idps ==>
      e.op.agedDone == AgedIds(IdleSwept(st.db, cfg, now, e.op.idleDone).idps, now - cfg.maxAge)
  {
    assert d.idps == st.db.idps;
    ghost var idleDone, agedDone := d.Run(cfg, now, retention, readOk, idleFaults, ageFaults, failing);
    e := Event(now, Cleanup(retention, idleDone, agedDone, failing));
  }
}
