/** The database as the session packages use it: `pkg/idpsession`, `pkg/cleanup`,
    `pkg/auth_code` and the SSO decision of `pkg/authorize`. Each method is proved against
    a function of `Tables`; the laws about those functions are in the other files. */
module SessionStore {
  import opened Common
  import opened Tables
  import Scopes
  import Text

  /** Where a cascade transaction fails, if it does. */
  datatype Fault = NoFault | AtBegin | AtIdpSessions | AtSessions | AtTokens | AtCommit

  /** No SELECT and no cascade of a sweep fails. */
  ghost predicate Healthy(readOk: bool, faults: nat -> Fault) {
    readOk && forall i :: faults(i) == NoFault
  }

  /** What a consent decision is answered with. */
  datatype PostAnswer = LoginRequired | BadRequest | Denied | ServerError | Granted(code: string)

  /** `ids` lists the set `wanted`, each id once. */
  ghost predicate Lists(ids: seq<string>, wanted: set<string>) {
    && (forall i, j :: 0 <= i < j < |ids| ==> ids[i] != ids[j])
    && (forall id :: id in ids <==> id in wanted)
  }

  ghost function Prefix(ids: seq<string>, k: nat): set<string>
    requires k <= |ids|
  {
    set i | 0 <= i < k :: ids[i]
  }

  class Database {
    var idps: map<string, IdpSession>
    var sessions: map<string, Session>
    var tokens: map<string, Token>
    var codes: map<string, AuthCode>
    var consents: Scopes.Consents

    ghost function View(): Db
      reads this
    {
      Db(idps, sessions, tokens, codes, consents)
    }

    constructor ()
      ensures View() == EMPTY_DB
    {
      idps, sessions, tokens, codes, consents := map[], map[], map[], map[], map[];
    }

    method CreateIdpSession(id: string, user: string, now: int) returns (ok: bool)
      modifies this
      ensures ok <==> id !in old(idps)
      ensures View() == if !ok then old(View())
        else old(View()).(idps := old(idps)[id := IdpSession(user, now, now, None)])
    {
      ok := id !in idps;
      if ok {
        idps := idps[id := IdpSession(user, now, now, None)];
      }
    }

    method UpdateLastActivity(id: string, now: int)
      modifies this
      ensures View() == old(View()).(idps := Touch(old(idps), id, now))
    {
      if id in idps && idps[id].deactivated.None? {
        idps := idps[id := idps[id].(lastActivity := now)];
      }
    }

    method DeactivateIdpSession(id: string, now: int)
      modifies this
      ensures View() == old(View()).(idps := DeactivateIdps(old(idps), {id}, now))
    {
      if id in idps && idps[id].deactivated.None? {
        idps := idps[id := idps[id].(deactivated := Some(now))];
      }
    }

    method DeactivateAllForUser(user: string, now: int)
      modifies this
      ensures View() == old(View()).(idps := DeactivateIdps(old(idps), IdpsOf(old(idps), user), now))
    {
      idps := map i | i in idps ::
        if idps[i].user == user && idps[i].deactivated.None? then idps[i].(deactivated := Some(now)) else idps[i];
    }

    /** The three UPDATEs in one transaction; a failure at any point rolls back. */
    method DeactivateWithCascade(id: string, now: int, fault: Fault) returns (ok: bool)
      modifies this
      ensures ok <==> id != "" && fault == NoFault
      ensures View() == if ok then CascadeAll(old(View()), {id}, now) else old(View())
    {
      hide CascadeAll, DeactivateIdps, DeactivateChildren, RevokeAccess;
      if id == "" || fault == AtBegin {
        return false;
      }
      var idps0, sessions0, tokens0 := idps, sessions, tokens;
      if fault == AtIdpSessions {
        return false;
      }
      if id in idps && idps[id].deactivated.None? {
        idps := idps[id := idps[id].(deactivated := Some(now))];
      }
      if fault == AtSessions {
        idps := idps0;
        return false;
      }
      DeactivateChildrenOf(id, now);
      if fault == AtTokens {
        idps, sessions := idps0, sessions0;
        return false;
      }
      RevokeTokensOfChildren(id, now);
      if fault == AtCommit {
        idps, sessions, tokens := idps0, sessions0, tokens0;
        return false;
      }
      CascadeStatements(old(View()), id, now, View());
      return true;
    }

    /** The second UPDATE of the cascade. */
    method DeactivateChildrenOf(id: string, now: int)
      modifies this`sessions
      ensures sessions == DeactivateChildren(old(sessions), {id}, now)
    {
      sessions := map s | s in sessions ::
        if sessions[s].idp == Some(id) && sessions[s].deactivated.None?
        then sessions[s].(deactivated := Some(now)) else sessions[s];
    }

    /** The third, with its subquery over the sessions as they are by then. */
    method RevokeTokensOfChildren(id: string, now: int)
      modifies this`tokens
      ensures tokens == RevokeAccess(old(tokens), ChildAccess(sessions, {id}), now)
    {
      var born := set s | s in sessions && sessions[s].idp == Some(id) :: sessions[s].access;
      assert born == ChildAccess(sessions, {id});
      tokens := map t | t in tokens ::
        if tokens[t].access in born && tokens[t].revoked.None? then tokens[t].(revoked := Some(now)) else tokens[t];
    }

    method GetIdleSessionIDs(threshold: int) returns (ids: seq<string>)
      ensures Lists(ids, IdleIds(idps, threshold))
      ensures forall id :: id in ids <==>
        id in idps && idps[id].deactivated.None? && idps[id].lastActivity < threshold
    {
      ids := [];
      var rows := idps.Keys;
      while rows != {}
        invariant rows <= idps.Keys
        invariant Lists(ids, IdleIds(idps, threshold) - rows)
        decreases rows
      {
        var id :| id in rows;
        if idps[id].deactivated.None? && idps[id].lastActivity < threshold {
          ids := ids + [id];
        }
        rows := rows - {id};
      }
    }

    method GetExpiredMaxAgeSessionIDs(createdBefore: int) returns (ids: seq<string>)
      ensures Lists(ids, AgedIds(idps, createdBefore))
      ensures forall id :: id in ids <==>
        id in idps && idps[id].deactivated.None? && idps[id].created < createdBefore
    {
      ids := [];
      var rows := idps.Keys;
      while rows != {}
        invariant rows <= idps.Keys
        invariant Lists(ids, AgedIds(idps, createdBefore) - rows)
        decreases rows
      {
        var id :| id in rows;
        if idps[id].deactivated.None? && idps[id].created < createdBefore {
          ids := ids + [id];
        }
        rows := rows - {id};
      }
    }

    /** The loop of both sweeps. It stops at the first cascade that fails; `k` is how many
        went through. */
    method CascadeEach(ids: seq<string>, now: int, faults: nat -> Fault) returns (ok: bool, ghost k: nat)
      modifies this
      ensures k <= |ids| && forall i :: 0 <= i < k ==> ids[i] != "" && faults(i) == NoFault
      ensures ok <==> k == |ids|
      ensures k < |ids| ==> ids[k] == "" || faults(k) != NoFault
      ensures View() == CascadeAll(old(View()), Prefix(ids, k), now)
    {
      hide CascadeAll;
      CascadeNone(View(), now);
      assert Prefix(ids, 0) == {};
      k := 0;
      for i := 0 to |ids|
        invariant k == i && forall j :: 0 <= j < i ==> ids[j] != "" && faults(j) == NoFault
        invariant View() == CascadeAll(old(View()), Prefix(ids, i), now)
      {
        var done := DeactivateWithCascade(ids[i], now, faults(i));
        if !done {
          return false, i;
        }
        CascadeOneMore(old(View()), Prefix(ids, i), ids[i], now);
        assert Prefix(ids, i + 1) == Prefix(ids, i) + {ids[i]};
        k := i + 1;
      }
      ok := true;
    }

    /** `count` is the first result, `ok` says that the error is nil; `readOk` says that the
        SELECT succeeds. */
    method DeactivateIdle(timeout: int, now: int, readOk: bool, faults: nat -> Fault)
      returns (count: nat, ok: bool, ghost ids: seq<string>, ghost k: nat)
      modifies this
      ensures Lists(ids, IdleIds(old(idps), now - timeout)) && k <= |ids|
      ensures ok <==> readOk && k == |ids|
      ensures !readOk ==> k == 0
      ensures readOk && k < |ids| ==> ids[k] == "" || faults(k) != NoFault
      ensures forall i :: 0 <= i < k ==> ids[i] != "" && faults(i) == NoFault
      ensures count == if ok then |ids| else 0
      ensures View() == CascadeAll(old(View()), Prefix(ids, k), now)
    {
      var list := GetIdleSessionIDs(now - timeout);
      ids := list;
      CascadeNone(View(), now);
      if !readOk {
        return 0, false, ids, 0;
      }
      ok, k := CascadeEach(list, now, faults);
      count := if ok then |list| else 0;
    }

    method DeactivateExpiredMaxAge(maxAge: int, now: int, readOk: bool, faults: nat -> Fault)
      returns (count: nat, ok: bool, ghost ids: seq<string>, ghost k: nat)
      modifies this
      ensures Lists(ids, AgedIds(old(idps), now - maxAge)) && k <= |ids|
      ensures ok <==> readOk && k == |ids|
      ensures !readOk ==> k == 0
      ensures readOk && k < |ids| ==> ids[k] == "" || faults(k) != NoFault
      ensures forall i :: 0 <= i < k ==> ids[i] != "" && faults(i) == NoFault
      ensures count == if ok then |ids| else 0
      ensures View() == CascadeAll(old(View()), Prefix(ids, k), now)
    {
      var list := GetExpiredMaxAgeSessionIDs(now - maxAge);
      ids := list;
      CascadeNone(View(), now);
      if !readOk {
        return 0, false, ids, 0;
      }
      ok, k := CascadeEach(list, now, faults);
      count := if ok then |list| else 0;
    }

    method DeleteExpiredTransientRows(threshold: int, failing: set<Swept>)
      modifies this
      ensures View() == DeleteAll(old(View()), TRANSIENT_TABLES, failing, threshold)
    {
      for i := 0 to |TRANSIENT_TABLES|
        invariant View() == DeleteAll(old(View()), TRANSIENT_TABLES[..i], failing, threshold)
      {
        var table := TRANSIENT_TABLES[i];
        assert TRANSIENT_TABLES[..i + 1][..i] == TRANSIENT_TABLES[..i];
        if table in failing {
          continue;
        }
        match table
        case AuthCodes => codes := map c | c in codes && !(codes[c].expires < threshold) :: codes[c];
        case Tokens => tokens := map t | t in tokens && !(tokens[t].refreshExpires < threshold) :: tokens[t];
        case Sessions => sessions := map s | s in sessions && !(sessions[s].expires < threshold) :: sessions[s];
        case IdpSessions =>
          idps := map i | i in idps
            && !(idps[i].deactivated.Some? && idps[i].deactivated.value < threshold) :: idps[i];
      }
      assert TRANSIENT_TABLES[..|TRANSIENT_TABLES|] == TRANSIENT_TABLES;
    }

    /** The wrappers of `pkg/cleanup`: a timeout of zero or less switches the sweep off, an
        error is logged and ignored. */
    method DeactivateIdleIdpSessions(cfg: Config, now: int, readOk: bool, faults: nat -> Fault)
      returns (ghost done: set<string>)
      modifies this
      ensures View() == IdleSwept(old(View()), cfg, now, done)
      ensures done <= IdleIds(old(idps), now - cfg.idle)
      ensures cfg.idle > 0 && Healthy(readOk, faults) && "" !in old(idps) ==>
        done == IdleIds(old(idps), now - cfg.idle)
    {
      done := {};
      if cfg.idle > 0 {
        var count, ok;
        ghost var ids, k;
        ghost var before := View();
        count, ok, ids, k := DeactivateIdle(cfg.idle, now, readOk, faults);
        done := Prefix(ids, k);
        IdleSweptBy(before, cfg, now, ids, k);
        AllListed(ids, IdleIds(before.idps, now - cfg.idle), k);
        assert k < |ids| ==> ids[k] in ids && ids[k] in before.idps;
      }
    }

    method DeactivateExpiredMaxAgeIdpSessions(cfg: Config, now: int, readOk: bool, faults: nat -> Fault)
      returns (ghost done: set<string>)
      modifies this
      ensures View() == AgedSwept(old(View()), cfg, now, done)
      ensures done <= AgedIds(old(idps), now - cfg.maxAge)
      ensures cfg.maxAge > 0 && Healthy(readOk, faults) && "" !in old(idps) ==>
        done == AgedIds(old(idps), now - cfg.maxAge)
    {
      done := {};
      if cfg.maxAge > 0 {
        var count, ok;
        ghost var ids, k;
        ghost var before := View();
        count, ok, ids, k := DeactivateExpiredMaxAge(cfg.maxAge, now, readOk, faults);
        done := Prefix(ids, k);
        AgedSweptBy(before, cfg, now, ids, k);
        AllListed(ids, AgedIds(before.idps, now - cfg.maxAge), k);
        assert k < |ids| ==> ids[k] in ids && ids[k] in before.idps;
      }
    }

    /** `cleanup.Run` at one instant. */
    method Run(cfg: Config, now: int, retention: int, readOk: bool, idleFaults: nat -> Fault,
               ageFaults: nat -> Fault, failing: set<Swept>)
      returns (ghost idleDone: set<string>, ghost agedDone: set<string>)
      modifies this
      ensures View() == CleanupRun(old(View()), cfg, now, retention, idleDone, agedDone, failing)
      ensures cfg.idle > 0 && Healthy(readOk, idleFaults) && "" !in old(idps) ==>
        idleDone == IdleIds(old(idps), now - cfg.idle)
      ensures cfg.maxAge > 0 && Healthy(readOk, ageFaults) && "" !in old(idps) ==>
        agedDone == AgedIds(IdleSwept(old(View()), cfg, now, idleDone).idps, now - cfg.maxAge)
    {
      idleDone := DeactivateIdleIdpSessions(cfg, now, readOk, idleFaults);
      agedDone := DeactivateExpiredMaxAgeIdpSessions(cfg, now, readOk, ageFaults);
      DeleteExpiredTransientRows(now - retention, failing);
    }

    method AuthCodeByCode(code: string, now: int) returns (row: Option<AuthCode>)
      ensures row == if Redeemable(codes, code, now) then Some(codes[code]) else None
      ensures row.Some? <==> code in codes && !codes[code].used && now < codes[code].expires
    {
      row := if code in codes && !codes[code].used && codes[code].expires > now then Some(codes[code]) else None;
    }

    /** `created` is None for Go's zero time, `idpId` is "" for no login. */
    method CreateAuthCode(code: string, user: string, client: string, scope: string, expires: int,
                          created: Option<int>, idpId: string, now: int)
      returns (ok: bool)
      modifies this
      ensures ok <==> code !in old(codes)
      ensures View() == if !ok then old(View())
        else old(View()).(codes := old(codes)[code := NewCode(user, client, scope, expires, created, idpId, now)])
    {
      ok := code !in codes;
      if ok {
        var createdAt := now;
        if created.Some? {
          createdAt := created.value;
        }
        var idp: Option<string> := None;
        if idpId != "" {
          idp := Some(idpId);
        }
        codes := codes[code := AuthCode(user, client, scope, expires, false, createdAt, idp)];
      }
    }

    method MarkAuthCodeAsUsed(code: string)
      modifies this
      ensures codes.Keys == old(codes.Keys)
      ensures forall c :: c in codes ==> codes[c] == if c == code then old(codes)[c].(used := true) else old(codes)[c]
      ensures View() == old(View()).(codes := codes)
      ensures forall now :: !Redeemable(codes, code, now)
    {
      if code in codes {
        codes := codes[code := codes[code].(used := true)];
      }
    }

    /** `id` is the generated session id, "" when generating it failed. */
    method FinalizeLogin(id: string, user: string, now: int) returns (login: string)
      modifies this
      ensures login == if id == "" || id in old(idps) then "" else id
      ensures View() == LoggedIn(old(View()), login, user, now)
    {
      if id == "" {
        return "";
      }
      var created := CreateIdpSession(id, user, now);
      if !created {
        return "";
      }
      return id;
    }

    /** The end of a federated login and of an email verification: a login, then a code that
        names it. */
    method CompleteAuthFlow(cfg: Config, id: string, user: string, client: string, scope: string,
                            code: string, now: int)
      returns (ok: bool, ghost login: string)
      modifies this
      ensures login == if id == "" || id in old(idps) then "" else id
      ensures ok <==> code != "" && code !in old(codes)
      ensures View() == if ok then LoggedInWithCode(old(View()), cfg, login, user, code, client, scope, now)
        else LoggedIn(old(View()), login, user, now)
    {
      var idpSessionId := FinalizeLogin(id, user, now);
      login := idpSessionId;
      if code == "" {
        return false, login;
      }
      ok := CreateAuthCode(code, user, client, scope, now + cfg.codeExpiration, None, idpSessionId, now);
    }

    /** `checksOk` says that the signature, the client and the redirect URI are in order;
        they are looked at after the session, and nothing is stored before. `upsertOk` says
        that the consent can be stored, `code` is "" if generating it fails. */
    method HandleConsentPost(cfg: Config, cookie: string, client: string, scope: string, checksOk: bool,
                             deny: bool, upsertOk: bool, code: string, now: int)
      returns (a: PostAnswer)
      modifies this
      ensures a.LoginRequired? <==> cookie == "" || !ActiveIdp(old(idps), cookie)
      ensures !a.LoginRequired? ==> (a.BadRequest? <==> !checksOk) && (a.Denied? <==> checksOk && deny)
      ensures a.Granted? <==>
        checksOk && ConsentAccepted(old(View()), cookie, deny) && upsertOk && code != "" && code !in old(codes)
      ensures a.Granted? ==> a.code == code
      ensures View() == if checksOk then ConsentPost(cfg, old(View()), cookie, client, scope, deny, upsertOk, code, now)
        else old(View())
    {
      if cookie == "" || cookie !in idps || idps[cookie].deactivated.Some? {
        return LoginRequired;
      }
      var user := idps[cookie].user;
      if !checksOk {
        return BadRequest;
      }
      if deny {
        return Denied;
      }
      if !upsertOk {
        return ServerError;
      }
      consents := Scopes.Upsert(consents, user, client, scope);
      if code == "" {
        return ServerError;
      }
      var created := CreateAuthCode(code, user, client, scope, now + cfg.codeExpiration, None, cookie, now);
      if !created {
        return ServerError;
      }
      return Granted(code);
    }

    method TryAutoLogin(cfg: Config, r: AuthRequest, now: int, code: string) returns (a: Answer)
      modifies this
      ensures a == AutoLoginAnswer(cfg, old(View()), r, now, code)
      ensures View() == AutoLogin(cfg, old(View()), r, now, code)
    {
      var promptValues := Text.Fields(r.prompt);
      var hasLogin, hasConsent := false, false;
      for i := 0 to |promptValues|
        invariant hasLogin <==> "login" in promptValues[..i]
        invariant hasConsent <==> "consent" in promptValues[..i]
      {
        if promptValues[i] == "login" {
          hasLogin := true;
        }
        if promptValues[i] == "consent" {
          hasConsent := true;
        }
      }
      assert promptValues[..|promptValues|] == promptValues;
      if !cfg.ssoEnabled || hasLogin || r.cookie == "" {
        return Login(false);
      }
      if !(r.cookie in idps && idps[r.cookie].deactivated.None?) {
        return Login(false);
      }
      var session := idps[r.cookie];
      if !(cfg.idle == 0 || now - session.lastActivity < cfg.idle) {
        return Login(true);
      }
      if !(cfg.maxAge == 0 || now - session.created < cfg.maxAge) {
        return Login(true);
      }
      var maxAgeSecs := ParseMaxAge(r.maxAge);
      if maxAgeSecs >= 0 && now - session.created > Wrap64(maxAgeSecs * SECOND) {
        return Login(true);
      }
      UpdateLastActivity(r.cookie, now);
      var needed := Scopes.DecideConsent(r.consentRequired, consents, session.user, r.client, r.scope, r.prompt);
      if hasConsent || needed {
        return AskConsent;
      }
      if code == "" {
        return Login(true);
      }
      var created := CreateAuthCode(code, session.user, r.client, r.scope, now + cfg.codeExpiration,
                                    Some(session.created), r.cookie, now);
      if !created {
        return Login(true);
      }
      return Issued(code);
    }

    // ------------------------------------------------------- the token endpoint

    method RevokeTokensByUserAndClient(user: string, now: int)
      modifies this
      ensures View() == old(View()).(tokens := RevokeWhere(old(tokens), CodeTokensOf(old(tokens), user), now))
    {
      tokens := map t | t in tokens ::
        if tokens[t].user == Some(user) && tokens[t].grant == AuthorizationCode && tokens[t].revoked.None?
        then tokens[t].(revoked := Some(now)) else tokens[t];
    }

    method RevokeTokensOfUser(user: string, now: int)
      modifies this
      ensures View() == old(View()).(tokens := RevokeWhere(old(tokens), TokensOf(old(tokens), user, ""), now))
    {
      tokens := map t | t in tokens ::
        if tokens[t].user == Some(user) && tokens[t].revoked.None?
        then tokens[t].(revoked := Some(now)) else tokens[t];
    }

    method RevokeByID(id: string, now: int) returns (ok: bool)
      modifies this
      ensures ok <==> id in old(tokens) && old(tokens)[id].revoked.None?
      ensures View() == old(View()).(tokens := RevokeWhere(old(tokens), {id}, now))
    {
      ok := id in tokens && tokens[id].revoked.None?;
      if ok {
        tokens := tokens[id := tokens[id].(revoked := Some(now))];
      }
    }

    method RevokeByTokenValue(value: string, now: int)
      modifies this
      ensures View() == old(View()).(tokens := RevokeValue(old(tokens), value, now))
    {
      tokens := map t | t in tokens ::
        if tokens[t].access == value || tokens[t].refresh == value
        then tokens[t].(revoked := Some(now)) else tokens[t];
    }

    /** `CreateToken`, then `CreateSession` for a user-backed pair. */
    method StorePair(user: Option<string>, idp: Option<string>, grant: Grant, scope: string, p: Pair)
      returns (a: TokenAnswer)
      modifies this
      ensures View() == Issue(old(View()), user, idp, grant, scope, p)
      ensures a == IssueAnswer(user.Some?, scope, p)
    {
      if !p.generated {
        return NotGenerated;
      }
      if !p.tokenStored {
        return TokenNotStored;
      }
      var refresh, refreshExpires := "", p.accessExpires;
      if user.Some? {
        refresh, refreshExpires := p.refresh, p.refreshExpires;
      }
      tokens := tokens[p.tokenId := Token(user, p.access, refresh, p.accessExpires, refreshExpires, grant, scope,
                                          None)];
      if user.None? {
        return TokensIssued(scope);
      }
      if !p.sessionStored {
        return SessionNotStored;
      }
      sessions := sessions[p.sessionId := Session(user.value, p.access, p.refresh, p.accessExpires, None, idp)];
      if "openid" in Text.Split(scope, ' ') && !p.idSigned {
        return NotGenerated;
      }
      return TokensIssued(scope);
    }

    /** The authorization_code grant: `UserByAuthorizationCode`, then the pair. */
    method RedeemCode(code: string, checks: RedeemChecks, pair: Pair, now: int) returns (a: TokenAnswer)
      modifies this
      ensures a == FinishAnswer(PrepareRedeem(old(View()), code, checks, now), pair)
      ensures View() == Finish(PrepareRedeem(old(View()), code, checks, now), pair)
    {
      if code !in codes {
        return InvalidCode;
      }
      var row := codes[code];
      if row.used {
        RevokeTokensByUserAndClient(row.user, now);
        return CodeReused;
      }
      if !checks.redirect || now > row.expires {
        return InvalidCode;
      }
      if !checks.client {
        return WrongClient;
      }
      if !checks.verifier {
        return WrongVerifier;
      }
      if !checks.marked {
        return NotMarked;
      }
      codes := codes[code := row.(used := true)];
      if !checks.user {
        return UserUnknown;
      }
      a := StorePair(Some(row.user), row.idp, AuthorizationCode, row.scope, pair);
    }

    method UserByRefreshToken(jwt: Jwt, checks: RefreshChecks, now: int) returns (rejection: Option<TokenAnswer>)
      modifies this
      ensures rejection == RefreshRejection(old(View()), jwt, checks, now)
      ensures View() == if rejection == Some(Replayed)
        then
          old(View()).(tokens :=
            RevokeWhere(old(tokens), TokensOf(old(tokens), old(sessions)[jwt.session].user, ""), now))
        else old(View())
    {
      if now >= jwt.expires {
        return Some(InvalidRefresh);
      }
      if jwt.session !in sessions {
        return Some(SessionGone);
      }
      if sessions[jwt.session].deactivated.Some? {
        return Some(SessionOver);
      }
      if !checks.client {
        return Some(WrongClient);
      }
      if exists t :: t in tokens && tokens[t].refresh == jwt.refresh && tokens[t].revoked.Some? {
        RevokeTokensOfUser(sessions[jwt.session].user, now);
        return Some(Replayed);
      }
      if !checks.user {
        return Some(UserUnknown);
      }
      if !checks.mfa && exists t :: t in tokens && tokens[t].refresh == jwt.refresh {
        return Some(MfaNeeded);
      }
      return None;
    }

    /** The prior login is looked up by the refresh token, of which at most one session row
        has a copy. `ok` is false if the UPDATE of the tokens fails; the bump stays. */
    method Rotate(refresh: string, ok: bool, now: int) returns (priorIdp: Option<string>)
      requires forall x, y :: x in sessions && y in sessions ==>
        sessions[x].refresh == refresh == sessions[y].refresh ==> x == y
      modifies this
      ensures forall x :: x in old(sessions) && old(sessions)[x].refresh == refresh ==> priorIdp == old(sessions)[x].idp
      ensures View() == if ok then Rotated(old(View()), refresh, priorIdp, now) else Bumped(old(View()), priorIdp, now)
    {
      priorIdp := None;
      if exists x :: x in sessions && sessions[x].refresh == refresh {
        var x :| x in sessions && sessions[x].refresh == refresh;
        priorIdp := sessions[x].idp;
      }
      if priorIdp.Some? {
        UpdateLastActivity(priorIdp.value, now);
      }
      if !ok {
        return;
      }
      tokens := map t | t in tokens ::
        if tokens[t].refresh == refresh && tokens[t].revoked.None?
        then tokens[t].(revoked := Some(now)) else tokens[t];
      assert tokens == RevokeWhere(old(tokens), TokensByRefresh(old(tokens), refresh), now);
    }

    /** The refresh_token grant. Every reachable table meets the precondition, see
        `ServerRuns.PriorRowIsOwn`. */
    method RefreshPair(jwt: Jwt, checks: RefreshChecks, pair: Pair, now: int) returns (a: TokenAnswer)
      requires jwt.session in sessions ==> sessions[jwt.session].refresh == jwt.refresh
      requires forall x :: x in sessions && sessions[x].refresh == jwt.refresh ==> x == jwt.session
      requires OneTokenRow(tokens, jwt.refresh)
      modifies this
      ensures a == FinishAnswer(PrepareRefresh(old(View()), jwt, checks, now), pair)
      ensures View() == Finish(PrepareRefresh(old(View()), jwt, checks, now), pair)
    {
      var rejection := UserByRefreshToken(jwt, checks, now);
      if rejection.Some? {
        return rejection.value;
      }
      var user := sessions[jwt.session].user;
      var priorIdp := Rotate(jwt.refresh, checks.rotated, now);
      if !checks.rotated {
        return NotRotated;
      }
      var tokenScope := ReadScope(jwt.refresh);
      ScopeAfterRotation(old(tokens), jwt.refresh, now);
      var codeScope := tokenScope;
      if checks.scope != "" {
        var within := Scopes.IsScopeSubset(checks.scope, tokenScope);
        if !within {
          return ScopeExceeded;
        }
        codeScope := checks.scope;
      }
      a := StorePair(Some(user), priorIdp, RefreshToken, codeScope, pair);
    }

    /** The scope of the original token; a missing row is logged and leaves it empty. */
    method ReadScope(refresh: string) returns (tokenScope: string)
      requires OneTokenRow(tokens, refresh)
      ensures tokenScope == ScopeOf(tokens, refresh)
    {
      tokenScope := "";
      if exists t :: t in tokens && tokens[t].refresh == refresh {
        var t :| t in tokens && tokens[t].refresh == refresh;
        tokenScope := tokens[t].scope;
        ScopeOfRow(tokens, refresh, t);
      }
    }

    // ------------------------------------------------- revocation and deletion

    method DeactivateSessionByID(id: string, now: int) returns (ok: bool)
      modifies this
      ensures ok <==> id in old(sessions)
      ensures View() == if !ok then old(View())
        else old(View()).(sessions := old(sessions)[id := old(sessions)[id].(deactivated := Some(now))])
    {
      ok := id in sessions;
      if ok {
        sessions := sessions[id := sessions[id].(deactivated := Some(now))];
      }
    }

    method DeactivateUserSessions(user: string, now: int)
      modifies this
      ensures View() ==
        old(View()).(sessions := DeactivateWhere(old(sessions), SessionsOf(old(sessions), user, ""), now))
    {
      sessions := map x | x in sessions ::
        if sessions[x].user == user && sessions[x].deactivated.None?
        then sessions[x].(deactivated := Some(now)) else sessions[x];
    }

    /** Three UPDATEs in one transaction; `commits` says that none of them fails. */
    method RevokeAccessOfUser(user: string, keep: string, now: int, commits: bool)
      modifies this
      ensures View() == if commits then RevokeUserAccess(old(View()), user, keep, now) else old(View())
    {
      if !commits {
        return;
      }
      RevokeTokensExcept(user, keep, now);
      DeactivateSessionsExcept(user, keep, now);
      DeactivateUnusedLogins(user, now);
    }

    method RevokeTokensExcept(user: string, keep: string, now: int)
      modifies this
      ensures View() == old(View()).(tokens := RevokeWhere(old(tokens), TokensOf(old(tokens), user, keep), now))
    {
      tokens := map t | t in tokens ::
        if tokens[t].user == Some(user) && tokens[t].revoked.None? && (keep == "" || tokens[t].access != keep)
        then tokens[t].(revoked := Some(now)) else tokens[t];
    }

    method DeactivateSessionsExcept(user: string, keep: string, now: int)
      modifies this
      ensures View() ==
        old(View()).(sessions := DeactivateWhere(old(sessions), SessionsOf(old(sessions), user, keep), now))
    {
      sessions := map x | x in sessions ::
        if sessions[x].user == user && sessions[x].deactivated.None? && (keep == "" || sessions[x].access != keep)
        then sessions[x].(deactivated := Some(now)) else sessions[x];
    }

    method DeactivateUnusedLogins(user: string, now: int)
      modifies this
      ensures View() == old(View()).(idps :=
        DeactivateIdps(old(idps), IdpsOf(old(idps), user) - InUse(old(sessions), user), now))
    {
      var inUse := set x | x in sessions && sessions[x].user == user && sessions[x].deactivated.None?
                             && sessions[x].idp.Some? :: sessions[x].idp.value;
      assert inUse == InUse(sessions, user);
      idps := map i | i in idps ::
        if idps[i].user == user && idps[i].deactivated.None? && i !in inUse
        then idps[i].(deactivated := Some(now)) else idps[i];
    }

    /** The DELETEs run one by one and not in a transaction: `done` of those from these
        tables go through, and a failure stops the rest. */
    method HardDeleteUser(user: string, done: nat)
      modifies this
      ensures View() == DeleteUser(old(View()), user, done)
    {
      if done == 0 {
        return;
      }
      tokens := map t | t in tokens && tokens[t].user != Some(user) :: tokens[t];
      if done == 1 {
        return;
      }
      sessions := map x | x in sessions && sessions[x].user != user :: sessions[x];
      if done == 2 {
        return;
      }
      codes := map c | c in codes && codes[c].user != user :: codes[c];
      if done == 3 {
        return;
      }
      idps := map i | i in idps && idps[i].user != user :: idps[i];
    }

    /** What deleting a client does to the consents: all given to it are gone. */
    method DeleteConsentsOf(client: string)
      modifies this
      ensures View() == old(View()).(consents := ForgetClient(old(consents), client))
    {
      consents := map k | k in consents && k.1 != client :: consents[k];
    }
  }

  lemma {:induction false} ScopeAfterRotation(tokens: map<string, Token>, refresh: string, now: int)
    requires OneTokenRow(tokens, refresh)
    ensures
      var after := RevokeWhere(tokens, TokensByRefresh(tokens, refresh), now);
      OneTokenRow(after, refresh) && ScopeOf(after, refresh) == ScopeOf(tokens, refresh)
  {
    var after := RevokeWhere(tokens, TokensByRefresh(tokens, refresh), now);
    if AnyToken(tokens, refresh) {
      var t :| t in tokens && tokens[t].refresh == refresh;
      assert after[t].refresh == refresh;
      ScopeOfRow(tokens, refresh, t);
      ScopeOfRow(after, refresh, t);
    } else {
      assert !AnyToken(after, refresh);
    }
  }

  /** When the whole list was worked through, it was the whole set. */
  lemma {:induction false} AllListed(ids: seq<string>, wanted: set<string>, k: nat)
    requires k <= |ids| && Lists(ids, wanted)
    ensures Prefix(ids, k) <= wanted
    ensures k == |ids| ==> Prefix(ids, k) == wanted
  {
    forall id | id in Prefix(ids, k) ensures id in wanted {
      assert id in ids;
    }
    if k == |ids| {
      forall id | id in wanted ensures id in Prefix(ids, k) {
        var i :| 0 <= i < |ids| && ids[i] == id;
        assert id in Prefix(ids, k);
      }
    }
  }

  lemma {:induction false} IdleSweptBy(db: Db, cfg: Config, now: int, ids: seq<string>, k: nat)
    requires cfg.idle > 0 && k <= |ids| && Lists(ids, IdleIds(db.idps, now - cfg.idle))
    ensures IdleSwept(db, cfg, now, Prefix(ids, k)) == CascadeAll(db, Prefix(ids, k), now)
  {
    hide CascadeAll;
    PrefixListed(ids, IdleIds(db.idps, now - cfg.idle), k);
  }

  lemma {:induction false} AgedSweptBy(db: Db, cfg: Config, now: int, ids: seq<string>, k: nat)
    requires cfg.maxAge > 0 && k <= |ids| && Lists(ids, AgedIds(db.idps, now - cfg.maxAge))
    ensures AgedSwept(db, cfg, now, Prefix(ids, k)) == CascadeAll(db, Prefix(ids, k), now)
  {
    hide CascadeAll;
    PrefixListed(ids, AgedIds(db.idps, now - cfg.maxAge), k);
  }

  lemma {:induction false} PrefixListed(ids: seq<string>, wanted: set<string>, k: nat)
    requires Lists(ids, wanted) && k <= |ids|
    ensures wanted * Prefix(ids, k) == Prefix(ids, k)
  {
  }

  /** The three statements, as executed, are the cascade: deactivating the children does not
      change what the subquery of the third finds. */
  lemma {:induction false} CascadeStatements(db: Db, id: string, now: int, after: Db)
    requires after.codes == db.codes && after.consents == db.consents
    requires after.idps ==
      if ActiveIdp(db.idps, id) then db.idps[id := db.idps[id].(deactivated := Some(now))] else db.idps
    requires after.sessions == DeactivateChildren(db.sessions, {id}, now)
    requires after.tokens == RevokeAccess(db.tokens, ChildAccess(after.sessions, {id}), now)
    ensures after == CascadeAll(db, {id}, now)
  {
    assert after.idps == DeactivateIdps(db.idps, {id}, now);
    forall a ensures a in ChildAccess(after.sessions, {id}) <==> a in ChildAccess(db.sessions, {id}) {
      ChildAccessUnchanged(db.sessions, after.sessions, id, a);
    }
    assert ChildAccess(after.sessions, {id}) == ChildAccess(db.sessions, {id});
  }

  lemma {:induction false} ChildAccessUnchanged(before: map<string, Session>, after: map<string, Session>, id: string,
                             a: string)
    requires after.Keys == before.Keys
    requires forall s :: s in before ==> after[s].idp == before[s].idp && after[s].access == before[s].access
    ensures a in ChildAccess(after, {id}) <==> a in ChildAccess(before, {id})
  {
  }

  lemma {:induction false} CascadeNone(db: Db, now: int)
    ensures CascadeAll(db, {}, now) == db
  {
    assert ChildAccess(db.sessions, {}) == {};
  }

  /** Cascading one more id extends the set, whatever came before: the order in which a
      sweep visits its sessions does not show in the result. */
  lemma {:induction false} CascadeOneMore(db: Db, ids: set<string>, id: string, now: int)
    ensures CascadeAll(CascadeAll(db, ids, now), {id}, now) == CascadeAll(db, ids + {id}, now)
  {
    var mid := CascadeAll(db, ids, now);
    assert DeactivateIdps(mid.idps, {id}, now) == DeactivateIdps(db.idps, ids + {id}, now);
    assert DeactivateChildren(mid.sessions, {id}, now) == DeactivateChildren(db.sessions, ids + {id}, now);
    var first, second, all :=
        ChildAccess(db.sessions, ids), ChildAccess(mid.sessions, {id}), ChildAccess(db.sessions, ids + {id});
    forall a ensures a in all <==> a in first || a in second {
      ChildAccessSplit(db.sessions, mid.sessions, ids, id, a);
    }
    RevokeTwice(db.tokens, first, second, all, now);
  }

  lemma {:induction false} RevokeTwice(tokens: map<string, Token>, a: set<string>, b: set<string>, both: set<string>,
          now: int)
    requires forall x :: x in both <==> x in a || x in b
    ensures RevokeAccess(RevokeAccess(tokens, a, now), b, now) == RevokeAccess(tokens, both, now)
  {
  }

  lemma {:induction false} ChildAccessSplit(before: map<string, Session>, after: map<string, Session>,
          ids: set<string>, id: string, a: string)
    requires after.Keys == before.Keys
    requires forall s :: s in before ==> after[s].idp == before[s].idp && after[s].access == before[s].access
    ensures a in ChildAccess(before, ids + {id}) <==> a in ChildAccess(before, ids) || a in ChildAccess(after, {id})
  {
  }
}
