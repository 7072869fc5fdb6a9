/** The four tables of a login's life (idp_sessions, sessions, tokens, auth_codes) plus
    user_consents, and the SQL statements that change them, each with its WHERE guard.
    Times are integers on one clock; secrets and keys are strings. */
module Tables {
  import opened Common
  import Scopes
  import Text

  /** A browser login. */
  datatype IdpSession = IdpSession(user: string, lastActivity: int, created: int, deactivated: Option<int>)

  /** An OAuth session, created with each user-backed token pair; `idp` names the browser
      login it was born from, if any. */
  datatype Session = Session(
    user: string, access: string, refresh: string, expires: int, deactivated: Option<int>, idp: Option<string>)

  datatype Grant = AuthorizationCode | ClientCredentials | RefreshToken | OtherGrant

  datatype Token = Token(
    user: Option<string>, access: string, refresh: string, accessExpires: int, refreshExpires: int,
    grant: Grant, scope: string, revoked: Option<int>)

  datatype AuthCode = AuthCode(
    user: string, client: string, scope: string, expires: int, used: bool, created: int, idp: Option<string>)

  datatype Db = Db(
    idps: map<string, IdpSession>, sessions: map<string, Session>, tokens: map<string, Token>,
    codes: map<string, AuthCode>, consents: Scopes.Consents)

  const EMPTY_DB := Db(map[], map[], map[], map[], map[])

  predicate ActiveIdp(idps: map<string, IdpSession>, id: string) {
    id in idps && idps[id].deactivated.None?
  }

  // ------------------------------------------------------------- idp_sessions

  /** `UpdateLastActivity`. */
  function Touch(idps: map<string, IdpSession>, id: string, now: int): map<string, IdpSession> {
    if ActiveIdp(idps, id) then idps[id := idps[id].(lastActivity := now)] else idps
  }

  function DeactivateIdps(idps: map<string, IdpSession>, ids: set<string>, now: int): map<string, IdpSession> {
    map i | i in idps :: if i in ids && idps[i].deactivated.None? then idps[i].(deactivated := Some(now)) else idps[i]
  }

  /** The ids that a `WHERE user_id = ?` selects. */
  function IdpsOf(idps: map<string, IdpSession>, user: string): set<string> {
    set i | i in idps && idps[i].user == user
  }

  /** `getIdleSessionIDs`. */
  function IdleIds(idps: map<string, IdpSession>, threshold: int): set<string> {
    set i | i in idps && idps[i].deactivated.None? && idps[i].lastActivity < threshold
  }

  /** `getExpiredMaxAgeSessionIDs`. */
  function AgedIds(idps: map<string, IdpSession>, createdBefore: int): set<string> {
    set i | i in idps && idps[i].deactivated.None? && idps[i].created < createdBefore
  }

  // -------------------------------------------------------- sessions and tokens

  predicate IsChild(s: Session, ids: set<string>) {
    s.idp.Some? && s.idp.value in ids
  }

  function DeactivateChildren(sessions: map<string, Session>, ids: set<string>, now: int): map<string, Session> {
    map s | s in sessions ::
      if IsChild(sessions[s], ids) && sessions[s].deactivated.None?
      then sessions[s].(deactivated := Some(now)) else sessions[s]
  }

  /** `SELECT access_token FROM sessions WHERE idp_session_id = ?`: of every child, also of
      those deactivated before. */
  function ChildAccess(sessions: map<string, Session>, ids: set<string>): set<string> {
    set s | s in sessions && IsChild(sessions[s], ids) :: sessions[s].access
  }

  function RevokeAccess(tokens: map<string, Token>, access: set<string>, now: int): map<string, Token> {
    map t | t in tokens ::
      if tokens[t].access in access && tokens[t].revoked.None? then tokens[t].(revoked := Some(now)) else tokens[t]
  }

  function RevokeWhere(tokens: map<string, Token>, ids: set<string>, now: int): map<string, Token> {
    map t | t in tokens ::
      if t in ids && tokens[t].revoked.None? then tokens[t].(revoked := Some(now)) else tokens[t]
  }

  function DeactivateWhere(sessions: map<string, Session>, ids: set<string>, now: int): map<string, Session> {
    map s | s in sessions ::
      if s in ids && sessions[s].deactivated.None? then sessions[s].(deactivated := Some(now)) else sessions[s]
  }

  function TokensOf(tokens: map<string, Token>, user: string, keep: string): set<string> {
    set t | t in tokens && tokens[t].user == Some(user) && (keep == "" || tokens[t].access != keep)
  }

  /** What `RevokeTokensByUserAndClient` selects. */
  function CodeTokensOf(tokens: map<string, Token>, user: string): set<string> {
    set t | t in tokens && tokens[t].user == Some(user) && tokens[t].grant == AuthorizationCode
  }

  function TokensByRefresh(tokens: map<string, Token>, refresh: string): set<string> {
    set t | t in tokens && tokens[t].refresh == refresh
  }

  function SessionsOf(sessions: map<string, Session>, user: string, keep: string): set<string> {
    set s | s in sessions && sessions[s].user == user && (keep == "" || sessions[s].access != keep)
  }

  /** The logins that some active session of the user names. */
  function InUse(sessions: map<string, Session>, user: string): set<string> {
    set s | s in sessions && sessions[s].user == user && sessions[s].deactivated.None?
              && sessions[s].idp.Some? :: sessions[s].idp.value
  }

  /** `revokeUserAccess`: the logins that an active session of the user still names stay. */
  function RevokeUserAccess(db: Db, user: string, keep: string, now: int): Db {
    var sessions := DeactivateWhere(db.sessions, SessionsOf(db.sessions, user, keep), now);
    db.(tokens := RevokeWhere(db.tokens, TokensOf(db.tokens, user, keep), now),
        sessions := sessions,
        idps := DeactivateIdps(db.idps, IdpsOf(db.idps, user) - InUse(sessions, user), now))
  }

  function TokensLeft(tokens: map<string, Token>, user: string): map<string, Token> {
    map t | t in tokens && tokens[t].user != Some(user) :: tokens[t]
  }

  function SessionsLeft(sessions: map<string, Session>, user: string): map<string, Session> {
    map s | s in sessions && sessions[s].user != user :: sessions[s]
  }

  function CodesLeft(codes: map<string, AuthCode>, user: string): map<string, AuthCode> {
    map c | c in codes && codes[c].user != user :: codes[c]
  }

  function LoginsLeft(idps: map<string, IdpSession>, user: string): map<string, IdpSession> {
    map i | i in idps && idps[i].user != user :: idps[i]
  }

  /** `HardDeleteUser` is not a transaction: `done` of its DELETEs from these four tables go
      through before one fails; four or more are all. */
  function DeleteUser(db: Db, user: string, done: nat): Db {
    db.(tokens := if done > 0 then TokensLeft(db.tokens, user) else db.tokens,
        sessions := if done > 1 then SessionsLeft(db.sessions, user) else db.sessions,
        codes := if done > 2 then CodesLeft(db.codes, user) else db.codes,
        idps := if done > 3 then LoginsLeft(db.idps, user) else db.idps)
  }

  /** `RevokeByTokenValue` stamps also what is revoked already. */
  function RevokeValue(tokens: map<string, Token>, value: string, now: int): map<string, Token> {
    map t | t in tokens ::
      if tokens[t].access == value || tokens[t].refresh == value
      then tokens[t].(revoked := Some(now)) else tokens[t]
  }

  // --------------------------------------------------------- the token endpoint

  /** A freshly generated token pair; the flags say whether generating it, writing its two
      rows and signing the ID token go through. */
  datatype Pair = Pair(
    tokenId: string, sessionId: string, access: string, refresh: string, accessExpires: int, refreshExpires: int,
    generated: bool, tokenStored: bool, sessionStored: bool, idSigned: bool)
  {
    /** Both rows are written. */
    predicate Stored() {
      generated && tokenStored && sessionStored
    }
  }

  /** What a refresh token says once its signature is checked: itself, its session and its
      expiry, in whole seconds. */
  datatype Jwt = Jwt(refresh: string, session: string, expires: int)

  function RefreshJwt(p: Pair): (j: Jwt)
    ensures j.expires <= p.refreshExpires
  {
    Jwt(p.refresh, p.sessionId, p.refreshExpires - p.refreshExpires % SECOND)
  }

  /** The answers of the token endpoint, told apart by error and description, or by the
      scope in the response. */
  datatype TokenAnswer =
    | TokensIssued(scope: string) | NotGenerated | TokenNotStored | SessionNotStored
    | InvalidCode | CodeReused | WrongClient | WrongVerifier | NotMarked | UserUnknown
    | InvalidRefresh | SessionGone | SessionOver | Replayed | MfaNeeded | NotRotated | ScopeExceeded

  /** The outcomes of a token request that do not depend on the session tables: of its checks,
      and of the UPDATE that marks the code or revokes the old pair. */
  datatype RedeemChecks = RedeemChecks(redirect: bool, client: bool, verifier: bool, marked: bool, user: bool)

  /** `scope` is the requested one, "" if the parameter is missing. */
  datatype RefreshChecks = RefreshChecks(client: bool, user: bool, mfa: bool, rotated: bool, scope: string)

  /** A token request up to the point where a pair is issued: the tables so far and the
      rejection, or the pair's owner, login and scope. */
  datatype Prepared =
    | Rejected(db: Db, answer: TokenAnswer)
    | Ready(db: Db, user: string, idp: Option<string>, grant: Grant, scope: string)

  /** `UserByAuthorizationCode`. A used code revokes what was issued to its user by
      authorization code. */
  function PrepareRedeem(db: Db, code: string, checks: RedeemChecks, now: int): Prepared {
    if code !in db.codes then Rejected(db, InvalidCode)
    else
      var row := db.codes[code];
      if row.used then
        Rejected(db.(tokens := RevokeWhere(db.tokens, CodeTokensOf(db.tokens, row.user), now)), CodeReused)
      else if !checks.redirect || now > row.expires then Rejected(db, InvalidCode)
      else if !checks.client then Rejected(db, WrongClient)
      else if !checks.verifier then Rejected(db, WrongVerifier)
      else if !checks.marked then Rejected(db, NotMarked)
      else
        var marked := db.(codes := db.codes[code := row.(used := true)]);
        if checks.user then Ready(marked, row.user, row.idp, AuthorizationCode, row.scope)
        else Rejected(marked, UserUnknown)
  }

  predicate AnyToken(tokens: map<string, Token>, refresh: string) {
    exists t :: t in tokens && tokens[t].refresh == refresh
  }

  predicate AnyRevoked(tokens: map<string, Token>, refresh: string) {
    exists t :: t in tokens && tokens[t].refresh == refresh && tokens[t].revoked.Some?
  }

  /** `UserByRefreshToken`: the reason for which a refresh is turned down, if any. A revoked
      token row means a replay. */
  function RefreshRejection(db: Db, jwt: Jwt, checks: RefreshChecks, now: int): Option<TokenAnswer> {
    if now >= jwt.expires then Some(InvalidRefresh)
    else if jwt.session !in db.sessions then Some(SessionGone)
    else if db.sessions[jwt.session].deactivated.Some? then Some(SessionOver)
    else if !checks.client then Some(WrongClient)
    else if AnyRevoked(db.tokens, jwt.refresh) then Some(Replayed)
    else if !checks.user then Some(UserUnknown)
    else if !checks.mfa && AnyToken(db.tokens, jwt.refresh) then Some(MfaNeeded)
    else None
  }

  /** `SELECT scope FROM tokens WHERE refresh_token = ?`; if there is no row the text stays
      empty. In a reachable state there is at most one, see `ServerRuns.PriorRowIsOwn`. */
  ghost function ScopeOf(tokens: map<string, Token>, refresh: string): string {
    if AnyToken(tokens, refresh) then
      var t :| t in tokens && tokens[t].refresh == refresh;
      tokens[t].scope
    else ""
  }

  ghost predicate OneTokenRow(tokens: map<string, Token>, refresh: string) {
    forall t, u :: t in tokens && u in tokens && tokens[t].refresh == refresh == tokens[u].refresh ==> t == u
  }

  lemma {:induction false} ScopeOfRow(tokens: map<string, Token>, refresh: string, t: string)
    requires OneTokenRow(tokens, refresh) && t in tokens && tokens[t].refresh == refresh
    ensures AnyToken(tokens, refresh) && ScopeOf(tokens, refresh) == tokens[t].scope
  {
  }

  /** A requested scope must not go beyond that of the token row; a missing one is the row's. */
  predicate ScopeFits(requested: string, granted: string) {
    requested == "" || Scopes.ScopeSet(requested) <= Scopes.ScopeSet(granted)
  }

  function EffectiveScope(requested: string, granted: string): string {
    if requested == "" then granted else requested
  }

  /** The refresh grant: a replay revokes everything of the user; otherwise the login is
      bumped, the old pair is revoked and, if the scope is in order, a new one is issued. The
      user of the session row is the subject of the refresh token. */
  ghost function PrepareRefresh(db: Db, jwt: Jwt, checks: RefreshChecks, now: int): Prepared {
    var rejection := RefreshRejection(db, jwt, checks, now);
    if rejection == Some(Replayed) then
      Rejected(db.(tokens := RevokeWhere(db.tokens, TokensOf(db.tokens, db.sessions[jwt.session].user, ""), now)),
               Replayed)
    else if rejection.Some? then Rejected(db, rejection.value)
    else
      var s := db.sessions[jwt.session];
      if !checks.rotated then Rejected(Bumped(db, s.idp, now), NotRotated)
      else
        var rotated, granted := Rotated(db, jwt.refresh, s.idp, now), ScopeOf(db.tokens, jwt.refresh);
        if ScopeFits(checks.scope, granted)
        then Ready(rotated, s.user, s.idp, RefreshToken, EffectiveScope(checks.scope, granted))
        else Rejected(rotated, ScopeExceeded)
  }

  function Bumped(db: Db, idp: Option<string>, now: int): Db {
    if idp.Some? then db.(idps := Touch(db.idps, idp.value, now)) else db
  }

  /** The bump of the login and the revocation of the old pair. */
  function Rotated(db: Db, refresh: string, idp: Option<string>, now: int): Db {
    Bumped(db, idp, now).(tokens := RevokeWhere(db.tokens, TokensByRefresh(db.tokens, refresh), now))
  }

  /** The token row, and for a user-backed grant the session row. */
  function Issue(db: Db, user: Option<string>, idp: Option<string>, grant: Grant, scope: string, p: Pair): Db {
    if !p.generated || !p.tokenStored then db
    else
      var db1 := db.(tokens := db.tokens[p.tokenId :=
        Token(user, p.access, if user.Some? then p.refresh else "", p.accessExpires,
              if user.Some? then p.refreshExpires else p.accessExpires, grant, scope, None)]);
      if user.None? || !p.sessionStored then db1
      else db1.(sessions := db.sessions[p.sessionId :=
        Session(user.value, p.access, p.refresh, p.accessExpires, None, idp)])
  }

  /** `containsScope(scope, "openid")`: an ID token goes with the pair. */
  predicate WantsId(scope: string) {
    "openid" in Text.Split(scope, ' ')
  }

  /** A client's own token has no session and no ID token. */
  function IssueAnswer(toUser: bool, scope: string, p: Pair): TokenAnswer {
    if !p.generated then NotGenerated
    else if !p.tokenStored then TokenNotStored
    else if toUser && !p.sessionStored then SessionNotStored
    else if toUser && WantsId(scope) && !p.idSigned then NotGenerated
    else TokensIssued(scope)
  }

  function Finish(prepared: Prepared, p: Pair): Db {
    match prepared
    case Rejected(db, _) => db
    case Ready(db, user, idp, grant, scope) => Issue(db, Some(user), idp, grant, scope, p)
  }

  function FinishAnswer(prepared: Prepared, p: Pair): TokenAnswer {
    match prepared
    case Rejected(_, answer) => answer
    case Ready(_, _, _, _, scope) => IssueAnswer(true, scope, p)
  }

  // --------------------------------------------------------------- the cascade

  /** Killing the browser logins `ids` and everything born from them. */
  function CascadeAll(db: Db, ids: set<string>, now: int): Db {
    db.(idps := DeactivateIdps(db.idps, ids, now),
        sessions := DeactivateChildren(db.sessions, ids, now),
        tokens := RevokeAccess(db.tokens, ChildAccess(db.sessions, ids), now))
  }

  // ---------------------------------------------------------------- the cleaner

  datatype Swept = AuthCodes | Tokens | Sessions | IdpSessions

  /** One DELETE of `transientTables`. */
  function DeleteExpired(db: Db, table: Swept, threshold: int): Db {
    match table
    case AuthCodes => db.(codes := map c | c in db.codes && !(db.codes[c].expires < threshold) :: db.codes[c])
    case Tokens => db.(tokens := map t | t in db.tokens && !(db.tokens[t].refreshExpires < threshold) :: db.tokens[t])
    case Sessions =>
      db.(sessions := map s | s in db.sessions && !(db.sessions[s].expires < threshold) :: db.sessions[s])
    case IdpSessions =>
      db.(idps := map i | i in db.idps
            && !(db.idps[i].deactivated.Some? && db.idps[i].deactivated.value < threshold) :: db.idps[i])
  }

  const TRANSIENT_TABLES: seq<Swept> := [AuthCodes, Tokens, Sessions, IdpSessions]

  /** The DELETEs of the listed tables, one after the other; a failing one is skipped. */
  function DeleteAll(db: Db, tables: seq<Swept>, skipped: set<Swept>, threshold: int): Db {
    if tables == [] then db
    else
      var rest := DeleteAll(db, tables[..|tables| - 1], skipped, threshold);
      var t := tables[|tables| - 1];
      if t in skipped then rest else DeleteExpired(rest, t, threshold)
  }

  /** The soft settings that the session code reads. */
  datatype Config = Config(ssoEnabled: bool, idle: int, maxAge: int, codeExpiration: int)

  predicate IdleLate(cfg: Config, s: IdpSession, now: int) {
    cfg.idle > 0 && s.lastActivity < now - cfg.idle
  }

  predicate AgeLate(cfg: Config, s: IdpSession, now: int) {
    cfg.maxAge > 0 && s.created < now - cfg.maxAge
  }

  /** A sweep at `now` would end the login. */
  predicate Late(cfg: Config, s: IdpSession, now: int) {
    IdleLate(cfg, s, now) || AgeLate(cfg, s, now)
  }

  /** The two sweeps as `cleanup.Run` calls them. `done` are the sessions whose cascade did
      not fail: everything on success, any part of it otherwise. */
  function IdleSwept(db: Db, cfg: Config, now: int, done: set<string>): Db {
    if cfg.idle > 0 then CascadeAll(db, IdleIds(db.idps, now - cfg.idle) * done, now) else db
  }

  function AgedSwept(db: Db, cfg: Config, now: int, done: set<string>): Db {
    if cfg.maxAge > 0 then CascadeAll(db, AgedIds(db.idps, now - cfg.maxAge) * done, now) else db
  }

  function CleanupRun(db: Db, cfg: Config, now: int, retention: int,
                      idleDone: set<string>, agedDone: set<string>, skipped: set<Swept>): Db {
    DeleteAll(AgedSwept(IdleSwept(db, cfg, now, idleDone), cfg, now, agedDone), TRANSIENT_TABLES, skipped,
              now - retention)
  }

  // ----------------------------------------------------------------- auth codes

  /** `AuthCodeByCode`. */
  predicate Redeemable(codes: map<string, AuthCode>, code: string, now: int) {
    code in codes && !codes[code].used && codes[code].expires > now
  }

  /** `CreateAuthCode`: `created` None is Go's zero time, an empty IdP id becomes NULL, and
      `code` is the primary key. */
  function NewCode(user: string, client: string, scope: string, expires: int, created: Option<int>,
                   idpId: string, now: int): AuthCode {
    AuthCode(user, client, scope, expires, false, if created.Some? then created.value else now,
             if idpId == "" then None else Some(idpId))
  }

  // ---------------------------------------------------------------------- logins

  /** The row of a new browser login; `login` is "" when it could not be created. */
  function LoggedIn(db: Db, login: string, user: string, now: int): Db {
    if login == "" then db else db.(idps := db.idps[login := IdpSession(user, now, now, None)])
  }

  /** `code` is "" when it could not be generated. */
  function LoggedInWithCode(db: Db, cfg: Config, login: string, user: string, code: string,
                            client: string, scope: string, now: int): Db {
    if code == "" then LoggedIn(db, login, user, now)
    else LoggedIn(db, login, user, now).(codes :=
      db.codes[code := NewCode(user, client, scope, now + cfg.codeExpiration, None, login, now)])
  }

  // ------------------------------------------------------------------ auto-login

  datatype AuthRequest = AuthRequest(
    cookie: string, prompt: string, maxAge: string, client: string, scope: string, consentRequired: Option<bool>)

  /** `autoLoginResult`: a redirect with a code, the consent page, or the login page (with
      the `hasSession` hint). */
  datatype Answer = Issued(code: string) | AskConsent | Login(hasSession: bool)

  const SECOND := 1_000_000_000

  /** Value of a text of decimal digits. */
  function Digits(s: string): Option<nat> {
    if s == "" then Some(0)
    else
      var c, r := s[|s| - 1], Digits(s[..|s| - 1]);
      if '0' <= c <= '9' && r.Some? then Some(10 * r.value + (c as int - '0' as int)) else None
  }

  /** `parseMaxAge`: `strconv.ParseInt(s, 10, 64)`, with -1 for absent, malformed, negative
      or out of range. */
  function ParseMaxAge(s: string): (n: int)
    ensures n >= -1
  {
    var body := if s != "" && s[0] in "+-" then s[1..] else s;
    var v := Digits(body);
    if body == "" || v.None? then -1
    else if s[0] == '-' then (if v.value == 0 then 0 else -1)
    else if v.value > MAX_INT64 then -1 else v.value
  }

  function Decimal(n: nat): (s: string)
    ensures s != "" && s[0] !in "+-"
  {
    if n < 10 then [('0' as int + n) as char] else Decimal(n / 10) + [('0' as int + n % 10) as char]
  }

  lemma {:induction false} DigitsOfDecimal(n: nat)
    ensures Digits(Decimal(n)) == Some(n)
  {
    var s := Decimal(n);
    if n < 10 {
      assert s[..0] == "";
    } else {
      DigitsOfDecimal(n / 10);
      assert s[..|s| - 1] == Decimal(n / 10);
    }
  }

  /** A number printed in decimal is read back if it fits 64 bits, with or without a plus
      sign; out of range or negative it counts as no limit, and minus zero is zero. */
  lemma {:induction false} MaxAgeRoundTrip(n: nat)
    ensures ParseMaxAge(Decimal(n)) == if n <= MAX_INT64 then n else -1
    ensures ParseMaxAge("+" + Decimal(n)) == ParseMaxAge(Decimal(n))
    ensures ParseMaxAge("-" + Decimal(n)) == if n == 0 then 0 else -1
  {
    DigitsOfDecimal(n);
    assert ("+" + Decimal(n))[1..] == Decimal(n) && ("-" + Decimal(n))[1..] == Decimal(n);
  }

  predicate IsDigit(c: char) {
    '0' <= c <= '9'
  }

  lemma {:induction false} DigitsIff(s: string)
    ensures Digits(s).Some? <==> forall i :: 0 <= i < |s| ==> IsDigit(s[i])
    ensures Digits("0" + s) == Digits(s)
  {
    if s != "" {
      var init := s[..|s| - 1];
      DigitsIff(init);
      assert s == init + [s[|s| - 1]];
      assert ("0" + s)[..|s|] == "0" + init && ("0" + s)[|s|] == s[|s| - 1];
    } else {
      assert ("0" + s)[..0] == "" && ("0" + s)[0] == '0';
    }
  }

  /** Anything else than digits, with at most one sign before them, means no limit; leading zeros
      do not count. */
  lemma {:induction false} MaxAgeElse(s: string)
    ensures s in {"", "+", "-"} ==> ParseMaxAge(s) == -1
    ensures (exists i :: 0 <= i < |s| && !IsDigit(s[i]) && (i > 0 || s[i] !in "+-")) ==> ParseMaxAge(s) == -1
    ensures s != "" && IsDigit(s[0]) ==> ParseMaxAge("0" + s) == ParseMaxAge(s)
  {
    var body := if s != "" && s[0] in "+-" then s[1..] else s;
    DigitsIff(body);
    DigitsIff(s);
    if i :| 0 <= i < |s| && !IsDigit(s[i]) && (i > 0 || s[i] !in "+-") {
      assert !IsDigit(body[if body == s then i else i - 1]);
    }
  }

  const MAX_INT64 := 0x7fff_ffff_ffff_ffff

  /** Go's 64-bit arithmetic: the product of `max_age` and a second can wrap around. */
  function Wrap64(x: int): (r: int)
    ensures -MAX_INT64 - 1 <= r <= MAX_INT64
    ensures -MAX_INT64 - 1 <= x <= MAX_INT64 ==> r == x
    ensures r % 2 == x % 2
  {
    var m := x % 0x1_0000_0000_0000_0000;
    if m > MAX_INT64 then m - 0x1_0000_0000_0000_0000 else m
  }

  predicate SameVerdict(age: int, limit: int, other: int) {
    age > limit <==> age > other
  }

  /** The age test of a request is the one its `max_age` asks for, for every age that Go can
      represent, if and only if the limit fits a duration (some 292 years). */
  lemma {:induction false} MaxAgeIsKeptIff(n: nat)
    requires n <= MAX_INT64
    ensures n <= MAX_INT64 / SECOND <==>
      forall age: int :: -MAX_INT64 - 1 <= age <= MAX_INT64 ==> SameVerdict(age, Wrap64(n * SECOND), n * SECOND)
  {
    if n > MAX_INT64 / SECOND {
      assert n * SECOND > MAX_INT64;
      assert n * SECOND % 2 == 0;
      assert !SameVerdict(MAX_INT64, Wrap64(n * SECOND), n * SECOND);
    }
  }

  /** The session check of `tryAutoLogin`: within the idle timeout, the session's maximum
      age, and the request's max_age. */
  predicate Fresh(cfg: Config, s: IdpSession, maxAge: string, now: int) {
    && (cfg.idle == 0 || now - s.lastActivity < cfg.idle)
    && (cfg.maxAge == 0 || now - s.created < cfg.maxAge)
    && !(ParseMaxAge(maxAge) >= 0 && now - s.created > Wrap64(ParseMaxAge(maxAge) * SECOND))
  }

  ghost predicate Accepted(cfg: Config, db: Db, r: AuthRequest, now: int) {
    && cfg.ssoEnabled && !Scopes.HasPrompt(r.prompt, "login")
    && r.cookie != "" && ActiveIdp(db.idps, r.cookie) && Fresh(cfg, db.idps[r.cookie], r.maxAge, now)
  }

  ghost predicate MustConsent(db: Db, r: AuthRequest)
    requires r.cookie in db.idps
  {
    || Scopes.HasPrompt(r.prompt, "consent")
    || Scopes.NeedsConsent(r.consentRequired, db.consents, db.idps[r.cookie].user, r.client, r.scope, r.prompt)
  }

  /** `code` is the secure code generated for the request, "" if that failed; it collides
      with no row unless it was generated before. */
  ghost function AutoLoginAnswer(cfg: Config, db: Db, r: AuthRequest, now: int, code: string): Answer {
    if Accepted(cfg, db, r, now) then
      if MustConsent(db, r) then AskConsent
      else if code == "" || code in db.codes then Login(true) else Issued(code)
    else
      Login(cfg.ssoEnabled && !Scopes.HasPrompt(r.prompt, "login") && r.cookie != "" && ActiveIdp(db.idps, r.cookie))
  }

  ghost function AutoLogin(cfg: Config, db: Db, r: AuthRequest, now: int, code: string): Db {
    var answer := AutoLoginAnswer(cfg, db, r, now, code);
    if !Accepted(cfg, db, r, now) then db
    else
      var touched := db.(idps := Touch(db.idps, r.cookie, now));
      if answer.Issued? then
        var s := db.idps[r.cookie];
        touched.(codes := db.codes[code := NewCode(s.user, r.client, r.scope, now + cfg.codeExpiration,
                                                   Some(s.created), r.cookie, now)])
      else touched
  }

  // --------------------------------------------------------------- consent POST

  /** `validateSession` looks at the cookie's row only: no idle or age check here. */
  ghost predicate ConsentAccepted(db: Db, cookie: string, deny: bool) {
    cookie != "" && ActiveIdp(db.idps, cookie) && !deny
  }

  /** `upsertOk` says that the consent could be stored; `code` is "" if generating it
      failed. */
  ghost function ConsentPost(cfg: Config, db: Db, cookie: string, client: string, scope: string,
                             deny: bool, upsertOk: bool, code: string, now: int): Db {
    if !ConsentAccepted(db, cookie, deny) || !upsertOk then db
    else
      var user := db.idps[cookie].user;
      var granted := db.(consents := Scopes.Upsert(db.consents, user, client, scope));
      if code == "" || code in db.codes then granted
      else granted.(codes := db.codes[code := NewCode(user, client, scope, now + cfg.codeExpiration, None, cookie,
                                                      now)])
  }

  /** Deleting a client forgets every consent given to it. */
  function ForgetClient(consents: Scopes.Consents, client: string): Scopes.Consents {
    map k | k in consents && k.1 != client :: consents[k]
  }
}
