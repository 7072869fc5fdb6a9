/** Runs of the server: every request and every cleaner tick that touches the session
    tables, as one step at one instant of a clock that never goes back. */
module ServerRuns {
  import opened Common
  import opened Tables
  import Scopes

  datatype Op =
    // FinalizeLogin; most login pages, federation and email verification also issue a code.
    // `login` and `code` are "" when they could not be created.
    | Login(login: string, user: string)
    | LoginWithCode(login: string, user: string, code: string, client: string, scope: string)
    | SignOn(r: AuthRequest, code: string)
    | PostConsent(cookie: string, client: string, scope: string, deny: bool, upsertOk: bool, code: string)
    | DeactivateLogin(login: string)
    | DeactivateUserLogins(user: string)
    | Cascade(login: string, failed: bool)
    // the token endpoint
    | Redeem(code: string, redeemChecks: RedeemChecks, pair: Pair)
    | Refresh(jwt: Jwt, refreshChecks: RefreshChecks, pair: Pair)
    | IssueToUser(user: string, scope: string, pair: Pair)
    | IssueToClient(scope: string, pair: Pair)
    // revocation and deletion
    | RevokeToken(value: string)
    | RevokeRow(tokenId: string)
    | DeactivateSession(sessionId: string)
    | DeactivateUserSessions(user: string)
    | RevokeUser(user: string, keep: string)
    | HardDelete(user: string, done: nat)
    | DeleteClient(client: string)
    // the cleaner and the admin
    | Cleanup(retention: int, idleDone: set<string>, agedDone: set<string>, skipped: set<Swept>)
    | Reconfigure(cfg: Config)

  datatype Event = Event(now: int, op: Op)

  /** `seen` is every secret and key generated so far; `born` remembers for whom each
      browser login was created, also after its row is gone; `signed` is every refresh token
      the server has signed. */
  datatype State = State(
    db: Db, cfg: Config, clock: int, seen: set<string>, born: map<string, string>, signed: set<Jwt>)

  // -------------------------------------------------------------------- one step

  ghost function Execute(cfg: Config, db: Db, now: int, op: Op): Db {
    match op
    case Login(login, user) => LoggedIn(db, login, user, now)
    case LoginWithCode(login, user, code, client, scope) =>
      LoggedInWithCode(db, cfg, login, user, code, client, scope, now)
    case SignOn(r, code) => AutoLogin(cfg, db, r, now, code)
    case PostConsent(cookie, client, scope, deny, upsertOk, code) =>
      ConsentPost(cfg, db, cookie, client, scope, deny, upsertOk, code, now)
    case DeactivateLogin(login) => db.(idps := DeactivateIdps(db.idps, {login}, now))
    case DeactivateUserLogins(user) => db.(idps := DeactivateIdps(db.idps, IdpsOf(db.idps, user), now))
    case Cascade(login, failed) => if failed || login == "" then db else CascadeAll(db, {login}, now)
    case Redeem(code, checks, pair) => Finish(PrepareRedeem(db, code, checks, now), pair)
    case Refresh(jwt, checks, pair) => Finish(PrepareRefresh(db, jwt, checks, now), pair)
    case IssueToUser(user, scope, pair) => Issue(db, Some(user), None, OtherGrant, scope, pair)
    case IssueToClient(scope, pair) => Issue(db, None, None, ClientCredentials, scope, pair)
    case RevokeToken(value) => db.(tokens := RevokeValue(db.tokens, value, now))
    case RevokeRow(tokenId) => db.(tokens := RevokeWhere(db.tokens, {tokenId}, now))
    case DeactivateSession(sessionId) =>
      if sessionId in db.sessions
      then db.(sessions := db.sessions[sessionId := db.sessions[sessionId].(deactivated := Some(now))]) else db
    case DeactivateUserSessions(user) =>
      db.(sessions := DeactivateWhere(db.sessions, SessionsOf(db.sessions, user, ""), now))
    case RevokeUser(user, keep) => RevokeUserAccess(db, user, keep, now)
    case HardDelete(user, done) => DeleteUser(db, user, done)
    case DeleteClient(client) => db.(consents := ForgetClient(db.consents, client))
    case Cleanup(retention, idleDone, agedDone, skipped) =>
      CleanupRun(db, cfg, now, retention, idleDone, agedDone, skipped)
    case Reconfigure(_) => db
  }

  /** The secrets a step generates. */
  function PairIds(p: Pair): set<string> {
    {p.tokenId, p.sessionId, p.access, p.refresh}
  }

  function NewIds(op: Op): set<string> {
    match op
    case Login(login, _) => {login} - {""}
    case LoginWithCode(login, _, code, _, _) => {login, code} - {""}
    case SignOn(_, code) => {code} - {""}
    case PostConsent(_, _, _, deny, _, code) => if deny then {} else {code} - {""}
    case Redeem(_, _, pair) => PairIds(pair)
    case Refresh(_, _, pair) => PairIds(pair)
    case IssueToUser(_, _, pair) => PairIds(pair)
    case IssueToClient(_, pair) => PairIds(pair)
    case _ => {}
  }

  function Pairs(op: Op): set<Pair> {
    match op
    case Redeem(_, _, pair) => {pair}
    case Refresh(_, _, pair) => {pair}
    case IssueToUser(_, _, pair) => {pair}
    case IssueToClient(_, pair) => {pair}
    case _ => {}
  }

  function NewLogins(op: Op): map<string, string> {
    match op
    case Login(login, user) => if login == "" then map[] else map[login := user]
    case LoginWithCode(login, user, _, _, _) => if login == "" then map[] else map[login := user]
    case _ => map[]
  }

  /** The refresh tokens that a step signs. */
  function NewJwts(op: Op): set<Jwt> {
    if op.IssueToClient? then {} else set p | p in Pairs(op) :: RefreshJwt(p)
  }

  /** The clock does not go back, generated secrets are new, non-empty and distinct, and a
      refresh token passes its signature check only if the server signed it. */
  predicate Legal(st: State, e: Event) {
    && st.clock <= e.now
    && NewIds(e.op) !! st.seen
    && "" !in NewIds(e.op)
    && (e.op.LoginWithCode? ==> e.op.code == "" || e.op.code != e.op.login)
    && (forall p :: p in Pairs(e.op) ==> p.access != p.refresh)
    && (e.op.Refresh? ==> e.op.jwt in st.signed)
  }

  ghost function Step(st: State, e: Event): State {
    State(Execute(st.cfg, st.db, e.now, e.op),
          if e.op.Reconfigure? then e.op.cfg else st.cfg,
          e.now, st.seen + NewIds(e.op), st.born + NewLogins(e.op), st.signed + NewJwts(e.op))
  }

  ghost predicate LegalRun(st: State, es: seq<Event>)
    decreases |es|
  {
    es == [] || (Legal(st, es[0]) && LegalRun(Step(st, es[0]), es[1..]))
  }

  ghost function Run(st: State, es: seq<Event>): State
    decreases |es|
  {
    if es == [] then st else Run(Step(st, es[0]), es[1..])
  }

  function Genesis(cfg: Config): State {
    State(EMPTY_DB, cfg, 0, {}, map[], {})
  }

  lemma {:induction false} RunCons(st: State, e: Event, es: seq<Event>)
    ensures Run(st, [e] + es) == Run(Step(st, e), es)
    ensures LegalRun(st, [e] + es) <==> Legal(st, e) && LegalRun(Step(st, e), es)
  {
  }

  lemma {:induction false} RunConcat(st: State, a: seq<Event>, b: seq<Event>)
    ensures Run(st, a + b) == Run(Run(st, a), b)
    ensures LegalRun(st, a + b) <==> LegalRun(st, a) && LegalRun(Run(st, a), b)
    decreases |a|
  {
    if a == [] {
      assert a + b == b;
    } else {
      assert (a + b)[0] == a[0] && (a + b)[1..] == a[1..] + b;
      RunConcat(Step(st, a[0]), a[1..], b);
    }
  }

  lemma {:induction false} ClockAdvances(st: State, es: seq<Event>)
    requires LegalRun(st, es)
    ensures st.clock <= Run(st, es).clock && st.seen <= Run(st, es).seen
    decreases |es|
  {
    if es != [] {
      ClockAdvances(Step(st, es[0]), es[1..]);
    }
  }

  // ------------------------------------------------------------------ the invariant

  /** Keys in the tables were generated, every login belongs to the user it was created
      for, and whatever names a login (an authorization code, an OAuth session) belongs to
      that same user. */
  ghost predicate LinksOf(db: Db, born: map<string, string>, seen: set<string>) {
    && "" !in seen
    && db.idps.Keys <= born.Keys <= seen
    && db.codes.Keys <= seen
    && (forall i :: i in db.idps ==> born[i] == db.idps[i].user)
    && (forall c :: c in db.codes ==> LinkOk(born, db.codes[c].idp, db.codes[c].user))
    && (forall s :: s in db.sessions ==> LinkOk(born, db.sessions[s].idp, db.sessions[s].user))
  }

  ghost predicate Links(st: State) {
    LinksOf(st.db, st.born, st.seen)
  }

  ghost predicate LinkOk(born: map<string, string>, idp: Option<string>, user: string) {
    idp.Some? ==> idp.value in born && born[idp.value] == user
  }

  /** Token rows: secrets were generated, each access token and each refresh token has one
      row and no access token is a refresh token; exactly a client's own token has no user and no refresh token. */
  ghost predicate TokenSecrets(tokens: map<string, Token>, seen: set<string>) {
    && tokens.Keys <= seen
    && (forall t :: t in tokens ==> TokenSecret(tokens[t], seen))
    && (forall t, u :: t in tokens && u in tokens && tokens[t].access == tokens[u].access ==> t == u)
    && (forall t, u :: t in tokens && u in tokens && tokens[t].refresh == tokens[u].refresh != "" ==> t == u)
    && (forall t, u :: t in tokens && u in tokens ==> tokens[t].refresh != tokens[u].access)
  }

  ghost predicate TokenSecret(t: Token, seen: set<string>) {
    && t.access in seen && (t.user.None? <==> t.grant == ClientCredentials)
    && if t.user.Some? then t.refresh in seen else t.refresh == ""
  }

  /** Session rows: at most one for each access and each refresh token. */
  ghost predicate SessionSecrets(sessions: map<string, Session>, seen: set<string>) {
    && sessions.Keys <= seen
    && (forall x :: x in sessions ==> sessions[x].access in seen && sessions[x].refresh in seen)
    && (forall x, y :: x in sessions && y in sessions && sessions[x].access == sessions[y].access ==> x == y)
    && (forall x, y :: x in sessions && y in sessions && sessions[x].refresh == sessions[y].refresh ==> x == y)
  }

  /** A token row and a session row share both secrets and the user, or no secret. */
  ghost predicate Paired(t: Token, x: Session) {
    && t.refresh != x.access && t.access != x.refresh
    && (t.access == x.access <==> t.refresh == x.refresh)
    && (t.access == x.access ==> t.user == Some(x.user))
  }

  ghost predicate PairSecrets(tokens: map<string, Token>, sessions: map<string, Session>) {
    forall t, x :: t in tokens && x in sessions ==> Paired(tokens[t], sessions[x])
  }

  /** A signed refresh token names the one session row that has a copy of it, and does not
      outlive its token row. */
  ghost predicate JwtSecrets(db: Db, signed: set<Jwt>, seen: set<string>) {
    forall j :: j in signed ==> JwtSecret(db, j, seen)
  }

  ghost predicate JwtSecret(db: Db, j: Jwt, seen: set<string>) {
    && j.refresh in seen && j.session in seen
    && (forall x :: x in db.sessions ==> (x == j.session <==> db.sessions[x].refresh == j.refresh))
    && (forall t :: t in db.tokens && db.tokens[t].refresh == j.refresh ==> j.expires <= db.tokens[t].refreshExpires)
  }

  ghost predicate SecretsOf(db: Db, signed: set<Jwt>, seen: set<string>) {
    && TokenSecrets(db.tokens, seen) && SessionSecrets(db.sessions, seen)
    && PairSecrets(db.tokens, db.sessions) && JwtSecrets(db, signed, seen)
  }

  ghost predicate Secrets(st: State) {
    SecretsOf(st.db, st.signed, st.seen)
  }

  ghost predicate Inv(st: State) {
    Links(st) && Secrets(st)
  }

  // --------------------------------------------- steps that issue nothing

  /** Rows of a table only change in the fields not compared, or go. */
  ghost predicate IdpsKept(a: map<string, IdpSession>, b: map<string, IdpSession>) {
    b.Keys <= a.Keys && forall i :: i in b ==> b[i].user == a[i].user
  }

  ghost predicate CodesKept(a: map<string, AuthCode>, b: map<string, AuthCode>) {
    b.Keys <= a.Keys && forall c :: c in b ==> b[c].user == a[c].user && b[c].idp == a[c].idp
  }

  ghost predicate SessionsKept(a: map<string, Session>, b: map<string, Session>) {
    && b.Keys <= a.Keys
    && (forall s :: s in b ==> b[s] == a[s].(deactivated := b[s].deactivated))
    && (forall s :: s in b && a[s].deactivated.Some? ==> b[s].deactivated.Some?)
  }

  ghost predicate TokensKept(a: map<string, Token>, b: map<string, Token>) {
    && b.Keys <= a.Keys
    && (forall t :: t in b ==> b[t] == a[t].(revoked := b[t].revoked))
    && (forall t :: t in b && a[t].revoked.Some? ==> b[t].revoked.Some?)
  }

  /** Nothing is added, no row changes its owner, its links or its secrets, and no stamp
      is taken back. */
  ghost predicate Quiet(a: Db, b: Db) {
    && IdpsKept(a.idps, b.idps) && CodesKept(a.codes, b.codes)
    && SessionsKept(a.sessions, b.sessions) && TokensKept(a.tokens, b.tokens)
  }

  lemma {:induction false} QuietTransitive(a: Db, b: Db, c: Db)
    requires Quiet(a, b) && Quiet(b, c)
    ensures Quiet(a, c)
  {
  }

  lemma {:induction false} IdpsOnly(db: Db, idps: map<string, IdpSession>)
    requires IdpsKept(db.idps, idps)
    ensures Quiet(db, db.(idps := idps))
  {
  }

  lemma {:induction false} TokensOnly(db: Db, tokens: map<string, Token>)
    requires TokensKept(db.tokens, tokens)
    ensures Quiet(db, db.(tokens := tokens))
  {
  }

  lemma {:induction false} SessionsOnly(db: Db, sessions: map<string, Session>)
    requires SessionsKept(db.sessions, sessions)
    ensures Quiet(db, db.(sessions := sessions))
  {
  }

  lemma {:induction false} CodesOnly(db: Db, codes: map<string, AuthCode>)
    requires CodesKept(db.codes, codes)
    ensures Quiet(db, db.(codes := codes))
  {
  }

  lemma {:induction false} RevokeKeeps(tokens: map<string, Token>, ids: set<string>, now: int)
    ensures TokensKept(tokens, RevokeWhere(tokens, ids, now))
  {
  }

  lemma {:induction false} DeactivateKeeps(sessions: map<string, Session>, ids: set<string>, now: int)
    ensures SessionsKept(sessions, DeactivateWhere(sessions, ids, now))
  {
  }

  lemma {:induction false} CascadeIsQuiet(db: Db, ids: set<string>, now: int)
    ensures Quiet(db, CascadeAll(db, ids, now))
  {
  }

  lemma {:induction false} DeleteOneIsQuiet(db: Db, table: Swept, threshold: int)
    ensures Quiet(db, DeleteExpired(db, table, threshold))
  {
  }

  lemma {:induction false} DeleteAllIsQuiet(db: Db, tables: seq<Swept>, skipped: set<Swept>, threshold: int)
    ensures Quiet(db, DeleteAll(db, tables, skipped, threshold))
    decreases |tables|
  {
    if tables != [] {
      var rest := DeleteAll(db, tables[..|tables| - 1], skipped, threshold);
      var t := tables[|tables| - 1];
      DeleteAllIsQuiet(db, tables[..|tables| - 1], skipped, threshold);
      DeleteOneIsQuiet(rest, t, threshold);
      QuietTransitive(db, rest, DeleteExpired(rest, t, threshold));
    }
  }

  lemma {:induction false} IdleSweepIsQuiet(db: Db, cfg: Config, now: int, done: set<string>)
    ensures Quiet(db, IdleSwept(db, cfg, now, done))
  {
    hide CascadeAll;
    CascadeIsQuiet(db, IdleIds(db.idps, now - cfg.idle) * done, now);
  }

  lemma {:induction false} AgedSweepIsQuiet(db: Db, cfg: Config, now: int, done: set<string>)
    ensures Quiet(db, AgedSwept(db, cfg, now, done))
  {
    hide CascadeAll;
    CascadeIsQuiet(db, AgedIds(db.idps, now - cfg.maxAge) * done, now);
  }

  lemma {:induction false} CleanupIsQuiet(db: Db, cfg: Config, now: int, retention: int,
                                          idleDone: set<string>, agedDone: set<string>, skipped: set<Swept>)
    ensures Quiet(db, CleanupRun(db, cfg, now, retention, idleDone, agedDone, skipped))
  {
    var db1 := IdleSwept(db, cfg, now, idleDone);
    var db2 := AgedSwept(db1, cfg, now, agedDone);
    IdleSweepIsQuiet(db, cfg, now, idleDone);
    AgedSweepIsQuiet(db1, cfg, now, agedDone);
    DeleteAllIsQuiet(db2, TRANSIENT_TABLES, skipped, now - retention);
    QuietTransitive(db, db1, db2);
    QuietTransitive(db, db2, DeleteAll(db2, TRANSIENT_TABLES, skipped, now - retention));
  }

  ghost predicate Issues(op: Op) {
    op.Login? || op.LoginWithCode? || op.SignOn? || op.PostConsent? || Pairs(op) != {}
  }

  lemma {:induction false} RevokeUserIsQuiet(db: Db, user: string, keep: string, now: int)
    ensures Quiet(db, RevokeUserAccess(db, user, keep, now))
  {
    RevokeKeeps(db.tokens, TokensOf(db.tokens, user, keep), now);
    DeactivateKeeps(db.sessions, SessionsOf(db.sessions, user, keep), now);
  }

  lemma {:induction false} DeleteUserIsQuiet(db: Db, user: string, done: nat)
    ensures Quiet(db, DeleteUser(db, user, done))
  {
  }

  lemma {:induction false} IdpStepIsQuiet(cfg: Config, db: Db, now: int, op: Op)
    requires op.DeactivateLogin? || op.DeactivateUserLogins?
    ensures Quiet(db, Execute(cfg, db, now, op))
  {
  }

  lemma {:induction false} TokenStepIsQuiet(cfg: Config, db: Db, now: int, op: Op)
    requires op.RevokeToken? || op.RevokeRow?
    ensures Quiet(db, Execute(cfg, db, now, op))
  {
  }

  lemma {:induction false} SessionStepIsQuiet(cfg: Config, db: Db, now: int, op: Op)
    requires op.DeactivateSession? || op.DeactivateUserSessions?
    ensures Quiet(db, Execute(cfg, db, now, op))
  {
    if op.DeactivateUserSessions? {
      var sessions := DeactivateWhere(db.sessions, SessionsOf(db.sessions, op.user, ""), now);
      DeactivateKeeps(db.sessions, SessionsOf(db.sessions, op.user, ""), now);
      SessionsOnly(db, sessions);
    } else if op.sessionId in db.sessions {
      var sessions := db.sessions[op.sessionId := db.sessions[op.sessionId].(deactivated := Some(now))];
      SessionsOnly(db, sessions);
    }
  }

  lemma {:induction false} QuietStep(cfg: Config, db: Db, now: int, op: Op)
    requires !Issues(op)
    ensures Quiet(db, Execute(cfg, db, now, op))
  {
    if op.DeactivateLogin? || op.DeactivateUserLogins? {
      IdpStepIsQuiet(cfg, db, now, op);
    } else if op.RevokeToken? || op.RevokeRow? {
      TokenStepIsQuiet(cfg, db, now, op);
    } else if op.DeactivateSession? || op.DeactivateUserSessions? {
      SessionStepIsQuiet(cfg, db, now, op);
    } else if op.Cascade? {
      CascadeIsQuiet(db, {op.login}, now);
    } else if op.RevokeUser? {
      RevokeUserIsQuiet(db, op.user, op.keep, now);
    } else if op.HardDelete? {
      DeleteUserIsQuiet(db, op.user, op.done);
    } else if op.Cleanup? {
      CleanupIsQuiet(db, cfg, now, op.retention, op.idleDone, op.agedDone, op.skipped);
    } else {
      assert op.Reconfigure? || op.DeleteClient?;
    }
  }

  lemma {:induction false} RedeemIsQuiet(db: Db, code: string, checks: RedeemChecks, now: int)
    ensures Quiet(db, PrepareRedeem(db, code, checks, now).db)
  {
    if code in db.codes {
      var row := db.codes[code];
      RevokeKeeps(db.tokens, CodeTokensOf(db.tokens, row.user), now);
      TokensOnly(db, RevokeWhere(db.tokens, CodeTokensOf(db.tokens, row.user), now));
      CodesOnly(db, db.codes[code := row.(used := true)]);
    }
  }

  lemma {:induction false} BumpIsQuiet(db: Db, idp: Option<string>, now: int)
    ensures Quiet(db, Bumped(db, idp, now))
  {
    IdpsOnly(db, Bumped(db, idp, now).idps);
  }

  lemma {:induction false} RotationIsQuiet(db: Db, refresh: string, idp: Option<string>, now: int)
    ensures Quiet(db, Rotated(db, refresh, idp, now))
  {
    var rotated := Rotated(db, refresh, idp, now);
    BumpIsQuiet(db, idp, now);
    RevokeKeeps(db.tokens, TokensByRefresh(db.tokens, refresh), now);
    TokensOnly(Bumped(db, idp, now), rotated.tokens);
    QuietTransitive(db, Bumped(db, idp, now), rotated);
  }

  lemma {:induction false} RefreshIsQuiet(db: Db, jwt: Jwt, checks: RefreshChecks, now: int)
    ensures Quiet(db, PrepareRefresh(db, jwt, checks, now).db)
  {
    if jwt.session in db.sessions {
      var s := db.sessions[jwt.session];
      RevokeKeeps(db.tokens, TokensOf(db.tokens, s.user, ""), now);
      TokensOnly(db, RevokeWhere(db.tokens, TokensOf(db.tokens, s.user, ""), now));
      BumpIsQuiet(db, s.idp, now);
      RotationIsQuiet(db, jwt.refresh, s.idp, now);
    }
  }

  // ---------------------------------------------------- preserving the invariant

  lemma {:induction false} QuietKeepsInv(st: State, db: Db)
    requires Inv(st) && Quiet(st.db, db)
    ensures Inv(st.(db := db))
  {
    QuietKeepsSecrets(st, db);
  }

  lemma {:induction false} QuietKeepsTokens(a: map<string, Token>, b: map<string, Token>, seen: set<string>)
    requires TokenSecrets(a, seen) && TokensKept(a, b)
    ensures TokenSecrets(b, seen)
  {
    forall t | t in b ensures TokenSecret(b[t], seen) {
      assert TokenSecret(a[t], seen);
    }
  }

  lemma {:induction false} QuietKeepsSessions(a: map<string, Session>, b: map<string, Session>, seen: set<string>)
    requires SessionSecrets(a, seen) && SessionsKept(a, b)
    ensures SessionSecrets(b, seen)
  {
  }

  lemma {:induction false} QuietKeepsPairs(a: Db, b: Db)
    requires PairSecrets(a.tokens, a.sessions) && Quiet(a, b)
    ensures PairSecrets(b.tokens, b.sessions)
  {
    forall t, x | t in b.tokens && x in b.sessions ensures Paired(b.tokens[t], b.sessions[x]) {
      assert Paired(a.tokens[t], a.sessions[x]);
    }
  }

  lemma {:induction false} QuietKeepsJwts(a: Db, b: Db, signed: set<Jwt>, seen: set<string>)
    requires JwtSecrets(a, signed, seen) && Quiet(a, b)
    ensures JwtSecrets(b, signed, seen)
  {
    forall j | j in signed ensures JwtSecret(b, j, seen) {
      assert JwtSecret(a, j, seen);
    }
  }

  lemma {:induction false} QuietKeepsSecrets(st: State, db: Db)
    requires Secrets(st) && Quiet(st.db, db)
    ensures Secrets(st.(db := db))
  {
    hide TokenSecrets, SessionSecrets, PairSecrets, JwtSecrets;
    QuietKeepsTokens(st.db.tokens, db.tokens, st.seen);
    QuietKeepsSessions(st.db.sessions, db.sessions, st.seen);
    QuietKeepsPairs(st.db, db);
    QuietKeepsJwts(st.db, db, st.signed, st.seen);
  }

  /** The pair is new: none of its keys and secrets was generated before. */
  ghost predicate NewPairFor(st: State, p: Pair) {
    PairIds(p) !! st.seen && "" !in PairIds(p) && p.access != p.refresh
  }

  /** The state in which the pair's secrets count as generated and its refresh token as
      signed. */
  function Known(st: State, p: Pair, toUser: bool): State {
    st.(seen := st.seen + PairIds(p), signed := if toUser then st.signed + {RefreshJwt(p)} else st.signed)
  }

  lemma {:induction false} PairMembers(st: State, p: Pair)
    requires PairIds(p) !! st.seen
    ensures p.tokenId !in st.seen && p.sessionId !in st.seen && p.access !in st.seen && p.refresh !in st.seen
  {
    assert p.tokenId in PairIds(p) && p.sessionId in PairIds(p) && p.access in PairIds(p) && p.refresh in PairIds(p);
  }

  lemma {:induction false} KnownKeepsSecrets(st: State, p: Pair, toUser: bool)
    requires Inv(st) && NewPairFor(st, p)
    ensures Inv(Known(st, p, toUser))
  {
    var st' := Known(st, p, toUser);
    PairMembers(st, p);
    forall j | j in st'.signed ensures JwtSecret(st.db, j, st'.seen) {
      if j in st.signed {
        assert JwtSecret(st.db, j, st.seen);
      } else {
        forall x | x in st.db.sessions ensures x != j.session && st.db.sessions[x].refresh != j.refresh {
          assert x in st.seen;
        }
        forall t | t in st.db.tokens ensures st.db.tokens[t].refresh != j.refresh {
          assert TokenSecret(st.db.tokens[t], st.seen);
        }
      }
    }
    forall t | t in st.db.tokens ensures TokenSecret(st.db.tokens[t], st'.seen) {
      assert TokenSecret(st.db.tokens[t], st.seen);
    }
  }

  /** A row with new secrets. */
  lemma {:induction false} AddedTokenRow(tokens: map<string, Token>, seen: set<string>, id: string, row: Token,
                                         more: set<string>)
    requires TokenSecrets(tokens, seen) && "" !in seen && seen <= more && id in more && TokenSecret(row, more)
    requires row.access !in seen && row.access !in {"", row.refresh} && row.refresh !in seen
    ensures TokenSecrets(tokens[id := row], more)
  {
    forall t | t in tokens ensures TokenSecret(tokens[t], more) {
      assert TokenSecret(tokens[t], seen);
    }
  }

  lemma {:induction false} MoreSeenKeepsTokens(tokens: map<string, Token>, seen: set<string>, more: set<string>)
    requires TokenSecrets(tokens, seen) && seen <= more
    ensures TokenSecrets(tokens, more)
  {
    forall t | t in tokens ensures TokenSecret(tokens[t], more) {
      assert TokenSecret(tokens[t], seen);
    }
  }

  lemma {:induction false} IssueKeepsTokens(st: State, user: Option<string>, idp: Option<string>, grant: Grant,
          scope: string, p: Pair)
    requires Inv(st) && NewPairFor(st, p) && (user.None? <==> grant == ClientCredentials)
    ensures TokenSecrets(Issue(st.db, user, idp, grant, scope, p).tokens, st.seen + PairIds(p))
  {
    hide JwtSecrets, PairSecrets, SessionSecrets, TokenSecrets;
    PairMembers(st, p);
    var seen := st.seen + PairIds(p);
    MoreSeenKeepsTokens(st.db.tokens, st.seen, seen);
    var row := Token(user, p.access, if user.Some? then p.refresh else "", p.accessExpires,
                     if user.Some? then p.refreshExpires else p.accessExpires, grant, scope, None);
    AddedTokenRow(st.db.tokens, st.seen, p.tokenId, row, seen);
  }

  lemma {:induction false} IssueKeepsSessions(st: State, user: Option<string>, idp: Option<string>, grant: Grant,
          scope: string, p: Pair)
    requires Inv(st) && NewPairFor(st, p)
    ensures SessionSecrets(Issue(st.db, user, idp, grant, scope, p).sessions, st.seen + PairIds(p))
  {
    PairMembers(st, p);
  }

  lemma {:induction false} IssueKeepsPairs(st: State, user: Option<string>, idp: Option<string>, grant: Grant,
          scope: string, p: Pair)
    requires Inv(st) && NewPairFor(st, p)
    ensures PairSecrets(Issue(st.db, user, idp, grant, scope, p).tokens, Issue(st.db, user, idp, grant, scope,
                                                                               p).sessions)
  {
    PairMembers(st, p);
    var after := Issue(st.db, user, idp, grant, scope, p);
    forall t, x | t in after.tokens && x in after.sessions ensures Paired(after.tokens[t], after.sessions[x]) {
      if t != p.tokenId && t in st.db.tokens {
        assert TokenSecret(st.db.tokens[t], st.seen);
      }
      if t in st.db.tokens && x in st.db.sessions {
        assert Paired(st.db.tokens[t], st.db.sessions[x]);
      }
    }
  }

  lemma {:induction false} IssueKeepsJwts(st: State, user: Option<string>, idp: Option<string>, grant: Grant,
          scope: string, p: Pair,
          toUser: bool)
    requires Inv(st) && NewPairFor(st, p) && (user.Some? ==> toUser)
    ensures JwtSecrets(Issue(st.db, user, idp, grant, scope, p), Known(st, p, toUser).signed, st.seen + PairIds(p))
  {
    PairMembers(st, p);
    var after, st' := Issue(st.db, user, idp, grant, scope, p), Known(st, p, toUser);
    KnownKeepsSecrets(st, p, toUser);
    forall j | j in st'.signed ensures JwtSecret(after, j, st'.seen) {
      assert JwtSecret(st.db, j, st'.seen);
      if j in st.signed {
        assert JwtSecret(st.db, j, st.seen);
      }
    }
  }

  lemma {:induction false} IssueKeepsInv(st: State, user: Option<string>, idp: Option<string>, grant: Grant,
          scope: string, p: Pair,
          toUser: bool)
    requires Inv(st) && NewPairFor(st, p)
    requires (user.Some? ==> LinkOk(st.born, idp, user.value) && toUser) && (user.None? <==> grant == ClientCredentials)
    ensures Inv(Known(st, p, toUser).(db := Issue(st.db, user, idp, grant, scope, p)))
  {
    IssueKeepsTokens(st, user, idp, grant, scope, p);
    IssueKeepsSessions(st, user, idp, grant, scope, p);
    IssueKeepsPairs(st, user, idp, grant, scope, p);
    IssueKeepsJwts(st, user, idp, grant, scope, p, toUser);
  }

  lemma {:induction false} FinishKeepsInv(st: State, prepared: Prepared, p: Pair)
    requires Inv(st) && Quiet(st.db, prepared.db) && NewPairFor(st, p)
    requires prepared.Ready? ==> LinkOk(st.born, prepared.idp, prepared.user) && prepared.grant != ClientCredentials
    ensures Inv(Known(st, p, true).(db := Finish(prepared, p)))
  {
    QuietKeepsInv(st, prepared.db);
    var st1 := st.(db := prepared.db);
    if prepared.Ready? {
      IssueKeepsInv(st1, Some(prepared.user), prepared.idp, prepared.grant, prepared.scope, p, true);
      assert Known(st, p, true).(db := Finish(prepared, p)) == Known(st1, p, true).(db := Finish(prepared, p));
    } else {
      KnownKeepsSecrets(st1, p, true);
      assert Known(st, p, true).(db := Finish(prepared, p)) == Known(st1, p, true);
    }
  }

  /** The clock and the settings are not in the invariant. */
  lemma {:induction false} InvAt(st: State, st': State)
    requires Inv(st) && st' == st.(clock := st'.clock, cfg := st'.cfg)
    ensures Inv(st')
  {
  }

  lemma {:induction false} LegalPair(st: State, e: Event)
    requires Legal(st, e) && Pairs(e.op) != {}
    ensures NewPairFor(st, e.op.pair)
  {
    assert e.op.pair in Pairs(e.op);
  }

  /** A step of the token endpoint that redeems or refreshes, once its request is prepared. */
  lemma {:induction false} PairStepKeepsInv(st: State, e: Event, prepared: Prepared)
    requires Inv(st) && Legal(st, e) && (e.op.Redeem? || e.op.Refresh?)
    requires Quiet(st.db, prepared.db) && Step(st, e).db == Finish(prepared, e.op.pair)
    requires prepared.Ready? ==> LinkOk(st.born, prepared.idp, prepared.user) && prepared.grant != ClientCredentials
    ensures Inv(Step(st, e))
  {
    LegalPair(st, e);
    FinishKeepsInv(st, prepared, e.op.pair);
    PairStepIsKnown(st, e, e.op.pair, prepared);
  }

  lemma {:induction false} RedeemKeepsInv(st: State, e: Event)
    requires Inv(st) && Legal(st, e) && e.op.Redeem?
    ensures Inv(Step(st, e))
  {
    RedeemIsQuiet(st.db, e.op.code, e.op.redeemChecks, e.now);
    RedeemLink(st, e.op.code, e.op.redeemChecks, e.now);
    RedeemStep(st, e);
    PairStepKeepsInv(st, e, PrepareRedeem(st.db, e.op.code, e.op.redeemChecks, e.now));
  }

  /** The session of a redemption is for the code's user and login. */
  lemma {:induction false} RedeemLink(st: State, code: string, checks: RedeemChecks, now: int)
    requires Links(st)
    ensures
      var prepared := PrepareRedeem(st.db, code, checks, now);
      prepared.Ready? ==> LinkOk(st.born, prepared.idp, prepared.user) && prepared.grant != ClientCredentials
  {
  }

  lemma {:induction false} RedeemStep(st: State, e: Event)
    requires e.op.Redeem?
    ensures Step(st, e).db == Finish(PrepareRedeem(st.db, e.op.code, e.op.redeemChecks, e.now), e.op.pair)
  {
  }

  /** The new session of a refresh is for the old one's user and login. */
  lemma {:induction false} RefreshLink(st: State, jwt: Jwt, checks: RefreshChecks, now: int)
    requires Links(st)
    ensures
      var prepared := PrepareRefresh(st.db, jwt, checks, now);
      prepared.Ready? ==> LinkOk(st.born, prepared.idp, prepared.user) && prepared.grant != ClientCredentials
  {
  }

  lemma {:induction false} RefreshStep(st: State, e: Event)
    requires e.op.Refresh?
    ensures Step(st, e).db == Finish(PrepareRefresh(st.db, e.op.jwt, e.op.refreshChecks, e.now), e.op.pair)
  {
  }

  lemma {:induction false} RefreshKeepsInv(st: State, e: Event)
    requires Inv(st) && Legal(st, e) && e.op.Refresh?
    ensures Inv(Step(st, e))
  {
    RefreshIsQuiet(st.db, e.op.jwt, e.op.refreshChecks, e.now);
    RefreshLink(st, e.op.jwt, e.op.refreshChecks, e.now);
    RefreshStep(st, e);
    PairStepKeepsInv(st, e, PrepareRefresh(st.db, e.op.jwt, e.op.refreshChecks, e.now));
  }

  lemma {:induction false} PairStepIsKnown(st: State, e: Event, p: Pair, prepared: Prepared)
    requires e.op.Redeem? || e.op.Refresh?
    requires p == e.op.pair && Inv(Known(st, p, true).(db := Finish(prepared, p)))
    requires Step(st, e).db == Finish(prepared, p)
    ensures Inv(Step(st, e))
  {
    hide Links, Secrets, Finish;
    assert NewJwts(e.op) == {RefreshJwt(p)};
    InvAt(Known(st, p, true).(db := Finish(prepared, p)), Step(st, e));
  }

  lemma {:induction false} IssueToUserKeepsInv(st: State, e: Event)
    requires Inv(st) && Legal(st, e) && e.op.IssueToUser?
    ensures Inv(Step(st, e))
  {
    hide Links, Secrets, Issue;
    var p, user := e.op.pair, Some(e.op.user);
    IssueKeepsInv(st, user, None, OtherGrant, e.op.scope, p, true);
    assert NewJwts(e.op) == {RefreshJwt(p)};
    InvAt(Known(st, p, true).(db := Issue(st.db, user, None, OtherGrant, e.op.scope, p)), Step(st, e));
  }

  lemma {:induction false} IssueToClientKeepsInv(st: State, e: Event)
    requires Inv(st) && Legal(st, e) && e.op.IssueToClient?
    ensures Inv(Step(st, e))
  {
    hide Links, Secrets, Issue;
    var p := e.op.pair;
    IssueKeepsInv(st, None, None, ClientCredentials, e.op.scope, p, false);
    InvAt(Known(st, p, false).(db := Issue(st.db, None, None, ClientCredentials, e.op.scope, p)), Step(st, e));
  }

  /** Generating more keys keeps what is known of the secrets. */
  lemma {:induction false} MoreSeenKeepsSecrets(st: State, st': State)
    requires Secrets(st) && st.seen <= st'.seen && st'.signed == st.signed
    requires st'.db.tokens == st.db.tokens && st'.db.sessions == st.db.sessions
    ensures Secrets(st')
  {
    forall t | t in st.db.tokens ensures TokenSecret(st.db.tokens[t], st'.seen) {
      assert TokenSecret(st.db.tokens[t], st.seen);
    }
    forall j | j in st.signed ensures JwtSecret(st'.db, j, st'.seen) {
      assert JwtSecret(st.db, j, st.seen);
    }
  }

  lemma {:induction false} LoginStepsAside(cfg: Config, db: Db, now: int, op: Op)
    requires op.Login? || op.LoginWithCode? || op.SignOn? || op.PostConsent?
    ensures Execute(cfg, db, now, op).tokens == db.tokens && Execute(cfg, db, now, op).sessions == db.sessions
  {
  }

  /** The state once a login is created: "" means that it was not. */
  function LoggedInState(st: State, login: string, user: string, now: int): State {
    if login == "" then st
    else st.(db := LoggedIn(st.db, login, user, now), seen := st.seen + {login}, born := st.born[login := user])
  }

  lemma {:induction false} NewLoginKeepsLinks(st: State, login: string, user: string, now: int)
    requires Links(st) && login !in st.seen
    ensures Links(LoggedInState(st, login, user, now))
  {
    assert login !in st.born;
  }

  lemma {:induction false} LoginStepKeepsLinks(st: State, e: Event)
    requires Links(st) && Legal(st, e) && (e.op.Login? || e.op.LoginWithCode?)
    ensures Links(Step(st, e))
  {
    var login, user := e.op.login, e.op.user;
    assert login != "" ==> login in NewIds(e.op);
    if login != "" {
      NewLoginKeepsLinks(st, login, user, e.now);
    }
    var mid := LoggedInState(st, login, user, e.now);
    if e.op.LoginWithCode? && e.op.code != "" {
      LoginCodeKeepsLinks(st, mid, e);
    } else {
      LoginAlone(st, mid, e);
    }
  }

  lemma {:induction false} LoginAlone(st: State, mid: State, e: Event)
    requires e.op.Login? || (e.op.LoginWithCode? && e.op.code == "")
    requires mid == LoggedInState(st, e.op.login, e.op.user, e.now) && Links(mid)
    ensures Links(Step(st, e))
  {
    LoginSeen(st, mid, e);
  }

  lemma {:induction false} LoginSeen(st: State, mid: State, e: Event)
    requires (e.op.Login? || e.op.LoginWithCode?) && mid == LoggedInState(st, e.op.login, e.op.user, e.now)
    ensures Step(st, e).seen == mid.seen + if e.op.LoginWithCode? && e.op.code != "" then {e.op.code} else {}
    ensures Step(st, e).born == mid.born
  {
  }

  lemma {:induction false} LoginCodeKeepsLinks(st: State, mid: State, e: Event)
    requires Legal(st, e) && e.op.LoginWithCode? && e.op.code != ""
    requires mid == LoggedInState(st, e.op.login, e.op.user, e.now) && Links(mid)
    ensures Links(Step(st, e))
  {
    var op, st' := e.op, Step(st, e);
    var row := NewCode(op.user, op.client, op.scope, e.now + st.cfg.codeExpiration, None, op.login, e.now);
    LoginSeen(st, mid, e);
    NewCodeKeepsLinks(mid.db, st'.db, mid.born, mid.seen, op.code, row);
  }

  /** A new code that names an existing login of its user, or none. */
  lemma {:induction false} NewCodeKeepsLinks(db: Db, after: Db, born: map<string, string>, seen: set<string>,
          code: string, row: AuthCode)
    requires LinksOf(db, born, seen) && LinkOk(born, row.idp, row.user) && code != ""
    requires after.sessions == db.sessions && after.codes == db.codes[code := row] && IdpsKept(db.idps, after.idps)
    ensures LinksOf(after, born, seen + {code})
  {
  }

  lemma {:induction false} NoCodeKeepsLinks(db: Db, after: Db, born: map<string, string>, seen: set<string>,
          more: set<string>)
    requires LinksOf(db, born, seen) && seen <= more && "" !in more
    requires after.sessions == db.sessions && after.codes == db.codes && IdpsKept(db.idps, after.idps)
    ensures LinksOf(after, born, more)
  {
  }

  lemma {:induction false} SignOnKeepsLinks(st: State, e: Event)
    requires Links(st) && Legal(st, e) && e.op.SignOn?
    ensures Links(Step(st, e))
  {
    var r, code, st' := e.op.r, e.op.code, Step(st, e);
    assert st'.born == st.born;
    var answer := AutoLoginAnswer(st.cfg, st.db, r, e.now, code);
    if answer.Issued? {
      var s := st.db.idps[r.cookie];
      NewCodeKeepsLinks(st.db, st'.db, st.born, st.seen, code,
                        NewCode(s.user, r.client, r.scope, e.now + st.cfg.codeExpiration, Some(s.created), r.cookie,
                                e.now));
    } else {
      NoCodeKeepsLinks(st.db, st'.db, st.born, st.seen, st'.seen);
    }
  }

  lemma {:induction false} PostKeepsLinks(st: State, e: Event)
    requires Links(st) && Legal(st, e) && e.op.PostConsent?
    ensures Links(Step(st, e))
  {
    var op, st' := e.op, Step(st, e);
    assert st'.born == st.born;
    if ConsentAccepted(st.db, op.cookie, op.deny) && op.upsertOk && op.code != "" && op.code !in st.db.codes {
      NewCodeKeepsLinks(st.db, st'.db, st.born, st.seen, op.code,
                        NewCode(st.db.idps[op.cookie].user, op.client, op.scope, e.now + st.cfg.codeExpiration,
                                None, op.cookie, e.now));
    } else {
      NoCodeKeepsLinks(st.db, st'.db, st.born, st.seen, st'.seen);
    }
  }

  lemma {:induction false} LoginStepKeepsInv(st: State, e: Event)
    requires Inv(st) && Legal(st, e) && (e.op.Login? || e.op.LoginWithCode? || e.op.SignOn? || e.op.PostConsent?)
    ensures Inv(Step(st, e))
  {
    LoginStepsAside(st.cfg, st.db, e.now, e.op);
    MoreSeenKeepsSecrets(st, Step(st, e));
    if e.op.SignOn? {
      SignOnKeepsLinks(st, e);
    } else if e.op.PostConsent? {
      PostKeepsLinks(st, e);
    } else {
      LoginStepKeepsLinks(st, e);
    }
  }

  lemma {:induction false} StepKeepsInv(st: State, e: Event)
    requires Inv(st) && Legal(st, e)
    ensures Inv(Step(st, e))
  {
    hide Inv, Quiet, Known, Legal;
    if e.op.Redeem? {
      RedeemKeepsInv(st, e);
    } else if e.op.Refresh? {
      RefreshKeepsInv(st, e);
    } else if e.op.IssueToUser? {
      IssueToUserKeepsInv(st, e);
    } else if e.op.IssueToClient? {
      IssueToClientKeepsInv(st, e);
    } else if e.op.Login? || e.op.LoginWithCode? || e.op.SignOn? || e.op.PostConsent? {
      LoginStepKeepsInv(st, e);
    } else {
      QuietStep(st.cfg, st.db, e.now, e.op);
      QuietKeepsInv(st, Step(st, e).db);
      InvAt(st.(db := Step(st, e).db), Step(st, e));
    }
  }

  /** In every reachable state each authorization code and each OAuth session that names a
      browser login names one that was created for that same user, across every path that
      issues codes or tokens and after any deletions by the cleaner; and secrets are told
      apart as `Secrets` says. */
  lemma {:induction false} ReachableInv(st: State, es: seq<Event>)
    requires Inv(st) && LegalRun(st, es)
    ensures Inv(Run(st, es))
    decreases |es|
  {
    if es != [] {
      StepKeepsInv(st, es[0]);
      ReachableInv(Step(st, es[0]), es[1..]);
    }
  }

  /** In particular from an empty database on, under whatever settings. */
  lemma {:induction false} FromGenesis(cfg: Config, es: seq<Event>, c: string)
    requires LegalRun(Genesis(cfg), es) && c in Run(Genesis(cfg), es).db.codes
    requires Run(Genesis(cfg), es).db.codes[c].idp.Some?
    ensures
      var end := Run(Genesis(cfg), es);
      var login := end.db.codes[c].idp.value;
      && login in end.born && end.born[login] == end.db.codes[c].user
      && (login in end.db.idps ==> end.db.idps[login].user == end.db.codes[c].user)
  {
    ReachableInv(Genesis(cfg), es);
  }

  /** The lookups by a refresh token that the source makes with `QueryRow` are decided: at
      most one session row and at most one token row has a copy of it, and both belong to the
      same session. */
  lemma {:induction false} PriorRowIsOwn(st: State, jwt: Jwt)
    requires Inv(st) && jwt in st.signed
    ensures jwt.session in st.db.sessions ==> st.db.sessions[jwt.session].refresh == jwt.refresh
    ensures forall x :: x in st.db.sessions && st.db.sessions[x].refresh == jwt.refresh ==> x == jwt.session
    ensures forall t :: jwt.session in st.db.sessions && t in st.db.tokens && st.db.tokens[t].refresh == jwt.refresh ==>
      st.db.tokens[t].access == st.db.sessions[jwt.session].access
      && st.db.tokens[t].user == Some(st.db.sessions[jwt.session].user)
    ensures OneTokenRow(st.db.tokens, jwt.refresh)
  {
    assert JwtSecret(st.db, jwt, st.seen);
    forall t | jwt.session in st.db.sessions && t in st.db.tokens && st.db.tokens[t].refresh == jwt.refresh
      ensures st.db.tokens[t].access == st.db.sessions[jwt.session].access
        && st.db.tokens[t].user == Some(st.db.sessions[jwt.session].user)
    {
      assert Paired(st.db.tokens[t], st.db.sessions[jwt.session]);
    }
  }

  // --------------------------------------------------------------- fresh secrets

  lemma {:induction false} LengthBound(seen: set<string>) returns (n: nat)
    ensures forall w :: w in seen ==> |w| <= n
    decreases |seen|
  {
    if seen == {} {
      n := 0;
    } else {
      var w :| w in seen;
      var m := LengthBound(seen - {w});
      n := if |w| > m then |w| else m;
      assert forall v :: v in seen ==> v == w || v in seen - {w};
    }
  }

  function Repeated(c: char, n: nat): (s: string)
    ensures |s| == n && forall i :: 0 <= i < n ==> s[i] == c
  {
    seq(n, _ => c)
  }

  /** The generator can always produce a new pair. */
  lemma {:induction false} FreshPair(seen: set<string>) returns (p: Pair)
    ensures PairIds(p) !! seen && "" !in PairIds(p) && p.access != p.refresh && p.Stored() && p.idSigned
  {
    var n := LengthBound(seen);
    var a, b := Repeated('a', n + 1), Repeated('b', n + 1);
    assert a[0] != b[0];
    p := Pair(a, a, a, b, 0, 0, true, true, true, true);
  }
}
