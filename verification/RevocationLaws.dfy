/** Revocation, termination and deletion: exactly which rows each of them ends, which it leaves
    as they were, and that no run takes it back. */
module RevocationLaws {
  import opened Common
  import opened Tables
  import opened ServerRuns
  import opened Liveness
  import opened TokenLaws

  // ------------------------------------------------------- everything of a user

  /** The token or the session is kept when a user's access is revoked but for `keep`. */
  predicate Kept(access: string, keep: string) {
    keep != "" && access == keep
  }

  /** Of the user's tokens and sessions exactly those with the access token `keep` are spared,
      none if it is empty; nobody else's change, and no other field does. */
  lemma {:induction false} RevocationEndsExactly(db: Db, user: string, keep: string, now: int)
    ensures
      var after := RevokeUserAccess(db, user, keep, now);
      && after.codes == db.codes && after.consents == db.consents
      && after.tokens.Keys == db.tokens.Keys && after.sessions.Keys == db.sessions.Keys
      && (forall t :: t in db.tokens ==>
            if db.tokens[t].user == Some(user) && !Kept(db.tokens[t].access, keep)
            then after.tokens[t].revoked.Some? && after.tokens[t].(revoked := None) == db.tokens[t].(revoked := None)
            else after.tokens[t] == db.tokens[t])
      && (forall x :: x in db.sessions ==>
            if db.sessions[x].user == user && !Kept(db.sessions[x].access, keep)
            then
              after.sessions[x].deactivated.Some?
              && after.sessions[x].(deactivated := None) == db.sessions[x].(deactivated := None)
            else after.sessions[x] == db.sessions[x])
  {
  }

  /** Some active session of the user that is spared names the login. */
  ghost predicate NamedByKept(db: Db, user: string, keep: string, login: string) {
    exists x :: x in db.sessions && db.sessions[x].user == user && Kept(db.sessions[x].access, keep)
      && db.sessions[x].deactivated.None? && db.sessions[x].idp == Some(login)
  }

  /** And the user's logins end, except one that a spared session names; nobody else's do. */
  lemma {:induction false} RevocationEndsLogins(db: Db, user: string, keep: string, now: int, i: string)
    requires i in db.idps
    ensures
      var after := RevokeUserAccess(db, user, keep, now);
      && i in after.idps
      && if db.idps[i].user == user && !NamedByKept(db, user, keep, i)
         then after.idps[i].deactivated.Some?
           && after.idps[i].(deactivated := None) == db.idps[i].(deactivated := None)
         else after.idps[i] == db.idps[i]
  {
    var sessions := DeactivateWhere(db.sessions, SessionsOf(db.sessions, user, keep), now);
    if i in InUse(sessions, user) {
      var x :| x in sessions && sessions[x].user == user && sessions[x].deactivated.None?
        && sessions[x].idp.Some? && sessions[x].idp.value == i;
      assert x !in SessionsOf(db.sessions, user, keep);
      assert NamedByKept(db, user, keep, i);
    }
    if NamedByKept(db, user, keep, i) {
      var x :| x in db.sessions && db.sessions[x].user == user && Kept(db.sessions[x].access, keep)
        && db.sessions[x].deactivated.None? && db.sessions[x].idp == Some(i);
      assert sessions[x] == db.sessions[x];
      assert i in InUse(sessions, user);
    }
  }

  lemma {:induction false} RevokeUserStep(st: State, e: Event)
    requires e.op.RevokeUser?
    ensures Step(st, e).db == RevokeUserAccess(st.db, e.op.user, e.op.keep, e.now)
    ensures Step(st, e).seen == st.seen && Step(st, e).clock == e.now
  {
  }

  /** No reader accepts any other token of the user again, in any run. */
  lemma {:induction false} RevocationIsForever(st: State, e: Event, es: seq<Event>, t: string, later: int)
    requires Inv(st) && Legal(st, e) && e.op.RevokeUser? && LegalRun(Step(st, e), es)
    requires e.now <= later
    requires t in st.db.tokens && st.db.tokens[t].user == Some(e.op.user) && !Kept(st.db.tokens[t].access, e.op.keep)
    ensures NoneAccepts(Run(Step(st, e), es).db, st.db.tokens[t].access, later)
    ensures !Introspects(Run(Step(st, e), es).db, st.db.tokens[t].refresh, later)
  {
    hide Inv, RevokeUserAccess, Legal;
    StepKeepsInv(st, e);
    RevokeUserStep(st, e);
    RevocationEndsExactly(st.db, e.op.user, e.op.keep, e.now);
    RevokedForGood(Step(st, e), es, t, later);
  }

  /** The spared token, and every token of anybody else, is accepted as before. */
  lemma {:induction false} RevocationSpares(st: State, e: Event, t: string, now: int)
    requires Inv(st) && Legal(st, e) && e.op.RevokeUser? && t in st.db.tokens
    requires st.db.tokens[t].user != Some(e.op.user) || Kept(st.db.tokens[t].access, e.op.keep)
    ensures
      var v := st.db.tokens[t].access;
      && (BearerAccepts(Step(st, e).db, v) <==> BearerAccepts(st.db, v))
      && (Introspects(Step(st, e).db, v, now) <==> Introspects(st.db, v, now))
  {
    hide RevokeUserAccess, Introspects, BearerAccepts, Links, Legal;
    StepKeepsInv(st, e);
    RevokeUserStep(st, e);
    RevocationEndsExactly(st.db, e.op.user, e.op.keep, e.now);
    SparedSession(st, e, t);
    IntrospectsIff(st, t, now);
    IntrospectsIff(Step(st, e), t, now);
    BearerAcceptsIff(st, t);
    BearerAcceptsIff(Step(st, e), t);
  }

  lemma {:induction false} SparedSession(st: State, e: Event, t: string)
    requires Inv(st) && e.op.RevokeUser? && t in st.db.tokens
    requires st.db.tokens[t].user != Some(e.op.user) || Kept(st.db.tokens[t].access, e.op.keep)
    ensures HasSession(Step(st, e).db, st.db.tokens[t].access) <==> HasSession(st.db, st.db.tokens[t].access)
  {
    hide RevokeUserAccess, Links, TokenSecrets, JwtSecrets, SessionSecrets, HasSession;
    var v, after := st.db.tokens[t].access, Step(st, e).db;
    RevokeUserStep(st, e);
    RevocationEndsExactly(st.db, e.op.user, e.op.keep, e.now);
    forall x | x in st.db.sessions && st.db.sessions[x].access == v ensures after.sessions[x] == st.db.sessions[x] {
      assert Paired(st.db.tokens[t], st.db.sessions[x]);
    }
    SameHolders(st.db, after, v);
  }

  lemma {:induction false} SameHolders(a: Db, b: Db, v: string)
    requires a.sessions.Keys == b.sessions.Keys
    requires forall x :: x in a.sessions && a.sessions[x].access == v ==> b.sessions[x] == a.sessions[x]
    requires forall x :: x in a.sessions ==> b.sessions[x].access == a.sessions[x].access
    ensures HasSession(b, v) <==> HasSession(a, v)
  {
    if HasSession(a, v) {
      var x :| x in a.sessions && a.sessions[x].access == v && a.sessions[x].deactivated.None?;
      assert b.sessions[x] == a.sessions[x];
    }
  }

  // ------------------------------------------------------ one token, one session

  /** The revocation endpoint: the rows that hold the value as access or as refresh token are
      revoked, and no other row changes. */
  lemma {:induction false} RevokeValueRevokes(tokens: map<string, Token>, value: string, now: int)
    ensures
      var after := RevokeValue(tokens, value, now);
      && after.Keys == tokens.Keys
      && forall t :: t in tokens ==>
           if tokens[t].access == value || tokens[t].refresh == value
           then after[t].revoked.Some? && after[t].(revoked := None) == tokens[t].(revoked := None)
           else after[t] == tokens[t]
  {
  }

  lemma {:induction false} RevokeRowRevokes(tokens: map<string, Token>, id: string, now: int)
    ensures
      var after := RevokeWhere(tokens, {id}, now);
      && after.Keys == tokens.Keys
      && (id in tokens ==> after[id].revoked.Some? && after[id].(revoked := None) == tokens[id].(revoked := None))
      && (forall t :: t in tokens && t != id ==> after[t] == tokens[t])
      && (forall t :: t in tokens && tokens[t].revoked.Some? ==> after[t] == tokens[t])
  {
  }

  predicate Revokes(op: Op, t: string, row: Token) {
    || (op.RevokeToken? && (row.access == op.value || row.refresh == op.value))
    || (op.RevokeRow? && op.tokenId == t)
  }

  /** A revoked token, whichever of its two values was sent, is rejected by every reader in every
      later run, and its refresh token issues nothing while the row is there. */
  lemma {:induction false} RevokedTokenIsOver(st: State, e: Event, es: seq<Event>, t: string, later: int)
    requires Inv(st) && Legal(st, e) && LegalRun(Step(st, e), es)
    requires e.now <= later && t in st.db.tokens && Revokes(e.op, t, st.db.tokens[t])
    ensures NoneAccepts(Run(Step(st, e), es).db, st.db.tokens[t].access, later)
    ensures st.db.tokens[t].user.Some? ==> !Introspects(Run(Step(st, e), es).db, st.db.tokens[t].refresh, later)
    ensures forall jwt: Jwt, checks :: jwt.refresh == st.db.tokens[t].refresh && t in Run(Step(st, e), es).db.tokens ==>
      PrepareRefresh(Run(Step(st, e), es).db, jwt, checks, later).Rejected?
  {
    hide Inv, Legal, PrepareRefresh, LegalRun, NoneAccepts, Introspects;
    StepKeepsInv(st, e);
    RevokedByStep(st, e, t);
    KeySeen(st, t);
    RevokedForGood(Step(st, e), es, t, later);
    RunStill(Step(st, e), es, t);
    var end := Run(Step(st, e), es).db;
    forall jwt: Jwt, checks: RefreshChecks | jwt.refresh == st.db.tokens[t].refresh && t in end.tokens
      ensures PrepareRefresh(end, jwt, checks, later).Rejected?
    {
      SpentIsTurnedDown(end, jwt, checks, later, t);
    }
  }

  lemma {:induction false} KeySeen(st: State, t: string)
    requires Inv(st) && t in st.db.tokens
    ensures t in st.seen
  {
  }

  lemma {:induction false} RevokedByStep(st: State, e: Event, t: string)
    requires t in st.db.tokens && Revokes(e.op, t, st.db.tokens[t])
    ensures
      var after := Step(st, e);
      && t in after.db.tokens && after.db.tokens[t].revoked.Some? && after.seen == st.seen && after.clock == e.now
      && after.db.tokens[t].(revoked := None) == st.db.tokens[t].(revoked := None)
  {
    hide RevokeValue, RevokeWhere;
    if e.op.RevokeToken? {
      RevokeValueRevokes(st.db.tokens, e.op.value, e.now);
    } else {
      RevokeRowRevokes(st.db.tokens, e.op.tokenId, e.now);
    }
  }

  predicate EndsSession(op: Op, x: string, row: Session) {
    (op.DeactivateSession? && op.sessionId == x) || (op.DeactivateUserSessions? && op.user == row.user)
  }

  /** Ending one OAuth session, or all of a user: exactly those are deactivated. */
  lemma {:induction false} EndingEndsExactly(st: State, e: Event)
    requires e.op.DeactivateSession? || e.op.DeactivateUserSessions?
    ensures
      var after := Step(st, e).db;
      && after == st.db.(sessions := after.sessions) && after.sessions.Keys == st.db.sessions.Keys
      && forall x :: x in st.db.sessions ==>
           if EndsSession(e.op, x, st.db.sessions[x])
           then after.sessions[x].deactivated.Some?
             && after.sessions[x].(deactivated := None) == st.db.sessions[x].(deactivated := None)
           else after.sessions[x] == st.db.sessions[x]
  {
  }

  /** Its access token is rejected from then on in every run, and its refresh token issues
      nothing. */
  lemma {:induction false} EndedSessionIsOver(st: State, e: Event, es: seq<Event>, x: string, later: int)
    requires Inv(st) && Legal(st, e) && LegalRun(Step(st, e), es) && e.now <= later
    requires e.op.DeactivateSession? || e.op.DeactivateUserSessions?
    requires x in st.db.sessions && EndsSession(e.op, x, st.db.sessions[x])
    ensures NoneAccepts(Run(Step(st, e), es).db, st.db.sessions[x].access, later)
    ensures forall jwt: Jwt, checks :: jwt.session == x ==>
      PrepareRefresh(Run(Step(st, e), es).db, jwt, checks, later).Rejected?
  {
    hide Legal, LegalRun, Links, TokenSecrets, PairSecrets, JwtSecrets, Introspects, BearerAccepts;
    StepKeepsInv(st, e);
    EndingEndsExactly(st, e);
    DeadSession(Step(st, e), x, e.now);
    StaysRejected(Step(st, e), es, st.db.sessions[x].access, later);
    RunStill(Step(st, e), es, x);
    var end := Run(Step(st, e), es).db;
    forall jwt: Jwt, checks: RefreshChecks | jwt.session == x
      ensures PrepareRefresh(end, jwt, checks, later).Rejected?
    {
      OverIsTurnedDown(end, jwt, checks, later);
    }
  }

  lemma {:induction false} OverIsTurnedDown(db: Db, jwt: Jwt, checks: RefreshChecks, now: int)
    requires jwt.session in db.sessions ==> db.sessions[jwt.session].deactivated.Some?
    ensures PrepareRefresh(db, jwt, checks, now).Rejected?
  {
  }

  // ---------------------------------------------------------------- logins

  predicate EndsLogin(op: Op, i: string, row: IdpSession) {
    (op.DeactivateLogin? && op.login == i) || (op.DeactivateUserLogins? && op.user == row.user)
  }

  /** Ending a browser login, or all of a user, without a cascade: exactly those are deactivated,
      an earlier stamp stays, and no session or token is touched. */
  lemma {:induction false} LoginsEndExactly(st: State, e: Event)
    requires e.op.DeactivateLogin? || e.op.DeactivateUserLogins?
    ensures
      var after := Step(st, e).db;
      && after == st.db.(idps := after.idps) && after.idps.Keys == st.db.idps.Keys
      && forall i :: i in st.db.idps ==>
           if EndsLogin(e.op, i, st.db.idps[i]) && st.db.idps[i].deactivated.None?
           then after.idps[i] == st.db.idps[i].(deactivated := Some(e.now))
           else after.idps[i] == st.db.idps[i]
  {
  }

  // ---------------------------------------------------------------- deletion

  /** What is left of a table of `user`'s rows and others'. */
  ghost predicate LeftOf<R>(before: map<string, R>, after: map<string, R>, gone: set<string>) {
    after.Keys == before.Keys - gone && forall k :: k in after ==> after[k] == before[k]
  }

  /** A deletion that goes through leaves no row of the user in the four tables and every other row
      as it was. */
  lemma {:induction false} DeletionDeletesExactly(db: Db, user: string, done: nat)
    requires done >= 4
    ensures
      var after := DeleteUser(db, user, done);
      && after.consents == db.consents
      && LeftOf(db.tokens, after.tokens, set t | t in db.tokens && db.tokens[t].user == Some(user))
      && LeftOf(db.sessions, after.sessions, set x | x in db.sessions && db.sessions[x].user == user)
      && LeftOf(db.codes, after.codes, set c | c in db.codes && db.codes[c].user == user)
      && LeftOf(db.idps, after.idps, set i | i in db.idps && db.idps[i].user == user)
  {
  }

  /** One that stops earlier empties the tables one by one in the order tokens, sessions, codes,
      logins: each is as after a full deletion or as it was. */
  lemma {:induction false} DeletionStops(db: Db, user: string, done: nat)
    ensures
      var after, all := DeleteUser(db, user, done), DeleteUser(db, user, 4);
      && after.tokens == (if done >= 1 then all.tokens else db.tokens)
      && after.sessions == (if done >= 2 then all.sessions else db.sessions)
      && after.codes == (if done >= 3 then all.codes else db.codes)
      && after.idps == (if done >= 4 then all.idps else db.idps)
  {
  }

  /** Once the tokens are deleted no reader accepts one of the user again, in any run, even if the
      deletion stops there. */
  lemma {:induction false} DeletedIsOver(st: State, e: Event, es: seq<Event>, t: string, later: int)
    requires Inv(st) && Legal(st, e) && e.op.HardDelete? && e.op.done >= 1 && LegalRun(Step(st, e), es)
    requires e.now <= later && t in st.db.tokens && st.db.tokens[t].user == Some(e.op.user)
    ensures NoneAccepts(Run(Step(st, e), es).db, st.db.tokens[t].access, later)
  {
    var v := st.db.tokens[t].access;
    StepKeepsInv(st, e);
    DeletedRow(st, e, t, e.now);
    StaysRejected(Step(st, e), es, v, later);
  }

  lemma {:induction false} DeletedRow(st: State, e: Event, t: string, now: int)
    requires Inv(st) && e.op.HardDelete? && e.op.done >= 1
    requires t in st.db.tokens && st.db.tokens[t].user == Some(e.op.user)
    ensures NoneAccepts(Step(st, e).db, st.db.tokens[t].access, now) && st.db.tokens[t].access in Step(st, e).seen
  {
    hide Links, SessionSecrets, PairSecrets, JwtSecrets, HasSession;
    var v, after := st.db.tokens[t].access, Step(st, e).db;
    assert TokenSecret(st.db.tokens[t], st.seen);
    DeletionStops(st.db, e.op.user, e.op.done);
    DeletionDeletesExactly(st.db, e.op.user, 4);
    forall u | u in after.tokens ensures after.tokens[u].access != v && after.tokens[u].refresh != v {
      assert u in st.db.tokens && after.tokens[u] == st.db.tokens[u];
    }
  }
}
