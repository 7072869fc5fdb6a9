/** Is the background cleaner visible to browsers and clients? A run with cleaner ticks is
    compared with the same run without them, by what is answered: the outcome of every
    authorize request, of every consent decision and of every code redemption and token
    refresh, told apart by error and description, or by the scope granted.

    It is invisible as long as no request depends on a row that a tick could already have
    ended or deleted. This file has the guard and the simulation; `SweepExactly` shows that
    the guard is exact. */
module SweepInvisible {
  import opened Common
  import opened Tables
  import opened ServerRuns
  import CodeLaws
  import Liveness
  import Scopes

  /** What is seen of a step. The `hasSession` hint is left out, see `HintOnlyFades`. */
  datatype Answered =
    | Code | Consent | LoginPage | Decided(deny: bool) | Unauthorized | TokenEndpoint(a: TokenAnswer) | Nothing

  ghost function Observe(st: State, e: Event): Answered {
    match e.op
    case SignOn(r, code) =>
      (match AutoLoginAnswer(st.cfg, st.db, r, e.now, code)
       case Issued(_) => Code
       case AskConsent => Consent
       case Login(_) => LoginPage)
    case PostConsent(cookie, _, _, deny, _, _) =>
      if cookie != "" && ActiveIdp(st.db.idps, cookie) then Decided(deny) else Unauthorized
    case Redeem(code, checks, p) => TokenEndpoint(FinishAnswer(PrepareRedeem(st.db, code, checks, e.now), p))
    case Refresh(jwt, checks, p) => TokenEndpoint(FinishAnswer(PrepareRefresh(st.db, jwt, checks, e.now), p))
    case _ => Nothing
  }

  ghost function Observations(st: State, es: seq<Event>): seq<Answered>
    decreases |es|
  {
    if es == [] then []
    else (if es[0].op.Cleanup? then [] else [Observe(st, es[0])]) + Observations(Step(st, es[0]), es[1..])
  }

  /** The run without the cleaner. */
  function Strip(es: seq<Event>): seq<Event> {
    if es == [] then [] else (if es[0].op.Cleanup? then [] else [es[0]]) + Strip(es[1..])
  }

  // -------------------------------------------------------------- the condition

  /** A tick at `now` would delete the session row. */
  predicate SessionDue(x: Session, now: int, retention: int) {
    x.expires < now - retention
  }

  /** No refresh can come of the session row any more: it is due, or its refresh tokens have
      expired. */
  ghost predicate Spent(st: State, x: string, now: int, retention: int)
    requires x in st.db.sessions
  {
    || SessionDue(st.db.sessions[x], now, retention)
    || forall j :: j in st.signed && j.session == x ==> j.expires <= now
  }

  /** The active session hangs on an active login in `ids` that a sweep could have ended. */
  predicate Lingers(st: State, x: string, ids: set<string>, now: int)
    requires x in st.db.sessions
  {
    var s := st.db.sessions[x];
    && s.deactivated.None? && s.idp.Some? && s.idp.value in ids
    && ActiveIdp(st.db.idps, s.idp.value) && Late(st.cfg, st.db.idps[s.idp.value], now)
  }

  ghost predicate EndsCleanly(st: State, ids: set<string>, now: int, retention: int) {
    forall x :: x in st.db.sessions && Lingers(st, x, ids, now) ==> Spent(st, x, now, retention)
  }

  /** The session spared by `RevokeUser(user, keep)`. */
  predicate Spared(x: Session, user: string, keep: string) {
    x.user == user && x.access == keep && x.deactivated.None? && x.idp.Some?
  }

  predicate SparedInTime(st: State, x: string, now: int, retention: int)
    requires x in st.db.sessions && st.db.sessions[x].idp.Some?
  {
    var login := st.db.sessions[x].idp.value;
    ActiveIdp(st.db.idps, login) && SessionDue(st.db.sessions[x], now, retention) ==>
      Late(st.cfg, st.db.idps[login], now)
  }

  /** A code that a tick could have deleted would be turned down as unknown anyway. */
  predicate RedeemInTime(db: Db, code: string, checks: RedeemChecks, now: int, retention: int) {
    code in db.codes && db.codes[code].expires < now - retention ==>
      !db.codes[code].used && (!checks.redirect || now > db.codes[code].expires)
  }

  /** Without its token row a refresh counts as one of a grant of no scope at all. That makes no
      difference if the row's scope is empty or the pair is not stored anyway; or, when a scope
      is requested, if it is refused or allowed either way. */
  predicate ScopeIdle(row: string, requested: string, p: Pair) {
    if requested == "" then row == "" || !p.Stored() else ScopeFits(requested, row) == ScopeFits(requested, "")
  }

  /** A token row that a tick could have deleted is not revoked, and neither the check of the
      second factor nor that of the scope depends on it. */
  ghost predicate TokensInTime(db: Db, refresh: string, checks: RefreshChecks, p: Pair, now: int, retention: int) {
    forall t :: t in db.tokens && db.tokens[t].refresh == refresh && db.tokens[t].refreshExpires < now - retention ==>
      TokenIdle(db.tokens[t], checks, p)
  }

  predicate TokenIdle(t: Token, checks: RefreshChecks, p: Pair) {
    && t.revoked.None?
    && (checks.user ==> checks.mfa && (checks.rotated ==> ScopeIdle(t.scope, checks.scope, p)))
  }

  /** The guard, which can be checked in the run without cleaner before each step:
      - a consent decision comes before a sweep could have ended the login;
      - a replayed code is not so old that a tick could have deleted it;
      - a refresh comes before a tick could have deleted its session row or ended its login;
      - with a negative retention, under which ticks delete live rows: a live code is redeemed
        before a tick could have deleted its row, and a refresh does not depend on a token row
        that a tick could have deleted, neither to be noticed as a replay nor for the second
        factor nor for its scope;
      - ending a login without its sessions, when a sweep could already have ended both,
        leaves no session that could still be refreshed;
      - a session spared from revocation is not so old that a tick could have deleted it,
        unless its login is over anyway. */
  ghost predicate InTime(st: State, e: Event, retention: int) {
    match e.op
    case PostConsent(cookie, _, _, _, _, _) =>
      cookie != "" && ActiveIdp(st.db.idps, cookie) ==> !Late(st.cfg, st.db.idps[cookie], e.now)
    case Redeem(code, checks, _) => RedeemInTime(st.db, code, checks, e.now, retention)
    case Refresh(jwt, checks, p) =>
      e.now < jwt.expires && jwt.session in st.db.sessions ==>
        var x := st.db.sessions[jwt.session];
        && !SessionDue(x, e.now, retention)
        && (x.deactivated.None? && x.idp.Some? && ActiveIdp(st.db.idps, x.idp.value) ==>
              !Late(st.cfg, st.db.idps[x.idp.value], e.now))
        && (x.deactivated.None? && checks.client ==> TokensInTime(st.db, jwt.refresh, checks, p, e.now, retention))
    case DeactivateLogin(login) => EndsCleanly(st, {login}, e.now, retention)
    case DeactivateUserLogins(user) => EndsCleanly(st, IdpsOf(st.db.idps, user), e.now, retention)
    case RevokeUser(user, keep) =>
      keep != "" ==> forall x :: x in st.db.sessions && Spared(st.db.sessions[x], user, keep) ==>
        SparedInTime(st, x, e.now, retention)
    case _ => true
  }

  ghost predicate InTimeRun(st: State, es: seq<Event>, retention: int)
    decreases |es|
  {
    es == [] || (InTime(st, es[0], retention) && InTimeRun(Step(st, es[0]), es[1..], retention))
  }

  /** The timeouts are fixed and the cleaner always runs with the same retention. */
  predicate Compared(op: Op, retention: int) {
    !op.Reconfigure? && (op.Cleanup? ==> op.retention == retention)
  }

  predicate ComparedRun(es: seq<Event>, retention: int) {
    forall i :: 0 <= i < |es| ==> Compared(es[i].op, retention)
  }

  // -------------------------------------------------------------- the relation

  /** `s` is the swept side, `u` the side without cleaner. A login active in `s` is the same
      in `u`, and one active only in `u` is past a timeout. */
  ghost predicate LoginRel(s: State, u: State, i: string) {
    && (ActiveIdp(s.db.idps, i) ==> ActiveIdp(u.db.idps, i) && s.db.idps[i] == u.db.idps[i])
    && (ActiveIdp(u.db.idps, i) && !ActiveIdp(s.db.idps, i) ==> Late(u.cfg, u.db.idps[i], s.clock))
  }

  /** Rows only in `u` have been deleted by a tick. */
  ghost predicate CodeRel(s: State, u: State, c: string, retention: int) {
    && (c in s.db.codes ==> c in u.db.codes && s.db.codes[c] == u.db.codes[c])
    && (c in u.db.codes && c !in s.db.codes ==> u.db.codes[c].expires < s.clock - retention)
  }

  ghost predicate SessionRel(s: State, u: State, x: string, retention: int) {
    && (x in s.db.sessions ==>
          && x in u.db.sessions
          && s.db.sessions[x].(deactivated := None) == u.db.sessions[x].(deactivated := None)
          && (u.db.sessions[x].deactivated.Some? ==> s.db.sessions[x].deactivated.Some?)
          && (s.db.sessions[x].deactivated.Some? && u.db.sessions[x].deactivated.None? ==> Doomed(s, u, x, retention)))
    && (x in u.db.sessions && x !in s.db.sessions ==> SessionDue(u.db.sessions[x], s.clock, retention))
  }

  /** Active only in `u`: its login is over in `s`, and in `u` past a timeout or of no use. */
  ghost predicate Doomed(s: State, u: State, x: string, retention: int)
    requires x in u.db.sessions
  {
    && u.db.sessions[x].idp.Some? && !ActiveIdp(s.db.idps, u.db.sessions[x].idp.value)
    && (|| (ActiveIdp(u.db.idps, u.db.sessions[x].idp.value)
            && Late(u.cfg, u.db.idps[u.db.sessions[x].idp.value], s.clock))
        || Spent(u, x, s.clock, retention))
  }

  /** Token rows may differ in their revocation and scope only when no session is left to use
      them. */
  ghost predicate TokenRel(s: State, u: State, t: string, retention: int) {
    && (t in s.db.tokens ==>
          && t in u.db.tokens
          && s.db.tokens[t].(revoked := None, scope := "") == u.db.tokens[t].(revoked := None, scope := "")
          && (Liveness.HasSession(s.db, s.db.tokens[t].access) ==>
                && s.db.tokens[t].scope == u.db.tokens[t].scope
                && (s.db.tokens[t].revoked.Some? <==> u.db.tokens[t].revoked.Some?)))
    && (t in u.db.tokens && t !in s.db.tokens ==> u.db.tokens[t].refreshExpires < s.clock - retention)
  }

  ghost predicate LoginsRelated(s: State, u: State) {
    && s.cfg == u.cfg && s.seen == u.seen && s.born == u.born && s.signed == u.signed && u.clock <= s.clock
    && s.db.consents == u.db.consents
    && forall i :: LoginRel(s, u, i)
  }

  ghost predicate RowsRelated(s: State, u: State, retention: int) {
    && (forall c :: CodeRel(s, u, c, retention))
    && (forall x :: SessionRel(s, u, x, retention))
    && (forall t :: TokenRel(s, u, t, retention))
  }

  ghost predicate Related(s: State, u: State, retention: int) {
    LoginsRelated(s, u) && RowsRelated(s, u, retention)
  }

  lemma {:induction false} RelatedReflexive(st: State, retention: int)
    ensures Related(st, st, retention)
  {
  }

  /** Time passes on the swept side, and possibly on the other. */
  lemma {:induction false} LoginsLater(s: State, u: State, now: int, earlier: int)
    requires LoginsRelated(s, u) && s.clock <= now && earlier <= now
    ensures LoginsRelated(s.(clock := now), u.(clock := earlier))
  {
    forall i ensures LoginRel(s.(clock := now), u.(clock := earlier), i) {
      assert LoginRel(s, u, i);
    }
  }

  lemma {:induction false} Later(s: State, u: State, now: int, earlier: int, retention: int)
    requires Related(s, u, retention) && s.clock <= now && earlier <= now
    ensures Related(s.(clock := now), u.(clock := earlier), retention)
  {
    var s', u' := s.(clock := now), u.(clock := earlier);
    LoginsLater(s, u, now, earlier);
    forall c ensures CodeRel(s', u', c, retention) {
      assert CodeRel(s, u, c, retention);
    }
    forall x ensures SessionRel(s', u', x, retention) {
      assert SessionRel(s, u, x, retention);
    }
    forall t ensures TokenRel(s', u', t, retention) {
      assert TokenRel(s, u, t, retention);
    }
  }

  // ------------------------------------------------------------------ one tick

  lemma {:induction false} SweepLogins(s: State, u: State, ids: set<string>)
    requires LoginsRelated(s, u)
    requires forall i :: i in ids ==> ActiveIdp(s.db.idps, i) && Late(s.cfg, s.db.idps[i], s.clock)
    ensures LoginsRelated(s.(db := CascadeAll(s.db, ids, s.clock)), u)
  {
    forall i ensures LoginRel(s.(db := CascadeAll(s.db, ids, s.clock)), u, i) {
      assert LoginRel(s, u, i);
    }
  }

  lemma {:induction false} CascadeEndsSession(db: Db, ids: set<string>, now: int, x: string)
    requires x in db.sessions
    ensures
      var after := CascadeAll(db, ids, now);
      && x in after.sessions && after.sessions[x].(deactivated := None) == db.sessions[x].(deactivated := None)
      && (after.sessions[x].deactivated.Some? <==> db.sessions[x].deactivated.Some? || IsChild(db.sessions[x], ids))
  {
  }

  /** A token whose access token still has an active session was not revoked by the cascade. */
  lemma {:induction false} CascadeSparesLive(db: Db, seen: set<string>, ids: set<string>, now: int, t: string)
    requires SessionSecrets(db.sessions, seen) && t in db.tokens
    requires Liveness.HasSession(CascadeAll(db, ids, now), db.tokens[t].access)
    ensures CascadeAll(db, ids, now).tokens[t] == db.tokens[t] && Liveness.HasSession(db, db.tokens[t].access)
  {
    var after, v := CascadeAll(db, ids, now), db.tokens[t].access;
    var y :| y in after.sessions && after.sessions[y].access == v && after.sessions[y].deactivated.None?;
    CascadeEndsSession(db, ids, now, y);
    assert db.sessions[y].access == v && db.sessions[y].deactivated.None? && !IsChild(db.sessions[y], ids);
    forall x | x in db.sessions && IsChild(db.sessions[x], ids) ensures db.sessions[x].access != v {
    }
    assert v !in ChildAccess(db.sessions, ids);
  }

  lemma {:induction false} SweepKeepsRelated(s: State, u: State, ids: set<string>, retention: int)
    requires Related(s, u, retention) && Inv(s)
    requires forall i :: i in ids ==> ActiveIdp(s.db.idps, i) && Late(s.cfg, s.db.idps[i], s.clock)
    ensures Related(s.(db := CascadeAll(s.db, ids, s.clock)), u, retention)
  {
    var s' := s.(db := CascadeAll(s.db, ids, s.clock));
    SweepLogins(s, u, ids);
    forall c ensures CodeRel(s', u, c, retention) {
      assert CodeRel(s, u, c, retention);
    }
    forall x ensures SessionRel(s', u, x, retention) {
      SweepSession(s, u, ids, x, retention);
    }
    forall t ensures TokenRel(s', u, t, retention) {
      assert TokenRel(s, u, t, retention);
      if t in s.db.tokens && Liveness.HasSession(s'.db, s.db.tokens[t].access) {
        CascadeSparesLive(s.db, s.seen, ids, s.clock, t);
      }
    }
  }

  lemma {:induction false} SweepSession(s: State, u: State, ids: set<string>, x: string, retention: int)
    requires Related(s, u, retention) && Inv(s)
    requires forall i :: i in ids ==> ActiveIdp(s.db.idps, i) && Late(s.cfg, s.db.idps[i], s.clock)
    ensures SessionRel(s.(db := CascadeAll(s.db, ids, s.clock)), u, x, retention)
  {
    var s' := s.(db := CascadeAll(s.db, ids, s.clock));
    assert SessionRel(s, u, x, retention);
    if x in s.db.sessions {
      CascadeEndsSession(s.db, ids, s.clock, x);
      if s.db.sessions[x].deactivated.None? && IsChild(s.db.sessions[x], ids) {
        assert LoginRel(s, u, s.db.sessions[x].idp.value);
      }
    }
  }

  lemma {:induction false} DeletionKeepsRelated(s: State, u: State, table: Swept, retention: int)
    requires Related(s, u, retention)
    ensures Related(s.(db := DeleteExpired(s.db, table, s.clock - retention)), u, retention)
  {
    var s' := s.(db := DeleteExpired(s.db, table, s.clock - retention));
    forall i ensures LoginRel(s', u, i) {
      assert LoginRel(s, u, i);
      assert ActiveIdp(s'.db.idps, i) <==> ActiveIdp(s.db.idps, i);
    }
    forall c ensures CodeRel(s', u, c, retention) {
      assert CodeRel(s, u, c, retention);
    }
    forall x ensures SessionRel(s', u, x, retention) {
      assert SessionRel(s, u, x, retention);
    }
    forall t ensures TokenRel(s', u, t, retention) {
      assert TokenRel(s, u, t, retention);
      if t in s'.db.tokens && Liveness.HasSession(s'.db, s.db.tokens[t].access) {
        DeletionFindsNone(s.db, table, s.clock - retention, s.db.tokens[t].access);
      }
    }
  }

  lemma {:induction false} DeletionFindsNone(db: Db, table: Swept, threshold: int, v: string)
    ensures Liveness.HasSession(DeleteExpired(db, table, threshold), v) ==> Liveness.HasSession(db, v)
  {
    DeleteOneIsQuiet(db, table, threshold);
    if Liveness.HasSession(DeleteExpired(db, table, threshold), v) {
      Liveness.QuietHadSession(db, DeleteExpired(db, table, threshold), v);
    }
  }

  lemma {:induction false} DeletionsKeepRelated(s: State, u: State, tables: seq<Swept>, skipped: set<Swept>,
          retention: int)
    requires Related(s, u, retention)
    ensures Related(s.(db := DeleteAll(s.db, tables, skipped, s.clock - retention)), u, retention)
    decreases |tables|
  {
    if tables != [] {
      var before, t := tables[..|tables| - 1], tables[|tables| - 1];
      DeletionsKeepRelated(s, u, before, skipped, retention);
      var mid := s.(db := DeleteAll(s.db, before, skipped, s.clock - retention));
      if t !in skipped {
        DeletionKeepsRelated(mid, u, t, retention);
      }
    }
  }

  lemma {:induction false} IdleSweepKeepsRelated(s: State, u: State, done: set<string>, retention: int)
    requires Related(s, u, retention) && Inv(s)
    ensures Related(s.(db := IdleSwept(s.db, s.cfg, s.clock, done)), u, retention)
  {
    hide Inv, Related, CascadeAll;
    if s.cfg.idle > 0 {
      SweepKeepsRelated(s, u, IdleIds(s.db.idps, s.clock - s.cfg.idle) * done, retention);
    }
  }

  lemma {:induction false} IdleSweepKeepsInv(s: State, done: set<string>)
    requires Inv(s)
    ensures Inv(s.(db := IdleSwept(s.db, s.cfg, s.clock, done)))
  {
    IdleSweepIsQuiet(s.db, s.cfg, s.clock, done);
    QuietKeepsInv(s, IdleSwept(s.db, s.cfg, s.clock, done));
  }

  lemma {:induction false} AgedSweepKeepsRelated(s: State, u: State, done: set<string>, retention: int)
    requires Related(s, u, retention) && Inv(s)
    ensures Related(s.(db := AgedSwept(s.db, s.cfg, s.clock, done)), u, retention)
  {
    hide Inv, Related, CascadeAll;
    if s.cfg.maxAge > 0 {
      SweepKeepsRelated(s, u, AgedIds(s.db.idps, s.clock - s.cfg.maxAge) * done, retention);
    }
  }

  lemma {:induction false} TickRelates(s: State, u: State, idleDone: set<string>, agedDone: set<string>,
                                       skipped: set<Swept>, retention: int)
    requires Related(s, u, retention) && Inv(s)
    ensures Related(s.(db := CleanupRun(s.db, s.cfg, s.clock, retention, idleDone, agedDone, skipped)), u, retention)
  {
    hide Inv, Related, IdleSwept, AgedSwept, DeleteAll;
    var db1 := IdleSwept(s.db, s.cfg, s.clock, idleDone);
    IdleSweepKeepsRelated(s, u, idleDone, retention);
    IdleSweepKeepsInv(s, idleDone);
    var s1 := s.(db := db1);
    AgedSweepKeepsRelated(s1, u, agedDone, retention);
    var s2 := s1.(db := AgedSwept(db1, s.cfg, s.clock, agedDone));
    DeletionsKeepRelated(s2, u, TRANSIENT_TABLES, skipped, retention);
  }

  lemma {:induction false} TickStep(st: State, e: Event)
    requires e.op.Cleanup?
    ensures
      var op := e.op;
      Step(st, e) == st.(clock := e.now,
        db := CleanupRun(st.db, st.cfg, e.now, op.retention, op.idleDone, op.agedDone, op.skipped))
  {
    assert st.born + map[] == st.born && st.seen + {} == st.seen && st.signed + {} == st.signed;
  }

  lemma {:induction false} TickKeepsRelated(s: State, u: State, e: Event, retention: int)
    requires Related(s, u, retention) && Inv(s) && Legal(s, e) && e.op.Cleanup? && e.op.retention == retention
    ensures Related(Step(s, e), u, retention)
  {
    var s0 := s.(clock := e.now);
    Later(s, u, e.now, u.clock, retention);
    InvAt(s, s0);
    TickRelates(s0, u, e.op.idleDone, e.op.agedDone, e.op.skipped, retention);
    TickStep(s, e);
  }

  // ------------------------------------------- single statements on both sides

  lemma {:induction false} RevokeBoth(s: State, u: State, a: set<string>, b: set<string>, now: int, retention: int)
    requires Related(s, u, retention) && forall t :: t in s.db.tokens ==> (t in a <==> t in b)
    ensures Related(s.(db := s.db.(tokens := RevokeWhere(s.db.tokens, a, now))),
                    u.(db := u.db.(tokens := RevokeWhere(u.db.tokens, b, now))), retention)
  {
    var s' := s.(db := s.db.(tokens := RevokeWhere(s.db.tokens, a, now)));
    var u' := u.(db := u.db.(tokens := RevokeWhere(u.db.tokens, b, now)));
    RowsAside(s, u, s', u', retention);
    forall t ensures TokenRel(s', u', t, retention) {
      assert TokenRel(s, u, t, retention);
      assert t in s.db.tokens ==>
        (Liveness.HasSession(s'.db, s.db.tokens[t].access) <==> Liveness.HasSession(s.db, s.db.tokens[t].access));
    }
  }

  /** What two steps that only write tokens, consents and bookkeeping leave related. */
  lemma {:induction false} RowsAside(s: State, u: State, s': State, u': State, retention: int)
    requires Related(s, u, retention) && s'.clock == s.clock && u'.clock == u.clock && u'.signed == u.signed
    requires s'.cfg == s.cfg && u'.cfg == u.cfg
    requires s'.db.idps == s.db.idps && u'.db.idps == u.db.idps
    requires s'.db.codes == s.db.codes && u'.db.codes == u.db.codes
    requires s'.db.sessions == s.db.sessions && u'.db.sessions == u.db.sessions
    ensures forall i :: LoginRel(s', u', i)
    ensures forall c :: CodeRel(s', u', c, retention)
    ensures forall x :: SessionRel(s', u', x, retention)
  {
    forall i ensures LoginRel(s', u', i) {
      assert LoginRel(s, u, i);
    }
    forall c ensures CodeRel(s', u', c, retention) {
      assert CodeRel(s, u, c, retention);
    }
    forall x ensures SessionRel(s', u', x, retention) {
      assert SessionRel(s, u, x, retention);
    }
  }

  lemma {:induction false} StampTokensBoth(s: State, u: State, value: string, now: int, retention: int)
    requires Related(s, u, retention)
    ensures Related(s.(db := s.db.(tokens := RevokeValue(s.db.tokens, value, now))),
                    u.(db := u.db.(tokens := RevokeValue(u.db.tokens, value, now))), retention)
  {
    var s' := s.(db := s.db.(tokens := RevokeValue(s.db.tokens, value, now)));
    var u' := u.(db := u.db.(tokens := RevokeValue(u.db.tokens, value, now)));
    RowsAside(s, u, s', u', retention);
    forall t ensures TokenRel(s', u', t, retention) {
      assert TokenRel(s, u, t, retention);
      assert t in s.db.tokens ==>
        (Liveness.HasSession(s'.db, s.db.tokens[t].access) <==> Liveness.HasSession(s.db, s.db.tokens[t].access));
    }
  }

  /** The logins and codes stay related when only sessions and tokens are written. */
  lemma {:induction false} LoginsAside(s: State, u: State, s': State, u': State, retention: int)
    requires Related(s, u, retention) && s'.clock == s.clock && u'.clock == u.clock
    requires s'.cfg == s.cfg && u'.cfg == u.cfg
    requires s'.db.idps == s.db.idps && u'.db.idps == u.db.idps
    requires s'.db.codes == s.db.codes && u'.db.codes == u.db.codes
    ensures forall i :: LoginRel(s', u', i)
    ensures forall c :: CodeRel(s', u', c, retention)
  {
    forall i ensures LoginRel(s', u', i) {
      assert LoginRel(s, u, i);
    }
    forall c ensures CodeRel(s', u', c, retention) {
      assert CodeRel(s, u, c, retention);
    }
  }

  /** Ending sessions on both sides: the same ones, as far as the swept side has them. */
  lemma {:induction false} EndSessionsBoth(s: State, u: State, ss: map<string, Session>, us: map<string, Session>,
          retention: int)
    requires Related(s, u, retention)
    requires SessionsKept(s.db.sessions, ss) && SessionsKept(u.db.sessions, us)
    requires ss.Keys == s.db.sessions.Keys && us.Keys == u.db.sessions.Keys
    requires forall x :: x in s.db.sessions && x in u.db.sessions ==>
      && (us[x].deactivated.Some? && u.db.sessions[x].deactivated.None? ==> ss[x].deactivated.Some?)
      && (ss[x].deactivated.Some? && s.db.sessions[x].deactivated.None? ==> us[x].deactivated.Some?)
    ensures Related(s.(db := s.db.(sessions := ss)), u.(db := u.db.(sessions := us)), retention)
  {
    var s', u' := s.(db := s.db.(sessions := ss)), u.(db := u.db.(sessions := us));
    LoginsAside(s, u, s', u', retention);
    forall x ensures SessionRel(s', u', x, retention) {
      assert SessionRel(s, u, x, retention);
    }
    SessionsOnly(s.db, ss);
    forall t ensures TokenRel(s', u', t, retention) {
      assert TokenRel(s, u, t, retention);
      if t in s.db.tokens && Liveness.HasSession(s'.db, s.db.tokens[t].access) {
        Liveness.QuietHadSession(s.db, s'.db, s.db.tokens[t].access);
      }
    }
  }

  /** A bump on both sides, of a login that is active on both or on none. */
  lemma {:induction false} TouchBoth(s: State, u: State, login: string, now: int, retention: int)
    requires Related(s, u, retention) && (ActiveIdp(u.db.idps, login) ==> ActiveIdp(s.db.idps, login))
    ensures Related(s.(db := s.db.(idps := Touch(s.db.idps, login, now))),
                    u.(db := u.db.(idps := Touch(u.db.idps, login, now))), retention)
  {
    var s' := s.(db := s.db.(idps := Touch(s.db.idps, login, now)));
    var u' := u.(db := u.db.(idps := Touch(u.db.idps, login, now)));
    assert LoginRel(s, u, login);
    forall i ensures LoginRel(s', u', i) {
      assert LoginRel(s, u, i);
    }
    LoginWritesKeepRows(s, u, s', u', retention);
  }

  /** Writing logins keeps the rows related, if doomed sessions stay doomed. */
  lemma {:induction false} LoginWritesKeepRows(s: State, u: State, s': State, u': State, retention: int)
    requires Related(s, u, retention)
    requires s' == s.(db := s.db.(idps := s'.db.idps)) && u' == u.(db := u.db.(idps := u'.db.idps))
    requires forall x :: x in u.db.sessions && u.db.sessions[x].deactivated.None? && Doomed(s, u, x, retention) ==>
      Doomed(s', u', x, retention)
    ensures RowsRelated(s', u', retention)
  {
    forall c ensures CodeRel(s', u', c, retention) {
      assert CodeRel(s, u, c, retention);
    }
    forall x ensures SessionRel(s', u', x, retention) {
      assert SessionRel(s, u, x, retention);
    }
    forall t ensures TokenRel(s', u', t, retention) {
      assert TokenRel(s, u, t, retention);
      assert t in s.db.tokens ==>
        (Liveness.HasSession(s'.db, s.db.tokens[t].access) <==> Liveness.HasSession(s.db, s.db.tokens[t].access));
    }
  }

  /** A code written on both sides, new or already the same. */
  lemma {:induction false} WriteCodeBoth(s: State, u: State, code: string, row: AuthCode, retention: int)
    requires Related(s, u, retention)
    ensures Related(s.(db := s.db.(codes := s.db.codes[code := row])),
                    u.(db := u.db.(codes := u.db.codes[code := row])), retention)
  {
    var s' := s.(db := s.db.(codes := s.db.codes[code := row]));
    var u' := u.(db := u.db.(codes := u.db.codes[code := row]));
    forall i ensures LoginRel(s', u', i) {
      assert LoginRel(s, u, i);
    }
    forall c ensures CodeRel(s', u', c, retention) {
      assert CodeRel(s, u, c, retention);
    }
    forall x ensures SessionRel(s', u', x, retention) {
      assert SessionRel(s, u, x, retention);
    }
    forall t ensures TokenRel(s', u', t, retention) {
      assert TokenRel(s, u, t, retention);
      assert t in s.db.tokens ==>
        (Liveness.HasSession(s'.db, s.db.tokens[t].access) <==> Liveness.HasSession(s.db, s.db.tokens[t].access));
    }
  }

  /** Bookkeeping and consents on both sides. */
  lemma {:induction false} NoteBoth(s: State, u: State, s': State, u': State, retention: int)
    requires Related(s, u, retention)
    requires s' == s.(db := s.db.(consents := s'.db.consents), seen := s'.seen, born := s'.born, signed := s'.signed)
    requires u' == u.(db := u.db.(consents := s'.db.consents), seen := s'.seen, born := s'.born, signed := s'.signed)
    requires forall j :: j in s'.signed && j !in s.signed ==> j.session !in u.db.sessions
    ensures Related(s', u', retention)
  {
    forall i ensures LoginRel(s', u', i) {
      assert LoginRel(s, u, i);
    }
    forall c ensures CodeRel(s', u', c, retention) {
      assert CodeRel(s, u, c, retention);
    }
    forall x ensures SessionRel(s', u', x, retention) {
      assert SessionRel(s, u, x, retention);
    }
    forall t ensures TokenRel(s', u', t, retention) {
      assert TokenRel(s, u, t, retention);
      assert t in s.db.tokens ==>
        (Liveness.HasSession(s'.db, s.db.tokens[t].access) <==> Liveness.HasSession(s.db, s.db.tokens[t].access));
    }
  }

  // --------------------------------------------------- the logins, op by op

  /** The bookkeeping of a step, without its effect on the tables. */
  ghost function Noted(st: State, e: Event): State {
    st.(clock := e.now, seen := st.seen + NewIds(e.op), born := st.born + NewLogins(e.op),
        signed := st.signed + NewJwts(e.op))
  }

  lemma {:induction false} StepFromNoted(st: State, e: Event)
    requires !e.op.Reconfigure?
    ensures Step(st, e) == Noted(st, e).(db := Execute(st.cfg, st.db, e.now, e.op))
  {
  }

  lemma {:induction false} LegalWithoutTicks(s: State, u: State, e: Event)
    requires LoginsRelated(s, u) && Legal(s, e)
    ensures Legal(u, e)
  {
  }

  lemma {:induction false} EndLogins(s: State, u: State, a: set<string>, b: set<string>, now: int)
    requires LoginsRelated(s, u) && forall i :: ActiveIdp(s.db.idps, i) ==> (i in a <==> i in b)
    ensures LoginsRelated(s.(db := s.db.(idps := DeactivateIdps(s.db.idps, a, now))),
                          u.(db := u.db.(idps := DeactivateIdps(u.db.idps, b, now))))
  {
    var s' := s.(db := s.db.(idps := DeactivateIdps(s.db.idps, a, now)));
    var u' := u.(db := u.db.(idps := DeactivateIdps(u.db.idps, b, now)));
    forall i ensures LoginRel(s', u', i) {
      assert LoginRel(s, u, i);
    }
  }

  lemma {:induction false} AddLogin(s: State, u: State, login: string, user: string, now: int)
    requires LoginsRelated(s, u) && (login != "" ==> login !in s.db.idps && login !in u.db.idps)
    ensures LoginsRelated(s.(db := LoggedIn(s.db, login, user, now)), u.(db := LoggedIn(u.db, login, user, now)))
  {
    var s' := s.(db := LoggedIn(s.db, login, user, now));
    var u' := u.(db := LoggedIn(u.db, login, user, now));
    forall i ensures LoginRel(s', u', i) {
      assert LoginRel(s, u, i);
    }
  }

  lemma {:induction false} TouchLogin(s: State, u: State, login: string, now: int)
    requires LoginsRelated(s, u) && (ActiveIdp(u.db.idps, login) ==> ActiveIdp(s.db.idps, login))
    ensures LoginsRelated(s.(db := s.db.(idps := Touch(s.db.idps, login, now))),
                          u.(db := u.db.(idps := Touch(u.db.idps, login, now))))
  {
    var s' := s.(db := s.db.(idps := Touch(s.db.idps, login, now)));
    var u' := u.(db := u.db.(idps := Touch(u.db.idps, login, now)));
    assert LoginRel(s, u, login);
    forall i ensures LoginRel(s', u', i) {
      assert LoginRel(s, u, i);
    }
  }

  lemma {:induction false} DeleteLogins(s: State, u: State, user: string)
    requires LoginsRelated(s, u)
    ensures LoginsRelated(s.(db := s.db.(idps := LoginsLeft(s.db.idps, user))),
                          u.(db := u.db.(idps := LoginsLeft(u.db.idps, user))))
  {
    var s' := s.(db := s.db.(idps := LoginsLeft(s.db.idps, user)));
    var u' := u.(db := u.db.(idps := LoginsLeft(u.db.idps, user)));
    forall i ensures LoginRel(s', u', i) {
      assert LoginRel(s, u, i);
    }
  }

  /** Only the logins, the consents and the bookkeeping matter. */
  lemma {:induction false} SameLogins(s: State, u: State, s': State, u': State)
    requires LoginsRelated(s, u)
    requires s'.cfg == u'.cfg == s.cfg && s'.seen == u'.seen && s'.born == u'.born && s'.signed == u'.signed
    requires s'.clock == s.clock && u'.clock == u.clock && s'.db.consents == u'.db.consents
    requires s'.db.idps == s.db.idps && u'.db.idps == u.db.idps
    ensures LoginsRelated(s', u')
  {
    forall i ensures LoginRel(s', u', i) {
      assert LoginRel(s, u, i);
    }
  }

  /** Auto-login refuses every login that a sweep may have ended, so both sides agree. */
  lemma {:induction false} SignOnAgrees(s: State, u: State, r: AuthRequest, now: int, code: string)
    requires LoginsRelated(s, u) && s.clock <= now && code !in s.db.codes && code !in u.db.codes
    ensures Accepted(s.cfg, s.db, r, now) <==> Accepted(u.cfg, u.db, r, now)
    ensures Accepted(s.cfg, s.db, r, now) ==> s.db.idps[r.cookie] == u.db.idps[r.cookie]
    ensures Accepted(s.cfg, s.db, r, now) ==>
      AutoLoginAnswer(s.cfg, s.db, r, now, code) == AutoLoginAnswer(u.cfg, u.db, r, now, code)
  {
    assert LoginRel(s, u, r.cookie);
    if ActiveIdp(u.db.idps, r.cookie) && !ActiveIdp(s.db.idps, r.cookie) {
      assert !Fresh(u.cfg, u.db.idps[r.cookie], r.maxAge, now);
    }
  }

  /** The row that an accepted, consented auto-login writes. */
  ghost function SignOnRow(cfg: Config, db: Db, r: AuthRequest, now: int): AuthCode
    requires r.cookie in db.idps
  {
    var s := db.idps[r.cookie];
    NewCode(s.user, r.client, r.scope, now + cfg.codeExpiration, Some(s.created), r.cookie, now)
  }

  lemma {:induction false} SignOnEffect(cfg: Config, db: Db, r: AuthRequest, now: int, code: string)
    ensures
      var after, ok := AutoLogin(cfg, db, r, now, code), Accepted(cfg, db, r, now);
      after == db.(idps := if ok then Touch(db.idps, r.cookie, now) else db.idps,
                   codes := if ok && AutoLoginAnswer(cfg, db, r, now, code).Issued?
                            then db.codes[code := SignOnRow(cfg, db, r, now)] else db.codes)
  {
  }

  /** Revoking everything of a user ends all of the user's logins: none is spared. */
  lemma {:induction false} RevokeUserEndsLogins(db: Db, user: string, now: int)
    ensures RevokeUserAccess(db, user, "", now).idps == DeactivateIdps(db.idps, IdpsOf(db.idps, user), now)
  {
    var sessions := DeactivateWhere(db.sessions, SessionsOf(db.sessions, user, ""), now);
    forall x | x in sessions && sessions[x].user == user ensures sessions[x].deactivated.Some? {
      assert x in SessionsOf(db.sessions, user, "");
    }
    assert InUse(sessions, user) == {};
    assert IdpsOf(db.idps, user) - {} == IdpsOf(db.idps, user);
  }

  /** Steps whose effect on logins and consents does not depend on the other tables. */
  predicate LoginsOnly(op: Op) {
    && !op.PostConsent? && !op.Refresh? && !op.Reconfigure? && !op.Cleanup? && !(op.RevokeUser? && op.keep != "")
  }

  predicate LeavesLogins(op: Op) {
    || op.Redeem? || op.IssueToUser? || op.IssueToClient? || op.RevokeToken? || op.RevokeRow?
    || op.DeactivateSession? || op.DeactivateUserSessions?
  }

  lemma {:induction false} LeavesLoginsAlone(cfg: Config, db: Db, now: int, op: Op)
    requires LeavesLogins(op)
    ensures Execute(cfg, db, now, op).idps == db.idps && Execute(cfg, db, now, op).consents == db.consents
  {
    if op.Redeem? {
      CodeLaws.RedeemAside(db, op.code, op.redeemChecks, now, op.pair);
    }
  }

  lemma {:induction false} NotedLogins(s: State, u: State, e: Event)
    requires LoginsRelated(s, u) && Legal(s, e)
    ensures LoginsRelated(Noted(s, e), Noted(u, e))
  {
    LoginsLater(s, u, e.now, e.now);
    SameLogins(s.(clock := e.now), u.(clock := e.now), Noted(s, e), Noted(u, e));
  }

  lemma {:induction false} SignOnLogins(s: State, u: State, e: Event)
    requires LoginsRelated(s, u) && Inv(s) && Inv(u) && Legal(s, e) && e.op.SignOn?
    ensures Observe(s, e) == Observe(u, e)
    ensures LoginsRelated(Step(s, e), Step(u, e))
  {
    var r, code := e.op.r, e.op.code;
    var s0, u0 := Noted(s, e), Noted(u, e);
    NotedLogins(s, u, e);
    assert code != "" ==> code in NewIds(e.op);
    assert code !in s.db.codes && code !in u.db.codes;
    SignOnAgrees(s, u, r, e.now, code);
    SignOnEffect(s.cfg, s.db, r, e.now, code);
    SignOnEffect(u.cfg, u.db, r, e.now, code);
    if Accepted(s.cfg, s.db, r, e.now) {
      TouchLogin(s0, u0, r.cookie, e.now);
      SameLogins(s0.(db := s0.db.(idps := Touch(s0.db.idps, r.cookie, e.now))),
                 u0.(db := u0.db.(idps := Touch(u0.db.idps, r.cookie, e.now))), Step(s, e), Step(u, e));
    } else {
      SameLogins(s0, u0, Step(s, e), Step(u, e));
    }
  }

  lemma {:induction false} EndingLogins(s: State, u: State, e: Event)
    requires LoginsRelated(s, u) && Legal(s, e) && LoginsOnly(e.op)
    requires
      e.op.DeactivateLogin? || e.op.DeactivateUserLogins? || e.op.Cascade? || e.op.RevokeUser? || e.op.HardDelete?
    ensures LoginsRelated(Step(s, e), Step(u, e))
  {
    var s0, u0, now := Noted(s, e), Noted(u, e), e.now;
    NotedLogins(s, u, e);
    if e.op.HardDelete? && e.op.done <= 3 {
      SameLogins(s0, u0, Step(s, e), Step(u, e));
    } else if e.op.HardDelete? {
      DeleteLogins(s0, u0, e.op.user);
      SameLogins(s0.(db := s0.db.(idps := LoginsLeft(s0.db.idps, e.op.user))),
                 u0.(db := u0.db.(idps := LoginsLeft(u0.db.idps, e.op.user))), Step(s, e), Step(u, e));
    } else if e.op.Cascade? && (e.op.failed || e.op.login == "") {
      SameLogins(s0, u0, Step(s, e), Step(u, e));
    } else {
      var a := if e.op.DeactivateLogin? || e.op.Cascade? then {e.op.login} else IdpsOf(s.db.idps, e.op.user);
      var b := if e.op.DeactivateLogin? || e.op.Cascade? then {e.op.login} else IdpsOf(u.db.idps, e.op.user);
      if e.op.RevokeUser? {
        RevokeUserEndsLogins(s.db, e.op.user, now);
        RevokeUserEndsLogins(u.db, e.op.user, now);
      }
      forall i | ActiveIdp(s0.db.idps, i) ensures i in a <==> i in b {
        assert LoginRel(s0, u0, i);
      }
      EndLogins(s0, u0, a, b, now);
      SameLogins(s0.(db := s0.db.(idps := DeactivateIdps(s0.db.idps, a, now))),
                 u0.(db := u0.db.(idps := DeactivateIdps(u0.db.idps, b, now))), Step(s, e), Step(u, e));
    }
  }

  lemma {:induction false} LoginLogins(s: State, u: State, e: Event)
    requires LoginsRelated(s, u) && Inv(s) && Inv(u) && Legal(s, e) && (e.op.Login? || e.op.LoginWithCode?)
    ensures LoginsRelated(Step(s, e), Step(u, e))
  {
    var s0, u0 := Noted(s, e), Noted(u, e);
    NotedLogins(s, u, e);
    var login, user := e.op.login, e.op.user;
    assert login != "" ==> login in NewIds(e.op);
    AddLogin(s0, u0, login, user, e.now);
    SameLogins(s0.(db := LoggedIn(s0.db, login, user, e.now)), u0.(db := LoggedIn(u0.db, login, user, e.now)),
               Step(s, e), Step(u, e));
  }

  lemma {:induction false} StepKeepsLogins(s: State, u: State, e: Event)
    requires LoginsRelated(s, u) && Inv(s) && Inv(u) && Legal(s, e) && LoginsOnly(e.op)
    ensures LoginsRelated(Step(s, e), Step(u, e))
    ensures e.op.SignOn? ==> Observe(s, e) == Observe(u, e)
  {
    if e.op.SignOn? {
      SignOnLogins(s, u, e);
    } else if e.op.Login? || e.op.LoginWithCode? {
      LoginLogins(s, u, e);
    } else if LeavesLogins(e.op) {
      NotedLogins(s, u, e);
      LeavesLoginsAlone(s.cfg, s.db, e.now, e.op);
      LeavesLoginsAlone(u.cfg, u.db, e.now, e.op);
      SameLogins(Noted(s, e), Noted(u, e), Step(s, e), Step(u, e));
    } else if e.op.DeleteClient? {
      NotedLogins(s, u, e);
      SameLogins(Noted(s, e), Noted(u, e), Step(s, e), Step(u, e));
    } else {
      EndingLogins(s, u, e);
    }
  }

  // ----------------------------------------------------- all tables, op by op

  /** The bookkeeping keeps the invariant and the relation. */
  lemma {:induction false} NotedKeepsInv(st: State, e: Event)
    requires Inv(st) && Legal(st, e)
    ensures Inv(Noted(st, e))
  {
    hide Links, Secrets;
    var st' := Noted(st, e);
    if Pairs(e.op) != {} {
      KnownKeepsSecrets(st, e.op.pair, !e.op.IssueToClient?);
      InvAt(Known(st, e.op.pair, !e.op.IssueToClient?), st');
    } else {
      MoreSeenKeepsSecrets(st, st');
      NotedKeepsLinks(st, e);
    }
  }

  lemma {:induction false} NotedKeepsLinks(st: State, e: Event)
    requires Links(st) && Legal(st, e)
    ensures Links(Noted(st, e))
  {
    forall i | i in NewLogins(e.op) ensures i in NewIds(e.op) && i !in st.born {
    }
  }

  lemma {:induction false} NotedRelated(s: State, u: State, e: Event, retention: int)
    requires Related(s, u, retention) && Inv(s) && Inv(u) && Legal(s, e)
    ensures Related(Noted(s, e), Noted(u, e), retention)
  {
    var s0, u0 := s.(clock := e.now), u.(clock := e.now);
    Later(s, u, e.now, e.now, retention);
    forall j | j in NewJwts(e.op) ensures j.session !in u.db.sessions {
      var p :| p in Pairs(e.op) && j == RefreshJwt(p);
      PairMembers(u, p);
    }
    NoteBoth(s0, u0, Noted(s, e), Noted(u, e), retention);
  }

  /** The pair's keys and access token are in no row of either table. */
  ghost predicate Unused(db: Db, p: Pair) {
    && p.tokenId !in db.tokens && p.sessionId !in db.sessions
    && (forall t :: t in db.tokens ==> db.tokens[t].access != p.access)
    && (forall x :: x in db.sessions ==> db.sessions[x].access != p.access)
  }

  lemma {:induction false} FreshIsUnused(st: State, e: Event)
    requires Inv(st) && Legal(st, e) && Pairs(e.op) != {}
    ensures Unused(st.db, e.op.pair)
  {
    PairMembers(st, e.op.pair);
    forall t | t in st.db.tokens ensures st.db.tokens[t].access != e.op.pair.access {
      assert TokenSecret(st.db.tokens[t], st.seen);
    }
  }

  lemma {:induction false} QuietUnused(a: Db, b: Db, p: Pair)
    requires Quiet(a, b) && Unused(a, p)
    ensures Unused(b, p)
  {
  }

  lemma {:induction false} IssuedSession(s: State, u: State, user: Option<string>, idp: Option<string>, grant: Grant,
          a: string, b: string, p: Pair, x: string, retention: int)
    requires SessionRel(s, u, x, retention) && Unused(s.db, p) && Unused(u.db, p)
    ensures SessionRel(s.(db := Issue(s.db, user, idp, grant, a, p)), u.(db := Issue(u.db, user, idp, grant, b, p)), x,
                       retention)
  {
  }

  lemma {:induction false} IssuedToken(s: State, u: State, user: Option<string>, idp: Option<string>, grant: Grant,
          a: string, b: string, p: Pair, t: string, retention: int)
    requires TokenRel(s, u, t, retention) && Unused(s.db, p) && Unused(u.db, p) && (a == b || !p.Stored())
    ensures TokenRel(s.(db := Issue(s.db, user, idp, grant, a, p)), u.(db := Issue(u.db, user, idp, grant, b, p)), t,
                     retention)
  {
    var after := Issue(s.db, user, idp, grant, a, p);
    if t in s.db.tokens && Liveness.HasSession(after, s.db.tokens[t].access) {
      Liveness.IssueHadSession(s.db, user, idp, grant, a, p, s.db.tokens[t].access);
    }
  }

  /** A pair issued on both sides, with the same scope unless no session comes with it. */
  lemma {:induction false} IssueBoth(s: State, u: State, user: Option<string>, idp: Option<string>, grant: Grant,
          a: string, b: string, p: Pair, retention: int)
    requires Related(s, u, retention) && Unused(s.db, p) && Unused(u.db, p) && (a == b || !p.Stored())
    ensures Related(s.(db := Issue(s.db, user, idp, grant, a, p)), u.(db := Issue(u.db, user, idp, grant, b, p)),
                    retention)
  {
    hide SessionRel, TokenRel, Unused;
    var s', u' := s.(db := Issue(s.db, user, idp, grant, a, p)), u.(db := Issue(u.db, user, idp, grant, b, p));
    LoginsAside(s, u, s', u', retention);
    forall x ensures SessionRel(s', u', x, retention) {
      IssuedSession(s, u, user, idp, grant, a, b, p, x, retention);
    }
    forall t ensures TokenRel(s', u', t, retention) {
      IssuedToken(s, u, user, idp, grant, a, b, p, t, retention);
    }
  }

  /** From here on `s` and `u` are the two sides after the bookkeeping of step `e`. */
  ghost predicate Sides(s: State, u: State, now: int, retention: int) {
    Related(s, u, retention) && Inv(s) && Inv(u) && s.clock == u.clock == now
  }

  lemma {:induction false} LoginRows(s: State, u: State, login: string, user: string, now: int, retention: int)
    requires Related(s, u, retention)
    requires login != "" ==> login !in s.db.idps && login !in u.db.idps
    requires login != "" ==> forall x :: x in u.db.sessions ==> u.db.sessions[x].idp != Some(login)
    ensures Related(s.(db := LoggedIn(s.db, login, user, now)), u.(db := LoggedIn(u.db, login, user, now)), retention)
  {
    AddLogin(s, u, login, user, now);
    LoginWritesKeepRows(s, u, s.(db := LoggedIn(s.db, login, user, now)), u.(db := LoggedIn(u.db, login, user, now)),
                        retention);
  }

  lemma {:induction false} LoginRelates(s: State, u: State, e: Event, retention: int)
    requires Related(s, u, retention) && Inv(s) && Inv(u) && Legal(s, e) && (e.op.Login? || e.op.LoginWithCode?)
    ensures Related(Step(s, e), Step(u, e), retention)
  {
    NotedRelated(s, u, e, retention);
    assert e.op.login != "" ==> e.op.login in NewIds(e.op);
    NewLoginIsUnknown(s, u, e.op.login);
    LoginWrites(Noted(s, e), Noted(u, e), s.cfg, e.op, e.now, retention);
    StepFromNoted(s, e);
    StepFromNoted(u, e);
  }

  lemma {:induction false} NewLoginIsUnknown(s: State, u: State, login: string)
    requires Inv(s) && Inv(u) && s.seen == u.seen && (login != "" ==> login !in s.seen)
    ensures login != "" ==> login !in s.db.idps && login !in u.db.idps
    ensures login != "" ==> forall x :: x in u.db.sessions ==> u.db.sessions[x].idp != Some(login)
  {
    forall x | login != "" && x in u.db.sessions ensures u.db.sessions[x].idp != Some(login) {
      assert LinkOk(u.born, u.db.sessions[x].idp, u.db.sessions[x].user);
    }
  }

  lemma {:induction false} LoginWrites(s: State, u: State, cfg: Config, op: Op, now: int, retention: int)
    requires Related(s, u, retention) && (op.Login? || op.LoginWithCode?)
    requires op.login != "" ==> op.login !in s.db.idps && op.login !in u.db.idps
    requires op.login != "" ==> forall x :: x in u.db.sessions ==> u.db.sessions[x].idp != Some(op.login)
    ensures Related(s.(db := Execute(cfg, s.db, now, op)), u.(db := Execute(cfg, u.db, now, op)), retention)
  {
    var s1, u1 := s.(db := LoggedIn(s.db, op.login, op.user, now)), u.(db := LoggedIn(u.db, op.login, op.user, now));
    LoginRows(s, u, op.login, op.user, now, retention);
    if op.LoginWithCode? && op.code != "" {
      var row := NewCode(op.user, op.client, op.scope, now + cfg.codeExpiration, None, op.login, now);
      WriteCodeBoth(s1, u1, op.code, row, retention);
    }
  }

  lemma {:induction false} SignOnRelates(s: State, u: State, e: Event, retention: int)
    requires Related(s, u, retention) && Inv(s) && Inv(u) && Legal(s, e) && e.op.SignOn?
    ensures Observe(s, e) == Observe(u, e)
    ensures Related(Step(s, e), Step(u, e), retention)
  {
    hide Secrets, RowsRelated, LoginRel;
    var s0, u0, r, code, now := Noted(s, e), Noted(u, e), e.op.r, e.op.code, e.now;
    NotedRelated(s, u, e, retention);
    assert code != "" ==> code in NewIds(e.op);
    assert code !in s.db.codes && code !in u.db.codes;
    SignOnAgrees(s, u, r, now, code);
    SignOnEffect(s.cfg, s.db, r, now, code);
    SignOnEffect(u.cfg, u.db, r, now, code);
    StepFromNoted(s, e);
    StepFromNoted(u, e);
    if Accepted(s.cfg, s.db, r, now) {
      TouchBoth(s0, u0, r.cookie, now, retention);
      if AutoLoginAnswer(s.cfg, s.db, r, now, code).Issued? {
        var row := SignOnRow(s.cfg, s.db, r, now);
        WriteCodeBoth(s0.(db := s0.db.(idps := Touch(s0.db.idps, r.cookie, now))),
                      u0.(db := u0.db.(idps := Touch(u0.db.idps, r.cookie, now))), code, row, retention);
      }
    }
  }

  lemma {:induction false} PostEffect(cfg: Config, db: Db, op: Op, now: int)
    requires op.PostConsent?
    ensures
      var after := Execute(cfg, db, now, op);
      if !ConsentAccepted(db, op.cookie, op.deny) || !op.upsertOk then after == db
      else
        var user := db.idps[op.cookie].user;
        var row := NewCode(user, op.client, op.scope, now + cfg.codeExpiration, None, op.cookie, now);
        after == db.(consents := Scopes.Upsert(db.consents, user, op.client, op.scope),
                     codes := if op.code == "" || op.code in db.codes then db.codes else db.codes[op.code := row])
  {
  }

  lemma {:induction false} PostAgrees(s: State, u: State, e: Event, retention: int)
    requires Related(s, u, retention) && Legal(s, e) && e.op.PostConsent? && InTime(u, e, retention)
    ensures Observe(s, e) == Observe(u, e)
    ensures ConsentAccepted(s.db, e.op.cookie, e.op.deny) <==> ConsentAccepted(u.db, e.op.cookie, e.op.deny)
    ensures ConsentAccepted(s.db, e.op.cookie, e.op.deny) ==> s.db.idps[e.op.cookie] == u.db.idps[e.op.cookie]
  {
    assert LoginRel(s, u, e.op.cookie);
  }

  /** The consent stored, and the code written, on both sides. */
  lemma {:induction false} GrantBoth(s: State, u: State, user: string, client: string, scope: string, code: string,
                                     row: AuthCode, retention: int)
    requires Related(s, u, retention)
    ensures
      var consents := Scopes.Upsert(s.db.consents, user, client, scope);
      && Related(s.(db := s.db.(consents := consents)), u.(db := u.db.(consents := consents)), retention)
      && Related(s.(db := s.db.(consents := consents, codes := s.db.codes[code := row])),
                 u.(db := u.db.(consents := consents, codes := u.db.codes[code := row])), retention)
  {
    var consents := Scopes.Upsert(s.db.consents, user, client, scope);
    var s1, u1 := s.(db := s.db.(consents := consents)), u.(db := u.db.(consents := consents));
    NoteBoth(s, u, s1, u1, retention);
    WriteCodeBoth(s1, u1, code, row, retention);
  }

  lemma {:induction false} PostRelates(s: State, u: State, e: Event, retention: int)
    requires Related(s, u, retention) && Inv(s) && Inv(u) && Legal(s, e) && e.op.PostConsent? && InTime(u, e, retention)
    ensures Observe(s, e) == Observe(u, e)
    ensures Related(Step(s, e), Step(u, e), retention)
  {
    PostAgrees(s, u, e, retention);
    NotedRelated(s, u, e, retention);
    PostEffect(s.cfg, s.db, e.op, e.now);
    PostEffect(u.cfg, u.db, e.op, e.now);
    StepFromNoted(s, e);
    StepFromNoted(u, e);
    if ConsentAccepted(s.db, e.op.cookie, e.op.deny) && e.op.upsertOk {
      PostAccepted(s, u, e, retention);
    }
  }

  lemma {:induction false} PostAccepted(s: State, u: State, e: Event, retention: int)
    requires Related(Noted(s, e), Noted(u, e), retention) && Inv(s) && Inv(u) && Legal(s, e) && e.op.PostConsent?
    requires s.cfg == u.cfg && s.seen == u.seen && e.op.upsertOk
    requires ConsentAccepted(s.db, e.op.cookie, e.op.deny) && ConsentAccepted(u.db, e.op.cookie, e.op.deny)
    requires s.db.idps[e.op.cookie] == u.db.idps[e.op.cookie]
    ensures Related(Step(s, e), Step(u, e), retention)
  {
    hide Related, Secrets;
    assert e.op.code != "" ==> e.op.code in NewIds(e.op);
    assert e.op.code !in s.db.codes && e.op.code !in u.db.codes;
    PostWrites(Noted(s, e), Noted(u, e), e.op, e.now, retention);
    StepFromNoted(s, e);
    StepFromNoted(u, e);
  }

  lemma {:induction false} PostWrites(s: State, u: State, op: Op, now: int, retention: int)
    requires Related(s, u, retention) && op.PostConsent? && op.upsertOk && op.code !in s.db.codes &&
      op.code !in u.db.codes
    requires ConsentAccepted(s.db, op.cookie, op.deny) && ConsentAccepted(u.db, op.cookie, op.deny)
    requires s.db.idps[op.cookie] == u.db.idps[op.cookie]
    ensures Related(Effect(s, op, now), Effect(u, op, now), retention)
  {
    var user := s.db.idps[op.cookie].user;
    var row := NewCode(user, op.client, op.scope, now + s.cfg.codeExpiration, None, op.cookie, now);
    PostEffect(s.cfg, s.db, op, now);
    PostEffect(u.cfg, u.db, op, now);
    GrantBoth(s, u, user, op.client, op.scope, op.code, row, retention);
  }

  lemma {:induction false} DeactivateRelates(s: State, u: State, e: Event, retention: int)
    requires Related(s, u, retention) && Inv(s) && Inv(u) && Legal(s, e) && InTime(u, e, retention)
    requires e.op.DeactivateLogin? || e.op.DeactivateUserLogins?
    ensures Related(Step(s, e), Step(u, e), retention)
  {
    hide RowsRelated, LoginRel, Inv, Legal;
    var s0, u0, now := Noted(s, e), Noted(u, e), e.now;
    NotedRelated(s, u, e, retention);
    EndingLogins(s, u, e);
    StepFromNoted(s, e);
    StepFromNoted(u, e);
    var ids := if e.op.DeactivateLogin? then {e.op.login} else IdpsOf(u.db.idps, e.op.user);
    forall x | x in u0.db.sessions && u0.db.sessions[x].deactivated.None? && Doomed(s0, u0, x, retention)
      ensures Doomed(Step(s, e), Step(u, e), x, retention)
    {
      if Lingers(u, x, ids, now) {
        assert Spent(u, x, now, retention);
      }
    }
    LoginWritesKeepRows(s0, u0, Step(s, e), Step(u, e), retention);
  }

  lemma {:induction false} CascadeRelates(s: State, u: State, login: string, now: int, retention: int)
    requires Sides(s, u, now, retention)
    requires LoginsRelated(s.(db := CascadeAll(s.db, {login}, now)), u.(db := CascadeAll(u.db, {login}, now)))
    ensures Related(s.(db := CascadeAll(s.db, {login}, now)), u.(db := CascadeAll(u.db, {login}, now)), retention)
  {
    var s', u' := s.(db := CascadeAll(s.db, {login}, now)), u.(db := CascadeAll(u.db, {login}, now));
    forall c ensures CodeRel(s', u', c, retention) {
      assert CodeRel(s, u, c, retention);
    }
    forall x ensures SessionRel(s', u', x, retention) {
      CascadedSession(s, u, login, now, x, retention);
    }
    forall t ensures TokenRel(s', u', t, retention) {
      CascadedToken(s, u, login, now, t, retention);
    }
  }

  lemma {:induction false} CascadedSession(s: State, u: State, login: string, now: int, x: string, retention: int)
    requires Sides(s, u, now, retention)
    ensures SessionRel(s.(db := CascadeAll(s.db, {login}, now)), u.(db := CascadeAll(u.db, {login}, now)), x, retention)
  {
    assert SessionRel(s, u, x, retention);
    if x in s.db.sessions {
      CascadeEndsSession(s.db, {login}, now, x);
    }
    if x in u.db.sessions {
      CascadeEndsSession(u.db, {login}, now, x);
    }
  }

  /** A token left with an active session by the cascade on the swept side has one on the
      other side too. */
  lemma {:induction false} CascadedUse(s: State, u: State, login: string, now: int, v: string, retention: int)
    requires Sides(s, u, now, retention)
    ensures Liveness.HasSession(CascadeAll(s.db, {login}, now), v) ==>
      Liveness.HasSession(CascadeAll(u.db, {login}, now), v)
  {
    var sa, ua := CascadeAll(s.db, {login}, now), CascadeAll(u.db, {login}, now);
    if Liveness.HasSession(sa, v) {
      var y :| y in sa.sessions && sa.sessions[y].access == v && sa.sessions[y].deactivated.None?;
      CascadedSession(s, u, login, now, y, retention);
      assert ua.sessions[y].deactivated.None? && ua.sessions[y].access == v;
    }
  }

  lemma {:induction false} CascadedTokenRow(db: Db, ids: set<string>, now: int, t: string)
    ensures
      var after := CascadeAll(db, ids, now).tokens;
      && (t in after <==> t in db.tokens)
      && (t in after ==> after[t] == db.tokens[t].(revoked := after[t].revoked))
  {
  }

  lemma {:induction false} CascadedToken(s: State, u: State, login: string, now: int, t: string, retention: int)
    requires Sides(s, u, now, retention)
    ensures TokenRel(s.(db := CascadeAll(s.db, {login}, now)), u.(db := CascadeAll(u.db, {login}, now)), t, retention)
  {
    hide CascadeAll, LoginRel, SessionRel, CodeRel;
    assert TokenRel(s, u, t, retention);
    CascadedTokenRow(s.db, {login}, now, t);
    CascadedTokenRow(u.db, {login}, now, t);
    if t in s.db.tokens {
      CascadedUse(s, u, login, now, s.db.tokens[t].access, retention);
      if Liveness.HasSession(CascadeAll(s.db, {login}, now), s.db.tokens[t].access) {
        CascadeSparesLive(s.db, s.seen, {login}, now, t);
        CascadeSparesLive(u.db, u.seen, {login}, now, t);
      }
    }
  }

  // ----------------------------------------------------- revocation and deletion

  /** The last statement of `RevokeUserAccess`. */
  function EndUnused(db: Db, user: string, now: int): Db {
    db.(idps := DeactivateIdps(db.idps, IdpsOf(db.idps, user) - InUse(db.sessions, user), now))
  }

  lemma {:induction false} InUseBy(sessions: map<string, Session>, user: string, login: string)
    ensures login in InUse(sessions, user) <==>
      exists x :: x in sessions && Uses(sessions[x], user) && sessions[x].idp == Some(login)
  {
    if login in InUse(sessions, user) {
      var x :| x in sessions && sessions[x].user == user && sessions[x].deactivated.None?
        && sessions[x].idp.Some? && sessions[x].idp.value == login;
      assert sessions[x].idp == Some(login);
    }
  }

  /** The sessions of the user that are still active were spared in time. */
  ghost predicate SparedSessions(u: State, user: string, now: int, retention: int) {
    forall x :: x in u.db.sessions && Uses(u.db.sessions[x], user) ==> SparedInTime(u, x, now, retention)
  }

  predicate Uses(x: Session, user: string) {
    x.user == user && x.deactivated.None? && x.idp.Some?
  }

  lemma {:induction false} EndUnusedLogin(s: State, u: State, user: string, now: int, i: string, retention: int)
    requires Sides(s, u, now, retention) && SparedSessions(u, user, now, retention)
    ensures LoginRel(s.(db := EndUnused(s.db, user, now)), u.(db := EndUnused(u.db, user, now)), i)
  {
    hide CodeRel, TokenRel, Inv;
    assert LoginRel(s, u, i);
    InUseBy(s.db.sessions, user, i);
    InUseBy(u.db.sessions, user, i);
    if i in InUse(s.db.sessions, user) {
      var x :| x in s.db.sessions && Uses(s.db.sessions[x], user) && s.db.sessions[x].idp == Some(i);
      assert SessionRel(s, u, x, retention);
    }
    if i in InUse(u.db.sessions, user) && ActiveIdp(s.db.idps, i) {
      var x :| x in u.db.sessions && Uses(u.db.sessions[x], user) && u.db.sessions[x].idp == Some(i);
      assert SessionRel(s, u, x, retention);
      assert SparedInTime(u, x, now, retention);
    }
  }

  lemma {:induction false} EndUnusedDoomed(s: State, u: State, user: string, now: int, x: string, retention: int)
    requires Sides(s, u, now, retention)
    requires x in u.db.sessions && u.db.sessions[x].deactivated.None? && Doomed(s, u, x, retention)
    ensures Doomed(s.(db := EndUnused(s.db, user, now)), u.(db := EndUnused(u.db, user, now)), x, retention)
  {
    var login := u.db.sessions[x].idp.value;
    InUseBy(u.db.sessions, user, login);
    assert LinkOk(u.born, u.db.sessions[x].idp, u.db.sessions[x].user);
  }

  lemma {:induction false} EndUnusedBoth(s: State, u: State, user: string, now: int, retention: int)
    requires Sides(s, u, now, retention) && SparedSessions(u, user, now, retention)
    ensures Related(s.(db := EndUnused(s.db, user, now)), u.(db := EndUnused(u.db, user, now)), retention)
  {
    var s', u' := s.(db := EndUnused(s.db, user, now)), u.(db := EndUnused(u.db, user, now));
    forall i ensures LoginRel(s', u', i) {
      EndUnusedLogin(s, u, user, now, i, retention);
    }
    forall x | x in u.db.sessions && u.db.sessions[x].deactivated.None? && Doomed(s, u, x, retention)
      ensures Doomed(s', u', x, retention)
    {
      EndUnusedDoomed(s, u, user, now, x, retention);
    }
    LoginWritesKeepRows(s, u, s', u', retention);
  }

  /** The first two statements of `RevokeUserAccess`. */
  function EndUse(db: Db, user: string, keep: string, now: int): Db {
    db.(tokens := RevokeWhere(db.tokens, TokensOf(db.tokens, user, keep), now),
        sessions := DeactivateWhere(db.sessions, SessionsOf(db.sessions, user, keep), now))
  }

  /** `s` with the sessions of the user ended. */
  function SessionsEnded(st: State, user: string, keep: string, now: int): State {
    var ended := DeactivateWhere(st.db.sessions, SessionsOf(st.db.sessions, user, keep), now);
    st.(db := st.db.(sessions := ended))
  }

  lemma {:induction false} EndSessionsOf(s: State, u: State, user: string, keep: string, now: int, retention: int)
    requires Related(s, u, retention)
    ensures Related(SessionsEnded(s, user, keep, now), SessionsEnded(u, user, keep, now), retention)
  {
    var a, b := SessionsOf(s.db.sessions, user, keep), SessionsOf(u.db.sessions, user, keep);
    DeactivateKeeps(s.db.sessions, a, now);
    DeactivateKeeps(u.db.sessions, b, now);
    forall x | x in s.db.sessions && x in u.db.sessions ensures x in a <==> x in b {
      assert SessionRel(s, u, x, retention);
    }
    EndSessionsBoth(s, u, DeactivateWhere(s.db.sessions, a, now), DeactivateWhere(u.db.sessions, b, now), retention);
  }

  lemma {:induction false} EndUseBoth(s: State, u: State, user: string, keep: string, now: int, retention: int)
    requires Sides(s, u, now, retention)
    ensures Sides(s.(db := EndUse(s.db, user, keep, now)), u.(db := EndUse(u.db, user, keep, now)), now, retention)
  {
    var a, b := TokensOf(s.db.tokens, user, keep), TokensOf(u.db.tokens, user, keep);
    forall t | t in s.db.tokens ensures t in a <==> t in b {
      assert TokenRel(s, u, t, retention);
    }
    RevokeBoth(s, u, a, b, now, retention);
    var s1 := s.(db := s.db.(tokens := RevokeWhere(s.db.tokens, a, now)));
    var u1 := u.(db := u.db.(tokens := RevokeWhere(u.db.tokens, b, now)));
    EndSessionsOf(s1, u1, user, keep, now, retention);
    EndUseIsQuiet(s.db, user, keep, now);
    EndUseIsQuiet(u.db, user, keep, now);
    QuietKeepsInv(s, EndUse(s.db, user, keep, now));
    QuietKeepsInv(u, EndUse(u.db, user, keep, now));
  }

  lemma {:induction false} EndUseIsQuiet(db: Db, user: string, keep: string, now: int)
    ensures Quiet(db, EndUse(db, user, keep, now))
  {
    RevokeKeeps(db.tokens, TokensOf(db.tokens, user, keep), now);
    DeactivateKeeps(db.sessions, SessionsOf(db.sessions, user, keep), now);
  }

  lemma {:induction false} SparedAfter(u0: State, u: State, e: Event, retention: int)
    requires e.op.RevokeUser? && InTime(u0, e, retention) && u.cfg == u0.cfg
    requires u.db == EndUse(u0.db, e.op.user, e.op.keep, e.now)
    ensures SparedSessions(u, e.op.user, e.now, retention)
  {
    var user, keep := e.op.user, e.op.keep;
    forall x | x in u.db.sessions && Uses(u.db.sessions[x], user)
      ensures SparedInTime(u, x, e.now, retention)
    {
      assert x !in SessionsOf(u0.db.sessions, user, keep);
      assert Spared(u0.db.sessions[x], user, keep);
      assert SparedInTime(u0, x, e.now, retention);
    }
  }

  lemma {:induction false} RevokeUserRelates(s: State, u: State, e: Event, retention: int)
    requires Related(s, u, retention) && Inv(s) && Inv(u) && Legal(s, e) && e.op.RevokeUser? && InTime(u, e, retention)
    ensures Related(Step(s, e), Step(u, e), retention)
  {
    var s0, u0, user, keep, now := Noted(s, e), Noted(u, e), e.op.user, e.op.keep, e.now;
    NotedRelated(s, u, e, retention);
    LegalWithoutTicks(s, u, e);
    NotedKeepsInv(s, e);
    NotedKeepsInv(u, e);
    EndUseBoth(s0, u0, user, keep, now, retention);
    var s1, u1 := s0.(db := EndUse(s0.db, user, keep, now)), u0.(db := EndUse(u0.db, user, keep, now));
    SparedAfter(u, u1, e, retention);
    EndUnusedBoth(s1, u1, user, now, retention);
    StepFromNoted(s, e);
    StepFromNoted(u, e);
    assert Step(s, e) == s1.(db := EndUnused(s1.db, user, now));
    assert Step(u, e) == u1.(db := EndUnused(u1.db, user, now));
  }

  lemma {:induction false} HardDeleteRelates(s: State, u: State, user: string, done: nat, now: int,
                                             retention: int)
    requires Sides(s, u, now, retention)
    ensures Related(s.(db := DeleteUser(s.db, user, done)), u.(db := DeleteUser(u.db, user, done)), retention)
  {
    var s', u' := s.(db := DeleteUser(s.db, user, done)), u.(db := DeleteUser(u.db, user, done));
    forall i ensures LoginRel(s', u', i) {
      assert LoginRel(s, u, i);
    }
    forall c ensures CodeRel(s', u', c, retention) {
      assert CodeRel(s, u, c, retention);
    }
    forall x ensures SessionRel(s', u', x, retention) {
      DeletedSession(s, u, user, done, now, x, retention);
    }
    DeleteUserIsQuiet(s.db, user, done);
    forall t ensures TokenRel(s', u', t, retention) {
      assert TokenRel(s, u, t, retention);
      if t in s'.db.tokens && Liveness.HasSession(s'.db, s.db.tokens[t].access) {
        Liveness.QuietHadSession(s.db, s'.db, s.db.tokens[t].access);
      }
    }
  }

  lemma {:induction false} DeletedSession(s: State, u: State, user: string, done: nat, now: int, x: string,
                                          retention: int)
    requires Sides(s, u, now, retention)
    ensures SessionRel(s.(db := DeleteUser(s.db, user, done)), u.(db := DeleteUser(u.db, user, done)), x, retention)
  {
    hide TokenRel, CodeRel, Secrets;
    assert SessionRel(s, u, x, retention);
    if x in u.db.sessions {
      assert LinkOk(u.born, u.db.sessions[x].idp, u.db.sessions[x].user);
    }
  }

  // --------------------------------------------------------- the token endpoint

  /** A replayed or live code is the same row on both sides; one that a tick has deleted
      would be turned down anyway. */
  lemma {:induction false} RedeemAgrees(s: State, u: State, code: string, checks: RedeemChecks, now: int,
          retention: int)
    requires Related(s, u, retention) && s.clock <= now && RedeemInTime(u.db, code, checks, now, retention)
    ensures code in s.db.codes ==> code in u.db.codes && s.db.codes[code] == u.db.codes[code]
    ensures code !in s.db.codes ==>
      && PrepareRedeem(s.db, code, checks, now) == Rejected(s.db, InvalidCode)
      && PrepareRedeem(u.db, code, checks, now) == Rejected(u.db, InvalidCode)
  {
    assert CodeRel(s, u, code, retention);
  }

  lemma {:induction false} CodeTokensAgree(s: State, u: State, user: string, retention: int)
    requires Related(s, u, retention)
    ensures forall t :: t in s.db.tokens ==>
      (t in CodeTokensOf(s.db.tokens, user) <==> t in CodeTokensOf(u.db.tokens, user))
  {
    forall t | t in s.db.tokens ensures t in CodeTokensOf(s.db.tokens, user) <==> t in CodeTokensOf(u.db.tokens, user) {
      assert TokenRel(s, u, t, retention);
    }
  }

  lemma {:induction false} RedeemRelates(s: State, u: State, code: string, checks: RedeemChecks, p: Pair, now: int,
          retention: int)
    requires Sides(s, u, now, retention) && Unused(s.db, p) && Unused(u.db, p)
    requires RedeemInTime(u.db, code, checks, now, retention)
    ensures FinishAnswer(PrepareRedeem(s.db, code, checks, now), p) ==
      FinishAnswer(PrepareRedeem(u.db, code, checks, now), p)
    ensures Related(s.(db := Finish(PrepareRedeem(s.db, code, checks, now), p)),
                    u.(db := Finish(PrepareRedeem(u.db, code, checks, now), p)), retention)
  {
    hide Inv, RevokeWhere, TokenRel;
    RedeemAgrees(s, u, code, checks, now, retention);
    if code in s.db.codes {
      var row := s.db.codes[code];
      var a, b := CodeTokensOf(s.db.tokens, row.user), CodeTokensOf(u.db.tokens, row.user);
      CodeTokensAgree(s, u, row.user, retention);
      RevokeBoth(s, u, a, b, now, retention);
      var marked := row.(used := true);
      var s1, u1 := s.(db := s.db.(codes := s.db.codes[code := marked])),
          u.(db := u.db.(codes := u.db.codes[code := marked]));
      WriteCodeBoth(s, u, code, marked, retention);
      IssueBoth(s1, u1, Some(row.user), row.idp, AuthorizationCode, row.scope, row.scope, p, retention);
    }
  }

  /** The session of a refresh in time is there on both sides, and active on both or none. */
  lemma {:induction false} RefreshSession(s: State, u: State, e: Event, retention: int)
    requires Related(s, u, retention) && Legal(s, e) && e.op.Refresh? && InTime(u, e, retention)
    requires e.now < e.op.jwt.expires
    ensures e.op.jwt.session in s.db.sessions <==> e.op.jwt.session in u.db.sessions
    ensures e.op.jwt.session in s.db.sessions ==>
      s.db.sessions[e.op.jwt.session].(deactivated := None) == u.db.sessions[e.op.jwt.session].(deactivated := None)
      && (s.db.sessions[e.op.jwt.session].deactivated.Some? <==> u.db.sessions[e.op.jwt.session].deactivated.Some?)
  {
    assert SessionRel(s, u, e.op.jwt.session, retention);
  }

  /** Its token rows are the same on both sides, with the same revocation, while the session
      is active; except for rows that a tick has deleted. */
  lemma {:induction false} RefreshToken(s: State, u: State, jwt: Jwt, now: int, t: string, retention: int)
    requires Related(s, u, retention) && Inv(s) && jwt in s.signed && s.clock <= now
    requires jwt.session in s.db.sessions && s.db.sessions[jwt.session].deactivated.None?
    ensures t in s.db.tokens && s.db.tokens[t].refresh == jwt.refresh ==>
      && t in u.db.tokens && u.db.tokens[t].refresh == jwt.refresh && u.db.tokens[t].scope == s.db.tokens[t].scope
      && (s.db.tokens[t].revoked.Some? <==> u.db.tokens[t].revoked.Some?)
    ensures t in u.db.tokens && u.db.tokens[t].refresh == jwt.refresh ==>
      (t in s.db.tokens && s.db.tokens[t].refresh == jwt.refresh) || u.db.tokens[t].refreshExpires < now - retention
  {
    assert TokenRel(s, u, t, retention);
    if t in s.db.tokens && s.db.tokens[t].refresh == jwt.refresh {
      PriorRowIsOwn(s, jwt);
      assert Liveness.HasSession(s.db, s.db.tokens[t].access);
    }
  }

  lemma {:induction false} RefreshTokens(s: State, u: State, jwt: Jwt, checks: RefreshChecks, p: Pair, now: int,
                                         retention: int)
    requires Related(s, u, retention) && Inv(s) && jwt in s.signed && s.clock <= now
    requires jwt.session in s.db.sessions && s.db.sessions[jwt.session].deactivated.None?
    requires TokensInTime(u.db, jwt.refresh, checks, p, now, retention)
    ensures AnyRevoked(s.db.tokens, jwt.refresh) <==> AnyRevoked(u.db.tokens, jwt.refresh)
    ensures checks.user && !checks.mfa ==> (AnyToken(s.db.tokens, jwt.refresh) <==> AnyToken(u.db.tokens, jwt.refresh))
  {
    hide RowsRelated, LoginsRelated, TokenSecrets, PairSecrets, SessionSecrets, JwtSecrets, Links;
    if AnyRevoked(s.db.tokens, jwt.refresh) {
      var t :| t in s.db.tokens && s.db.tokens[t].refresh == jwt.refresh && s.db.tokens[t].revoked.Some?;
      RefreshToken(s, u, jwt, now, t, retention);
    }
    if AnyRevoked(u.db.tokens, jwt.refresh) {
      var t :| t in u.db.tokens && u.db.tokens[t].refresh == jwt.refresh && u.db.tokens[t].revoked.Some?;
      RefreshToken(s, u, jwt, now, t, retention);
    }
    if AnyToken(s.db.tokens, jwt.refresh) {
      var t :| t in s.db.tokens && s.db.tokens[t].refresh == jwt.refresh;
      RefreshToken(s, u, jwt, now, t, retention);
    }
    if AnyToken(u.db.tokens, jwt.refresh) {
      var t :| t in u.db.tokens && u.db.tokens[t].refresh == jwt.refresh;
      RefreshToken(s, u, jwt, now, t, retention);
    }
  }

  lemma {:induction false} RefreshAgrees(s: State, u: State, e: Event, retention: int)
    requires Related(s, u, retention) && Inv(s) && Inv(u) && Legal(s, e) && e.op.Refresh? && InTime(u, e, retention)
    ensures RefreshRejection(s.db, e.op.jwt, e.op.refreshChecks, e.now) ==
      RefreshRejection(u.db, e.op.jwt, e.op.refreshChecks, e.now)
  {
    var jwt := e.op.jwt;
    if e.now < jwt.expires {
      RefreshSession(s, u, e, retention);
      if jwt.session in s.db.sessions && s.db.sessions[jwt.session].deactivated.None? && e.op.refreshChecks.client {
        RefreshTokens(s, u, jwt, e.op.refreshChecks, e.op.pair, e.now, retention);
      }
    }
  }

  /** The scopes read on the two sides lead to the same answer and to the same rows, as far as
      they matter. */
  predicate SameUse(a: string, b: string, requested: string, p: Pair) {
    || a == b
    || if requested == "" then !p.Stored() else ScopeFits(requested, a) == ScopeFits(requested, b)
  }

  lemma {:induction false} RefreshScope(s: State, u: State, jwt: Jwt, checks: RefreshChecks, p: Pair, now: int,
                                        retention: int)
    requires Related(s, u, retention) && Inv(s) && Inv(u) && jwt in s.signed && s.clock <= now
    requires jwt.session in s.db.sessions && s.db.sessions[jwt.session].deactivated.None?
    requires TokensInTime(u.db, jwt.refresh, checks, p, now, retention) && checks.user && checks.rotated
    ensures SameUse(ScopeOf(s.db.tokens, jwt.refresh), ScopeOf(u.db.tokens, jwt.refresh), checks.scope, p)
  {
    PriorRowIsOwn(s, jwt);
    PriorRowIsOwn(u, jwt);
    if AnyToken(s.db.tokens, jwt.refresh) {
      var t :| t in s.db.tokens && s.db.tokens[t].refresh == jwt.refresh;
      RefreshToken(s, u, jwt, now, t, retention);
      ScopeOfRow(s.db.tokens, jwt.refresh, t);
      ScopeOfRow(u.db.tokens, jwt.refresh, t);
    } else if AnyToken(u.db.tokens, jwt.refresh) {
      var t :| t in u.db.tokens && u.db.tokens[t].refresh == jwt.refresh;
      RefreshToken(s, u, jwt, now, t, retention);
      ScopeOfRow(u.db.tokens, jwt.refresh, t);
      assert TokenIdle(u.db.tokens[t], checks, p);
    }
  }

  lemma {:induction false} BumpBoth(s: State, u: State, idp: Option<string>, now: int, retention: int)
    requires Related(s, u, retention)
    requires idp.Some? && ActiveIdp(u.db.idps, idp.value) ==> ActiveIdp(s.db.idps, idp.value)
    ensures Related(s.(db := Bumped(s.db, idp, now)), u.(db := Bumped(u.db, idp, now)), retention)
  {
    if idp.Some? {
      TouchBoth(s, u, idp.value, now, retention);
    }
  }

  lemma {:induction false} RotateBoth(s: State, u: State, refresh: string, idp: Option<string>, now: int,
          retention: int)
    requires Related(s, u, retention)
    requires idp.Some? && ActiveIdp(u.db.idps, idp.value) ==> ActiveIdp(s.db.idps, idp.value)
    ensures Related(s.(db := Rotated(s.db, refresh, idp, now)), u.(db := Rotated(u.db, refresh, idp, now)), retention)
  {
    var a, b := TokensByRefresh(s.db.tokens, refresh), TokensByRefresh(u.db.tokens, refresh);
    var s1, u1 := s.(db := Bumped(s.db, idp, now)), u.(db := Bumped(u.db, idp, now));
    BumpBoth(s, u, idp, now, retention);
    forall t | t in s.db.tokens ensures t in a <==> t in b {
      assert TokenRel(s, u, t, retention);
    }
    RevokeBoth(s1, u1, a, b, now, retention);
    assert s.(db := Rotated(s.db, refresh, idp, now)) == s1.(db := s1.db.(tokens := RevokeWhere(s1.db.tokens, a, now)));
    assert u.(db := Rotated(u.db, refresh, idp, now)) == u1.(db := u1.db.(tokens := RevokeWhere(u1.db.tokens, b, now)));
  }

  /** A refresh that goes through finds its login active on both sides or on none. */
  lemma {:induction false} RefreshLogin(s: State, u: State, e: Event, retention: int)
    requires Related(s, u, retention) && Legal(s, e) && e.op.Refresh? && InTime(u, e, retention)
    requires RefreshRejection(u.db, e.op.jwt, e.op.refreshChecks, e.now).None?
    ensures
      var idp := u.db.sessions[e.op.jwt.session].idp;
      idp.Some? && ActiveIdp(u.db.idps, idp.value) ==> ActiveIdp(s.db.idps, idp.value)
  {
    var idp := u.db.sessions[e.op.jwt.session].idp;
    if idp.Some? {
      assert LoginRel(s, u, idp.value);
    }
  }

  lemma {:induction false} ReplayBoth(s: State, u: State, user: string, now: int, retention: int)
    requires Related(s, u, retention)
    ensures Related(s.(db := s.db.(tokens := RevokeWhere(s.db.tokens, TokensOf(s.db.tokens, user, ""), now))),
                    u.(db := u.db.(tokens := RevokeWhere(u.db.tokens, TokensOf(u.db.tokens, user, ""), now))),
                        retention)
  {
    var a, b := TokensOf(s.db.tokens, user, ""), TokensOf(u.db.tokens, user, "");
    forall t | t in s.db.tokens ensures t in a <==> t in b {
      assert TokenRel(s, u, t, retention);
    }
    RevokeBoth(s, u, a, b, now, retention);
  }

  lemma {:induction false} RefreshRelates(s: State, u: State, e: Event, retention: int)
    requires Related(s, u, retention) && Inv(s) && Inv(u) && Legal(s, e) && e.op.Refresh? && InTime(u, e, retention)
    ensures Observe(s, e) == Observe(u, e)
    ensures Related(Step(s, e), Step(u, e), retention)
  {
    var s0, u0, jwt, checks, p, now := Noted(s, e), Noted(u, e), e.op.jwt, e.op.refreshChecks, e.op.pair, e.now;
    NotedRelated(s, u, e, retention);
    LegalWithoutTicks(s, u, e);
    RefreshAgrees(s, u, e, retention);
    StepFromNoted(s, e);
    StepFromNoted(u, e);
    var rejection := RefreshRejection(u.db, jwt, checks, now);
    if rejection == Some(Replayed) {
      RefreshSession(s, u, e, retention);
      ReplayBoth(s0, u0, u.db.sessions[jwt.session].user, now, retention);
    } else if rejection.None? {
      RefreshSession(s, u, e, retention);
      RefreshLogin(s, u, e, retention);
      if checks.rotated {
        RefreshScope(s, u, jwt, checks, p, now, retention);
        FreshIsUnused(s, e);
        FreshIsUnused(u, e);
        RefreshGranted(s0, u0, jwt, checks, p, now, retention);
      } else {
        BumpBoth(s0, u0, u.db.sessions[jwt.session].idp, now, retention);
      }
    }
  }

  /** A refresh that goes through, as its statements one after the other. */
  lemma {:induction false} GrantedEffect(db: Db, jwt: Jwt, checks: RefreshChecks, p: Pair, now: int)
    requires RefreshRejection(db, jwt, checks, now).None? && checks.rotated
    ensures
      var x, granted := db.sessions[jwt.session], ScopeOf(db.tokens, jwt.refresh);
      var prepared, rotated := PrepareRefresh(db, jwt, checks, now), Rotated(db, jwt.refresh, x.idp, now);
      var scope := EffectiveScope(checks.scope, granted);
      if ScopeFits(checks.scope, granted) then
        FinishAnswer(prepared, p) == IssueAnswer(true, scope, p)
        && Finish(prepared, p) == Issue(rotated, Some(x.user), x.idp, Grant.RefreshToken, scope, p)
      else FinishAnswer(prepared, p) == ScopeExceeded && Finish(prepared, p) == rotated
  {
  }

  lemma {:induction false} RefreshGranted(s: State, u: State, jwt: Jwt, checks: RefreshChecks, p: Pair, now: int,
          retention: int)
    requires Related(s, u, retention) && Unused(s.db, p) && Unused(u.db, p) && checks.rotated
    requires SameUse(ScopeOf(s.db.tokens, jwt.refresh), ScopeOf(u.db.tokens, jwt.refresh), checks.scope, p)
    requires RefreshRejection(s.db, jwt, checks, now).None? && RefreshRejection(u.db, jwt, checks, now).None?
    requires s.db.sessions[jwt.session].(deactivated := None) == u.db.sessions[jwt.session].(deactivated := None)
    requires
      var idp := u.db.sessions[jwt.session].idp;
      idp.Some? && ActiveIdp(u.db.idps, idp.value) ==> ActiveIdp(s.db.idps, idp.value)
    ensures FinishAnswer(PrepareRefresh(s.db, jwt, checks, now), p) ==
      FinishAnswer(PrepareRefresh(u.db, jwt, checks, now), p)
    ensures Related(s.(db := Finish(PrepareRefresh(s.db, jwt, checks, now), p)),
                    u.(db := Finish(PrepareRefresh(u.db, jwt, checks, now), p)), retention)
  {
    var a, b := ScopeOf(s.db.tokens, jwt.refresh), ScopeOf(u.db.tokens, jwt.refresh);
    var x := u.db.sessions[jwt.session];
    GrantedEffect(s.db, jwt, checks, p, now);
    GrantedEffect(u.db, jwt, checks, p, now);
    SameUseFits(a, b, checks.scope, p);
    RotateBoth(s, u, jwt.refresh, x.idp, now, retention);
    if ScopeFits(checks.scope, a) {
      IssueRotated(s, u, jwt.refresh, Some(x.user), x.idp, EffectiveScope(checks.scope, a),
                   EffectiveScope(checks.scope, b), p, now, retention);
    }
  }

  lemma {:induction false} SameUseFits(a: string, b: string, requested: string, p: Pair)
    requires SameUse(a, b, requested, p)
    ensures ScopeFits(requested, a) == ScopeFits(requested, b)
    ensures EffectiveScope(requested, a) == EffectiveScope(requested, b) || !p.Stored()
    ensures IssueAnswer(true, EffectiveScope(requested, a), p) == IssueAnswer(true, EffectiveScope(requested, b), p)
  {
  }

  lemma {:induction false} IssueRotated(s: State, u: State, refresh: string, user: Option<string>, idp: Option<string>,
          a: string, b: string, p: Pair, now: int, retention: int)
    requires Related(s.(db := Rotated(s.db, refresh, idp, now)), u.(db := Rotated(u.db, refresh, idp, now)), retention)
    requires Unused(s.db, p) && Unused(u.db, p) && (a == b || !p.Stored())
    ensures Related(s.(db := Issue(Rotated(s.db, refresh, idp, now), user, idp, Grant.RefreshToken, a, p)),
                    u.(db := Issue(Rotated(u.db, refresh, idp, now), user, idp, Grant.RefreshToken, b, p)), retention)
  {
    var s1, u1 := s.(db := Rotated(s.db, refresh, idp, now)), u.(db := Rotated(u.db, refresh, idp, now));
    RotationIsQuiet(s.db, refresh, idp, now);
    RotationIsQuiet(u.db, refresh, idp, now);
    QuietUnused(s.db, s1.db, p);
    QuietUnused(u.db, u1.db, p);
    IssueBoth(s1, u1, user, idp, Grant.RefreshToken, a, b, p, retention);
  }

  // ------------------------------------------------------------ the simulation

  lemma {:induction false} PairRelates(s: State, u: State, e: Event, retention: int)
    requires Related(s, u, retention) && Inv(s) && Inv(u) && Legal(s, e) && InTime(u, e, retention)
    requires e.op.Redeem? || e.op.IssueToUser? || e.op.IssueToClient?
    ensures Observe(s, e) == Observe(u, e)
    ensures Related(Step(s, e), Step(u, e), retention)
  {
    var s0, u0, p := Noted(s, e), Noted(u, e), e.op.pair;
    NotedRelated(s, u, e, retention);
    LegalWithoutTicks(s, u, e);
    NotedKeepsInv(s, e);
    NotedKeepsInv(u, e);
    FreshIsUnused(s, e);
    FreshIsUnused(u, e);
    StepFromNoted(s, e);
    StepFromNoted(u, e);
    match e.op
    case Redeem(code, checks, _) => RedeemRelates(s0, u0, code, checks, p, e.now, retention);
    case IssueToUser(user, scope, _) => IssueBoth(s0, u0, Some(user), None, OtherGrant, scope, scope, p, retention);
    case IssueToClient(scope, _) => IssueBoth(s0, u0, None, None, ClientCredentials, scope, scope, p, retention);
    case _ =>
  }

  predicate WritesOneTable(op: Op) {
    op.RevokeToken? || op.RevokeRow? || op.DeactivateSession? || op.DeactivateUserSessions? || op.DeleteClient?
  }

  /** The effect on one side's bookkept state. */
  ghost function Effect(st: State, op: Op, now: int): State {
    st.(db := Execute(st.cfg, st.db, now, op))
  }

  lemma {:induction false} TokenWriteRelates(s: State, u: State, op: Op, now: int, retention: int)
    requires Related(s, u, retention) && (op.RevokeToken? || op.RevokeRow?)
    ensures Related(Effect(s, op, now), Effect(u, op, now), retention)
  {
    if op.RevokeToken? {
      StampTokensBoth(s, u, op.value, now, retention);
    } else {
      RevokeBoth(s, u, {op.tokenId}, {op.tokenId}, now, retention);
    }
  }

  lemma {:induction false} SessionWriteRelates(s: State, u: State, op: Op, now: int, retention: int)
    requires Related(s, u, retention) && (op.DeactivateSession? || op.DeactivateUserSessions?)
    ensures Related(Effect(s, op, now), Effect(u, op, now), retention)
  {
    if op.DeactivateSession? {
      StampSessionBoth(s, u, op.sessionId, now, retention);
    } else {
      EndSessionsOf(s, u, op.user, "", now, retention);
    }
  }

  lemma {:induction false} ClientWriteRelates(s: State, u: State, op: Op, now: int, retention: int)
    requires Related(s, u, retention) && op.DeleteClient?
    ensures Related(Effect(s, op, now), Effect(u, op, now), retention)
  {
    NoteBoth(s, u, Effect(s, op, now), Effect(u, op, now), retention);
  }

  lemma {:induction false} OneTableRelates(s: State, u: State, e: Event, retention: int)
    requires Related(s, u, retention) && Inv(s) && Inv(u) && Legal(s, e) && WritesOneTable(e.op)
    ensures Related(Step(s, e), Step(u, e), retention)
  {
    NotedRelated(s, u, e, retention);
    StepFromNoted(s, e);
    StepFromNoted(u, e);
    if e.op.DeleteClient? {
      ClientWriteRelates(Noted(s, e), Noted(u, e), e.op, e.now, retention);
    } else if e.op.RevokeToken? || e.op.RevokeRow? {
      TokenWriteRelates(Noted(s, e), Noted(u, e), e.op, e.now, retention);
    } else {
      SessionWriteRelates(Noted(s, e), Noted(u, e), e.op, e.now, retention);
    }
  }

  /** `DeactivateSessionByID`. */
  function Stamped(db: Db, id: string, now: int): Db {
    if id in db.sessions then db.(sessions := db.sessions[id := db.sessions[id].(deactivated := Some(now))]) else db
  }

  lemma {:induction false} StampSessionBoth(s: State, u: State, id: string, now: int, retention: int)
    requires Related(s, u, retention)
    ensures Related(s.(db := Stamped(s.db, id, now)), u.(db := Stamped(u.db, id, now)), retention)
  {
    assert SessionRel(s, u, id, retention);
    EndSessionsBoth(s, u, Stamped(s.db, id, now).sessions, Stamped(u.db, id, now).sessions, retention);
  }

  lemma {:induction false} CascadeStepRelates(s: State, u: State, e: Event, retention: int)
    requires Related(s, u, retention) && Inv(s) && Inv(u) && Legal(s, e) && e.op.Cascade?
    ensures Related(Step(s, e), Step(u, e), retention)
  {
    hide Inv, RowsRelated, CascadeAll;
    NotedRelated(s, u, e, retention);
    EndingLogins(s, u, e);
    StepFromNoted(s, e);
    StepFromNoted(u, e);
    if !e.op.failed && e.op.login != "" {
      LegalWithoutTicks(s, u, e);
      NotedKeepsInv(s, e);
      NotedKeepsInv(u, e);
      CascadeRelates(Noted(s, e), Noted(u, e), e.op.login, e.now, retention);
    }
  }

  lemma {:induction false} HardDeleteStepRelates(s: State, u: State, e: Event, retention: int)
    requires Related(s, u, retention) && Inv(s) && Inv(u) && Legal(s, e) && e.op.HardDelete?
    ensures Related(Step(s, e), Step(u, e), retention)
  {
    hide RowsRelated, LoginsRelated, Inv, DeleteUser, Legal;
    NotedRelated(s, u, e, retention);
    LegalWithoutTicks(s, u, e);
    NotedKeepsInv(s, e);
    NotedKeepsInv(u, e);
    HardDeleteRelates(Noted(s, e), Noted(u, e), e.op.user, e.op.done, e.now, retention);
    StepFromNoted(s, e);
    StepFromNoted(u, e);
  }

  /** One step in time: the same answer, and the two sides stay related. */
  lemma {:induction false} StepKeepsRelated(s: State, u: State, e: Event, retention: int)
    requires Related(s, u, retention) && Inv(s) && Inv(u) && Legal(s, e) && InTime(u, e, retention)
    requires Compared(e.op, retention) && !e.op.Cleanup?
    ensures Observe(s, e) == Observe(u, e)
    ensures Related(Step(s, e), Step(u, e), retention)
  {
    if e.op.SignOn? {
      SignOnRelates(s, u, e, retention);
    } else if e.op.PostConsent? {
      PostRelates(s, u, e, retention);
    } else if e.op.Refresh? {
      RefreshRelates(s, u, e, retention);
    } else if e.op.Redeem? || e.op.IssueToUser? || e.op.IssueToClient? {
      PairRelates(s, u, e, retention);
    } else if e.op.Login? || e.op.LoginWithCode? {
      LoginRelates(s, u, e, retention);
    } else if WritesOneTable(e.op) {
      OneTableRelates(s, u, e, retention);
    } else if e.op.DeactivateLogin? || e.op.DeactivateUserLogins? {
      DeactivateRelates(s, u, e, retention);
    } else if e.op.Cascade? {
      CascadeStepRelates(s, u, e, retention);
    } else if e.op.RevokeUser? {
      RevokeUserRelates(s, u, e, retention);
    } else {
      HardDeleteStepRelates(s, u, e, retention);
    }
  }

  /** The simulation: a run with ticks anywhere answers every request as the same run
      without, if every step of the run without is in time. */
  lemma {:induction false} SweptRunAgrees(s: State, u: State, w: seq<Event>, retention: int)
    requires Related(s, u, retention) && Inv(s) && Inv(u)
    requires LegalRun(s, w) && ComparedRun(w, retention) && InTimeRun(u, Strip(w), retention)
    ensures Observations(s, w) == Observations(u, Strip(w))
    decreases |w|
  {
    hide Inv, LoginsRelated, RowsRelated, Observe;
    if w != [] {
      var e, rest := w[0], w[1..];
      assert forall i :: 0 <= i < |rest| ==> rest[i] == w[i + 1];
      StepKeepsInv(s, e);
      if e.op.Cleanup? {
        TickKeepsRelated(s, u, e, retention);
        assert Strip(w) == Strip(rest);
        SweptRunAgrees(Step(s, e), u, rest, retention);
      } else {
        LegalWithoutTicks(s, u, e);
        StepKeepsInv(u, e);
        assert Strip(w)[0] == e && Strip(w)[1..] == Strip(rest);
        StepKeepsRelated(s, u, e, retention);
        SweptRunAgrees(Step(s, e), Step(u, e), rest, retention);
      }
    }
  }

  /** The hint behind the login page can only turn from "has a session" to "has none" when
      the cleaner runs, never the other way. */
  lemma {:induction false} HintOnlyFades(s: State, u: State, r: AuthRequest, now: int, code: string)
    requires LoginsRelated(s, u) && AutoLoginAnswer(u.cfg, u.db, r, now, code) == Answer.Login(false)
    ensures AutoLoginAnswer(s.cfg, s.db, r, now, code) == Answer.Login(false)
  {
    assert LoginRel(s, u, r.cookie);
  }

  // ----------------------------------------------------------- auto-login alone

  lemma {:induction false} TickLogins(s: State, u: State, retention: int, idleDone: set<string>, agedDone: set<string>,
                                      skipped: set<Swept>)
    requires LoginsRelated(s, u)
    ensures LoginsRelated(s.(db := CleanupRun(s.db, s.cfg, s.clock, retention, idleDone, agedDone, skipped)), u)
  {
    var db1 := IdleSwept(s.db, s.cfg, s.clock, idleDone);
    var db2 := AgedSwept(db1, s.cfg, s.clock, agedDone);
    if s.cfg.idle > 0 {
      SweepLogins(s, u, IdleIds(s.db.idps, s.clock - s.cfg.idle) * idleDone);
    }
    var s1 := s.(db := db1);
    if s.cfg.maxAge > 0 {
      SweepLogins(s1, u, AgedIds(db1.idps, s.clock - s.cfg.maxAge) * agedDone);
    }
    DeletionsKeepLogins(s1.(db := db2), u, skipped, s.clock - retention);
  }

  lemma {:induction false} DeletionsKeepLogins(s: State, u: State, skipped: set<Swept>, threshold: int)
    requires LoginsRelated(s, u)
    ensures LoginsRelated(s.(db := DeleteAll(s.db, TRANSIENT_TABLES, skipped, threshold)), u)
  {
    CodeLaws.DeletedIdps(s.db, TRANSIENT_TABLES, skipped, threshold);
    CodeLaws.DeletedCodes(s.db, TRANSIENT_TABLES, skipped, threshold);
    forall i ensures LoginRel(s.(db := DeleteAll(s.db, TRANSIENT_TABLES, skipped, threshold)), u, i) {
      assert LoginRel(s, u, i);
    }
  }

  lemma {:induction false} TickKeepsLogins(s: State, u: State, e: Event)
    requires LoginsRelated(s, u) && Legal(s, e) && e.op.Cleanup?
    ensures LoginsRelated(Step(s, e), u)
  {
    LoginsLater(s, u, e.now, u.clock);
    TickLogins(s.(clock := e.now), u, e.op.retention, e.op.idleDone, e.op.agedDone, e.op.skipped);
    TickStep(s, e);
  }

  ghost function AutoLogins(st: State, es: seq<Event>): seq<Answered>
    decreases |es|
  {
    if es == [] then []
    else (if es[0].op.SignOn? then [Observe(st, es[0])] else []) + AutoLogins(Step(st, es[0]), es[1..])
  }

  /** Without any guard: in a run of logins, auto-logins, terminations of every kind and
      token requests other than refreshes, no auto-login is answered differently because of
      the cleaner, with whatever retention it runs. What is left out can keep a login going
      that a sweep could have ended, or grant a consent by it. */
  lemma {:induction false} CleanerInvisibleToAutoLogin(s: State, u: State, w: seq<Event>)
    requires LoginsRelated(s, u) && Inv(s) && Inv(u) && LegalRun(s, w)
    requires forall i :: 0 <= i < |w| ==> w[i].op.Cleanup? || LoginsOnly(w[i].op)
    ensures AutoLogins(s, w) == AutoLogins(u, Strip(w))
    decreases |w|
  {
    if w != [] {
      var e, rest := w[0], w[1..];
      assert forall i :: 0 <= i < |rest| ==> rest[i] == w[i + 1];
      StepKeepsInv(s, e);
      if e.op.Cleanup? {
        TickKeepsLogins(s, u, e);
        assert Strip(w) == Strip(rest);
        CleanerInvisibleToAutoLogin(Step(s, e), u, rest);
      } else {
        LegalWithoutTicks(s, u, e);
        StepKeepsInv(u, e);
        assert Strip(w)[0] == e && Strip(w)[1..] == Strip(rest);
        StepKeepsLogins(s, u, e);
        CleanerInvisibleToAutoLogin(Step(s, e), Step(u, e), rest);
      }
    }
  }
}
