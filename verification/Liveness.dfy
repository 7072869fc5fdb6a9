/** The two readers that decide whether a token is alive, introspection (sections 2.2 and 4
    of RFC 7662) and the bearer check, and what no run of the server can undo. */
module Liveness {
  import opened Common
  import opened Tables
  import opened ServerRuns
  import CascadeLaws
  import CodeLaws

  /** `SessionByAccessToken`: the active session row of an access token. */
  ghost predicate HasSession(db: Db, access: string) {
    exists s :: s in db.sessions && db.sessions[s].access == access && db.sessions[s].deactivated.None?
  }

  ghost predicate Matches(db: Db, t: string, v: string) {
    t in db.tokens && (db.tokens[t].access == v || db.tokens[t].refresh == v)
  }

  /** `IntrospectToken` and the session check of `HandleIntrospect`: some row that the
      lookup by access or refresh token may return is unrevoked, unexpired and, unless it
      is a client's own, has an active session. The client and user checks that follow can
      only reject more. */
  ghost predicate Introspects(db: Db, v: string, now: int) {
    exists t :: Active(db, t, v, now)
  }

  ghost predicate Active(db: Db, t: string, v: string, now: int) {
    && Matches(db, t, v) && db.tokens[t].revoked.None? && now <= db.tokens[t].accessExpires
    && (db.tokens[t].grant == ClientCredentials || HasSession(db, db.tokens[t].access))
  }

  /** The database part of `ValidateBearer`. */
  ghost predicate BearerAccepts(db: Db, access: string) {
    HasSession(db, access) && exists t :: t in db.tokens && db.tokens[t].access == access && db.tokens[t].revoked.None?
  }

  /** In every reachable state, introspection and the bearer check give the same verdict on
      an unexpired access token that was issued to a user. */
  lemma {:induction false} ReadersAgree(st: State, t: string, now: int)
    requires Inv(st) && t in st.db.tokens && st.db.tokens[t].grant != ClientCredentials
    requires now <= st.db.tokens[t].accessExpires
    ensures Introspects(st.db, st.db.tokens[t].access, now) <==> BearerAccepts(st.db, st.db.tokens[t].access)
  {
    var v := st.db.tokens[t].access;
    if BearerAccepts(st.db, v) {
      assert Active(st.db, t, v, now);
    }
    if Introspects(st.db, v, now) {
      var u :| Active(st.db, u, v, now);
      assert u == t;
    }
  }

  // -------------------------------------------------------------- one step

  lemma {:induction false} QuietHadSession(a: Db, b: Db, access: string)
    requires Quiet(a, b) && HasSession(b, access)
    ensures HasSession(a, access)
  {
  }

  /** What a quiet step leaves active was active before. */
  lemma {:induction false} QuietBackwards(a: Db, b: Db, v: string, now: int, later: int)
    requires Quiet(a, b) && now <= later
    ensures Introspects(b, v, later) ==> Introspects(a, v, now)
    ensures BearerAccepts(b, v) ==> BearerAccepts(a, v)
  {
    if Introspects(b, v, later) {
      var t :| Active(b, t, v, later);
      if b.tokens[t].grant != ClientCredentials {
        QuietHadSession(a, b, b.tokens[t].access);
      }
      assert Active(a, t, v, now);
    }
    if BearerAccepts(b, v) {
      var t :| t in b.tokens && b.tokens[t].access == v && b.tokens[t].revoked.None?;
      QuietHadSession(a, b, v);
      assert a.tokens[t].access == v && a.tokens[t].revoked.None?;
    }
  }

  /** The secrets of the pair are new: neither is `v`, and no row holds its access token. */
  ghost predicate NewPair(db: Db, p: Pair, v: string) {
    && p.access != v && p.refresh != v && v != ""
    && (forall t :: t in db.tokens ==> db.tokens[t].access != p.access)
    && (forall s :: s in db.sessions ==> db.sessions[s].access != p.access)
  }

  lemma {:induction false} NewIsNew(st: State, p: Pair, v: string)
    requires Inv(st) && v in st.seen && PairIds(p) !! st.seen
    ensures NewPair(st.db, p, v)
  {
    PairMembers(st, p);
    forall t | t in st.db.tokens ensures st.db.tokens[t].access != p.access {
      assert TokenSecret(st.db.tokens[t], st.seen);
    }
  }

  lemma {:induction false} IssueHadSession(db: Db, user: Option<string>, idp: Option<string>, grant: Grant,
          scope: string, p: Pair,
          access: string)
    requires access != p.access && HasSession(Issue(db, user, idp, grant, scope, p), access)
    ensures HasSession(db, access)
  {
  }

  /** A freshly issued pair revives no older token. */
  lemma {:induction false} IssueBackwards(db: Db, user: Option<string>, idp: Option<string>, grant: Grant,
          scope: string, p: Pair,
                       v: string, now: int, later: int)
    requires NewPair(db, p, v) && now <= later
    ensures Introspects(Issue(db, user, idp, grant, scope, p), v, later) ==> Introspects(db, v, now)
    ensures BearerAccepts(Issue(db, user, idp, grant, scope, p), v) ==> BearerAccepts(db, v)
  {
    var after := Issue(db, user, idp, grant, scope, p);
    assert p.generated && p.tokenStored ==> after.tokens == db.tokens[p.tokenId := after.tokens[p.tokenId]];
    if Introspects(after, v, later) {
      var t :| Active(after, t, v, later);
      assert t in db.tokens && after.tokens[t] == db.tokens[t];
      if db.tokens[t].grant != ClientCredentials {
        IssueHadSession(db, user, idp, grant, scope, p, db.tokens[t].access);
      }
      assert Active(db, t, v, now);
    }
    if BearerAccepts(after, v) {
      var t :| t in after.tokens && after.tokens[t].access == v && after.tokens[t].revoked.None?;
      assert t in db.tokens && after.tokens[t] == db.tokens[t];
      IssueHadSession(db, user, idp, grant, scope, p, v);
    }
  }

  lemma {:induction false} FinishBackwards(st: State, prepared: Prepared, p: Pair, v: string, now: int, later: int)
    requires Inv(st) && v in st.seen && PairIds(p) !! st.seen && now <= later
    requires Quiet(st.db, prepared.db)
    ensures Introspects(Finish(prepared, p), v, later) ==> Introspects(st.db, v, now)
    ensures BearerAccepts(Finish(prepared, p), v) ==> BearerAccepts(st.db, v)
  {
    QuietBackwards(st.db, prepared.db, v, now, now);
    QuietBackwards(st.db, prepared.db, v, now, later);
    if prepared.Ready? {
      QuietKeepsInv(st, prepared.db);
      NewIsNew(st.(db := prepared.db), p, v);
      IssueBackwards(prepared.db, Some(prepared.user), prepared.idp, prepared.grant, prepared.scope, p, v, now, later);
    }
  }

  lemma {:induction false} SameTables(a: Db, b: Db, v: string, now: int, later: int)
    requires b.tokens == a.tokens && b.sessions == a.sessions && now <= later
    ensures Introspects(b, v, later) ==> Introspects(a, v, now)
    ensures BearerAccepts(b, v) ==> BearerAccepts(a, v)
  {
    QuietBackwards(a, b.(idps := a.idps, codes := a.codes), v, now, later);
    if Introspects(b, v, later) {
      var t :| Active(b, t, v, later);
      assert Active(b.(idps := a.idps, codes := a.codes), t, v, later) by {
        if s :| s in b.sessions && b.sessions[s].access == b.tokens[t].access && b.sessions[s].deactivated.None? {
          assert HasSession(b.(idps := a.idps, codes := a.codes), b.tokens[t].access);
        }
      }
    }
  }

  lemma {:induction false} StepBackwards(st: State, e: Event, v: string, now: int, later: int)
    requires Inv(st) && Legal(st, e) && v in st.seen && now <= later
    ensures Introspects(Step(st, e).db, v, later) ==> Introspects(st.db, v, now)
    ensures BearerAccepts(Step(st, e).db, v) ==> BearerAccepts(st.db, v)
  {
    hide Inv, Introspects, BearerAccepts;
    match e.op
    case Redeem(code, checks, p) =>
      RedeemIsQuiet(st.db, code, checks, e.now);
      FinishBackwards(st, PrepareRedeem(st.db, code, checks, e.now), p, v, now, later);
    case Refresh(jwt, checks, p) =>
      RefreshIsQuiet(st.db, jwt, checks, e.now);
      FinishBackwards(st, PrepareRefresh(st.db, jwt, checks, e.now), p, v, now, later);
    case IssueToUser(user, scope, p) =>
      NewIsNew(st, p, v);
      IssueBackwards(st.db, Some(user), None, OtherGrant, scope, p, v, now, later);
    case IssueToClient(scope, p) =>
      NewIsNew(st, p, v);
      IssueBackwards(st.db, None, None, ClientCredentials, scope, p, v, now, later);
    case _ =>
      if e.op.Login? || e.op.LoginWithCode? || e.op.SignOn? || e.op.PostConsent? {
        LoginStepsAside(st.cfg, st.db, e.now, e.op);
        SameTables(st.db, Step(st, e).db, v, now, later);
      } else {
        QuietStep(st.cfg, st.db, e.now, e.op);
        QuietBackwards(st.db, Step(st, e).db, v, now, later);
      }
  }

  // ------------------------------------------------------------------ whole runs

  /** Dead stays dead. Once introspection or the bearer check rejects a token that has been
      issued, whether it is revoked, expired or gone, or its session deactivated or gone, no
      run of the server makes the same reader accept it again: no bump, sweep, cascade or
      deletion in whatever table and order, no fresh tokens, no replay, no new login. */
  lemma {:induction false} DeadStaysDead(st: State, es: seq<Event>, v: string, now: int, later: int)
    requires Inv(st) && LegalRun(st, es) && v in st.seen && now <= later
    ensures !Introspects(st.db, v, now) ==> !Introspects(Run(st, es).db, v, later)
    ensures !BearerAccepts(st.db, v) ==> !BearerAccepts(Run(st, es).db, v)
    decreases |es|
  {
    if es == [] {
      QuietBackwards(st.db, st.db, v, now, later);
    } else {
      StepBackwards(st, es[0], v, now, now);
      StepKeepsInv(st, es[0]);
      DeadStaysDead(Step(st, es[0]), es[1..], v, now, later);
    }
  }

  // ---------------------------------------------------------- after a cascade

  /** The tokens that exist when a login is killed are dead for good: whatever runs after the
      cascade, no reader accepts an access token that one of the login's sessions named. */
  lemma {:induction false} CascadeIsForever(st: State, es: seq<Event>, login: string, session: string, at: int)
    requires Inv(st) && st.clock <= at && login != ""
    requires session in st.db.sessions && st.db.sessions[session].idp == Some(login)
    requires LegalRun(Step(st, Event(at, Cascade(login, false))), es)
    ensures
      var v, end := st.db.sessions[session].access, Run(Step(st, Event(at, Cascade(login, false))), es);
      !BearerAccepts(end.db, v) && !Introspects(end.db, v, end.clock)
  {
    hide Links, PairSecrets, TokenSecrets, JwtSecrets, BearerAccepts, Introspects;
    var kill := Event(at, Cascade(login, false));
    var st' := Step(st, kill);
    var v := st.db.sessions[session].access;
    StepKeepsInv(st, kill);
    CascadeLaws.CascadeKills(st.db, {login}, login, at);
    assert session in st'.db.sessions && st'.db.sessions[session].deactivated.Some?;
    DeadSession(st', session, at);
    DeadStaysDead(st', es, v, at, at);
    ClockAdvances(st', es);
    DeadStaysDead(st', es, v, at, Run(st', es).clock);
  }

  /** A deactivated session takes its access token with it, for both readers. */
  lemma {:induction false} DeadSession(st: State, x: string, now: int)
    requires Inv(st) && x in st.db.sessions && st.db.sessions[x].deactivated.Some?
    ensures !BearerAccepts(st.db, st.db.sessions[x].access) && !Introspects(st.db, st.db.sessions[x].access, now)
  {
    var v := st.db.sessions[x].access;
    assert !HasSession(st.db, v);
    forall t ensures !Active(st.db, t, v, now) {
      if t in st.db.tokens {
        assert Paired(st.db.tokens[t], st.db.sessions[x]);
        assert TokenSecret(st.db.tokens[t], st.seen);
      }
    }
  }

  ghost predicate LiveSession(db: Db, login: string) {
    exists x :: x in db.sessions && db.sessions[x].idp == Some(login) && db.sessions[x].deactivated.None?
  }

  /** An authorization code of the login that can still be redeemed at `at`. */
  ghost predicate Outstanding(db: Db, login: string, at: int) {
    exists c :: c in db.codes && db.codes[c].idp == Some(login) && !db.codes[c].used && at <= db.codes[c].expires
  }

  /** The login is over and nothing can come of it any more. */
  ghost predicate Extinct(st: State, login: string) {
    && login != "" && login in st.seen
    && !ActiveIdp(st.db.idps, login) && !LiveSession(st.db, login) && !Outstanding(st.db, login, st.clock)
  }

  lemma {:induction false} IssueExtinct(db: Db, user: Option<string>, idp: Option<string>, grant: Grant,
          scope: string, p: Pair,
          login: string)
    requires idp != Some(login)
    ensures LiveSession(Issue(db, user, idp, grant, scope, p), login) ==> LiveSession(db, login)
  {
    var after := Issue(db, user, idp, grant, scope, p);
    if LiveSession(after, login) {
      var x :| x in after.sessions && after.sessions[x].idp == Some(login) && after.sessions[x].deactivated.None?;
      assert x in db.sessions && db.sessions[x] == after.sessions[x];
    }
  }

  /** No step activates a login that was generated before. */
  lemma {:induction false} EndedStaysEnded(st: State, e: Event, login: string)
    requires Inv(st) && Legal(st, e) && login in st.seen && !ActiveIdp(st.db.idps, login)
    ensures !ActiveIdp(Step(st, e).db.idps, login)
  {
    if e.op.Cleanup? {
      CodeLaws.CleanupEndsLogins(st.db, st.cfg, e.now, e.op.retention, e.op.idleDone, e.op.agedDone, e.op.skipped,
                                 login);
    } else {
      CodeLaws.LoginsAfter(st.cfg, st.db, e.now, e.op, login);
    }
  }

  lemma {:induction false} SignOnNamesActive(st: State, e: Event, login: string, c: string)
    requires e.op.SignOn? && !ActiveIdp(st.db.idps, login) && login != ""
    requires c in Step(st, e).db.codes && c !in st.db.codes
    ensures Step(st, e).db.codes[c].idp != Some(login)
  {
    var answer := AutoLoginAnswer(st.cfg, st.db, e.op.r, e.now, e.op.code);
    assert Step(st, e).db.codes != st.db.codes ==> answer.Issued?;
  }

  lemma {:induction false} PostNamesActive(st: State, e: Event, login: string, c: string)
    requires e.op.PostConsent? && !ActiveIdp(st.db.idps, login) && login != ""
    requires c in Step(st, e).db.codes && c !in st.db.codes
    ensures Step(st, e).db.codes[c].idp != Some(login)
  {
  }

  lemma {:induction false} LoginNamesNew(st: State, e: Event, login: string, c: string)
    requires e.op.LoginWithCode? && Legal(st, e) && login in st.seen && login != ""
    requires c in Step(st, e).db.codes && c !in st.db.codes
    ensures Step(st, e).db.codes[c].idp != Some(login)
  {
    assert e.op.login != "" ==> e.op.login in NewIds(e.op);
  }

  /** Codes that name the login are only added by steps that find it active. */
  lemma {:induction false} NewCodesNameActive(st: State, e: Event, login: string, c: string)
    requires Inv(st) && Legal(st, e) && login != "" && login in st.seen && !ActiveIdp(st.db.idps, login)
    requires c in Step(st, e).db.codes && Step(st, e).db.codes[c].idp == Some(login)
    ensures c in st.db.codes && CodeLaws.SameOrUsed(st.db.codes[c], Step(st, e).db.codes[c])
  {
    if c !in st.db.codes {
      if e.op.SignOn? {
        SignOnNamesActive(st, e, login, c);
      } else if e.op.PostConsent? {
        PostNamesActive(st, e, login, c);
      } else if e.op.LoginWithCode? {
        LoginNamesNew(st, e, login, c);
      } else {
        CodeLaws.NoNewCodes(st, e, c);
      }
    } else {
      CodeLaws.StepMovesCodesOn(st, e, c);
    }
  }

  lemma {:induction false} StepKeepsExtinct(st: State, e: Event, login: string)
    requires Inv(st) && Legal(st, e) && Extinct(st, login)
    ensures Extinct(Step(st, e), login)
  {
    var st' := Step(st, e);
    EndedStaysEnded(st, e, login);
    forall c | c in st'.db.codes && st'.db.codes[c].idp == Some(login)
      ensures st'.db.codes[c].used || st'.db.codes[c].expires < e.now
    {
      NewCodesNameActive(st, e, login, c);
    }
    NoLiveSession(st, e, login);
  }

  lemma {:induction false} NoLiveSession(st: State, e: Event, login: string)
    requires Inv(st) && Legal(st, e) && Extinct(st, login)
    ensures !LiveSession(Step(st, e).db, login)
  {
    if e.op.Redeem? {
      RedeemLeavesExtinct(st, e, login);
    } else if e.op.Refresh? {
      RefreshLeavesExtinct(st, e, login);
    } else if e.op.IssueToUser? {
      IssueExtinct(st.db, Some(e.op.user), None, OtherGrant, e.op.scope, e.op.pair, login);
    } else if e.op.IssueToClient? {
      IssueExtinct(st.db, None, None, ClientCredentials, e.op.scope, e.op.pair, login);
    } else if e.op.Login? || e.op.LoginWithCode? || e.op.SignOn? || e.op.PostConsent? {
      LoginStepsAside(st.cfg, st.db, e.now, e.op);
      SameSessions(st.db, Step(st, e).db, login);
    } else {
      QuietStep(st.cfg, st.db, e.now, e.op);
      QuietLive(st.db, Step(st, e).db, login);
    }
  }

  lemma {:induction false} SameSessions(a: Db, b: Db, login: string)
    requires b.sessions == a.sessions
    ensures LiveSession(b, login) <==> LiveSession(a, login)
  {
  }

  lemma {:induction false} RedeemLeavesExtinct(st: State, e: Event, login: string)
    requires Inv(st) && Legal(st, e) && Extinct(st, login) && e.op.Redeem?
    ensures !LiveSession(Step(st, e).db, login)
  {
    var code := e.op.code;
    var prepared := PrepareRedeem(st.db, code, e.op.redeemChecks, e.now);
    RedeemIsQuiet(st.db, code, e.op.redeemChecks, e.now);
    QuietLive(st.db, prepared.db, login);
    if prepared.Ready? {
      assert code in st.db.codes && !st.db.codes[code].used && st.clock <= st.db.codes[code].expires;
      IssueExtinct(prepared.db, Some(prepared.user), prepared.idp, prepared.grant, prepared.scope, e.op.pair, login);
    }
  }

  lemma {:induction false} RefreshLeavesExtinct(st: State, e: Event, login: string)
    requires Inv(st) && Legal(st, e) && Extinct(st, login) && e.op.Refresh?
    ensures !LiveSession(Step(st, e).db, login)
  {
    hide Inv, Quiet, Legal;
    var jwt := e.op.jwt;
    var prepared := PrepareRefresh(st.db, jwt, e.op.refreshChecks, e.now);
    RefreshIsQuiet(st.db, jwt, e.op.refreshChecks, e.now);
    QuietLive(st.db, prepared.db, login);
    if prepared.Ready? {
      assert st.db.sessions[jwt.session].deactivated.None? && prepared.idp == st.db.sessions[jwt.session].idp;
      IssueExtinct(prepared.db, Some(prepared.user), prepared.idp, prepared.grant, prepared.scope, e.op.pair, login);
    }
  }

  lemma {:induction false} QuietLive(a: Db, b: Db, login: string)
    requires Quiet(a, b)
    ensures LiveSession(b, login) ==> LiveSession(a, login)
  {
    if LiveSession(b, login) {
      var x :| x in b.sessions && b.sessions[x].idp == Some(login) && b.sessions[x].deactivated.None?;
      assert x in a.sessions && a.sessions[x].deactivated.None?;
    }
  }

  lemma {:induction false} ExtinctStaysExtinct(st: State, es: seq<Event>, login: string)
    requires Inv(st) && LegalRun(st, es) && Extinct(st, login)
    ensures Extinct(Run(st, es), login)
    decreases |es|
  {
    if es != [] {
      StepKeepsExtinct(st, es[0], login);
      StepKeepsInv(st, es[0]);
      ExtinctStaysExtinct(Step(st, es[0]), es[1..], login);
    }
  }

  const ALL_CHECKS := RedeemChecks(true, true, true, true, true)

  /** Redeeming an outstanding code of a login that has been killed: the server issues a
      pair that both readers accept, for a session of the dead login. */
  lemma {:induction false} OutstandingCodeRevives(st: State, login: string, c: string, at: int, p: Pair)
    requires Inv(st) && st.clock <= at && login != "" && NewPairFor(st, p) && p.Stored()
    requires c in st.db.codes && st.db.codes[c].idp == Some(login) && !st.db.codes[c].used &&
      at <= st.db.codes[c].expires
    ensures
      var st' := Step(st, Event(at, Cascade(login, false)));
      var es := [Event(at, Redeem(c, ALL_CHECKS, p))];
      var end := Run(st', es);
      && LegalRun(st', es) && !ActiveIdp(end.db.idps, login) && LiveSession(end.db, login)
      && BearerAccepts(end.db, p.access) && (at <= p.accessExpires ==> Introspects(end.db, p.access, at))
  {
    var st' := Step(st, Event(at, Cascade(login, false)));
    CascadeStep(st, login, at);
    RedeemRun(st', c, at, p);
    RedeemedPair(st'.db, login, c, at, p);
    assert !ActiveIdp(st'.db.idps, login);
  }

  lemma {:induction false} CascadeStep(st: State, login: string, at: int)
    requires login != ""
    ensures Step(st, Event(at, Cascade(login, false))) == st.(clock := at, db := CascadeAll(st.db, {login}, at))
  {
  }

  lemma {:induction false} RedeemRun(st: State, c: string, at: int, p: Pair)
    requires NewPairFor(st, p) && st.clock <= at
    ensures
      var es := [Event(at, Redeem(c, ALL_CHECKS, p))];
      LegalRun(st, es) && Run(st, es).db == Finish(PrepareRedeem(st.db, c, ALL_CHECKS, at), p)
  {
    var redeem := Event(at, Redeem(c, ALL_CHECKS, p));
    RunCons(st, redeem, []);
    assert [redeem] + [] == [redeem];
  }

  lemma {:induction false} RedeemedPair(db: Db, login: string, c: string, at: int, p: Pair)
    requires c in db.codes && db.codes[c].idp == Some(login) && !db.codes[c].used && at <= db.codes[c].expires
    requires p.Stored()
    ensures
      var after := Finish(PrepareRedeem(db, c, ALL_CHECKS, at), p);
      && after.idps == db.idps && LiveSession(after, login)
      && BearerAccepts(after, p.access) && (at <= p.accessExpires ==> Introspects(after, p.access, at))
  {
    var after := Finish(PrepareRedeem(db, c, ALL_CHECKS, at), p);
    assert after.sessions[p.sessionId].idp == Some(login) && after.sessions[p.sessionId].access == p.access;
    assert after.tokens[p.tokenId].access == p.access;
    assert HasSession(after, p.access);
    assert at <= p.accessExpires ==> Active(after, p.tokenId, p.access, at);
  }

  /** Exactly when killing a login is final: no run after the cascade ever has a live session
      of the login if and only if the tables hold no unused, unexpired code that names it.
      The cascade does not touch the codes, and redeeming one does not look at the login. */
  lemma {:induction false} CascadeIsFinalIff(st: State, login: string, at: int)
    requires Inv(st) && st.clock <= at && login != "" && login in st.seen
    ensures
      var st' := Step(st, Event(at, Cascade(login, false)));
      !Outstanding(st.db, login, at) <==> forall es :: LegalRun(st', es) ==> !LiveSession(Run(st', es).db, login)
  {
    hide Inv, BearerAccepts, Introspects;
    var kill := Event(at, Cascade(login, false));
    var st' := Step(st, kill);
    StepKeepsInv(st, kill);
    if Outstanding(st.db, login, at) {
      var c :| c in st.db.codes && st.db.codes[c].idp == Some(login) && !st.db.codes[c].used &&
          at <= st.db.codes[c].expires;
      var p := FreshPair(st.seen);
      OutstandingCodeRevives(st, login, c, at, p);
      var es := [Event(at, Redeem(c, ALL_CHECKS, p))];
      assert LegalRun(st', es) && LiveSession(Run(st', es).db, login);
    } else {
      CascadeLaws.CascadeKills(st.db, {login}, login, at);
      assert Extinct(st', login);
      forall es | LegalRun(st', es) ensures !LiveSession(Run(st', es).db, login) {
        ExtinctStaysExtinct(st', es, login);
      }
    }
  }

  /** So from then on every access token of the login's sessions, of whatever age, is dead. */
  lemma {:induction false} FinalCascadeSilences(st: State, es: seq<Event>, login: string, at: int, x: string)
    requires Inv(st) && st.clock <= at && login != "" && login in st.seen && !Outstanding(st.db, login, at)
    requires LegalRun(Step(st, Event(at, Cascade(login, false))), es)
    requires x in Run(Step(st, Event(at, Cascade(login, false))), es).db.sessions
    requires Run(Step(st, Event(at, Cascade(login, false))), es).db.sessions[x].idp == Some(login)
    ensures
      var end := Run(Step(st, Event(at, Cascade(login, false))), es);
      !BearerAccepts(end.db, end.db.sessions[x].access) && !Introspects(end.db, end.db.sessions[x].access, end.clock)
  {
    var kill := Event(at, Cascade(login, false));
    var end := Run(Step(st, kill), es);
    CascadeIsFinalIff(st, login, at);
    StepKeepsInv(st, kill);
    ReachableInv(Step(st, kill), es);
    assert !LiveSession(end.db, login);
    DeadSession(end, x, end.clock);
  }
}
