/** Refreshing never widens a grant, over whole runs of the server (section 6 of RFC 6749). */
module ScopeLaws {
  import opened Common
  import opened Tables
  import opened ServerRuns
  import Scopes

  /** Users and the scopes granted to them other than by a refresh. */
  type Grants = set<(string, string)>

  /** The scope is empty or lies within one grant of the user. */
  ghost predicate Within(scope: string, user: string, grants: Grants) {
    || Scopes.ScopeSet(scope) == {}
    || exists g :: g in grants && g.0 == user && Scopes.ScopeSet(scope) <= Scopes.ScopeSet(g.1)
  }

  ghost predicate Covered(tokens: map<string, Token>, grants: Grants) {
    forall t :: t in tokens && tokens[t].user.Some? ==> Within(tokens[t].scope, tokens[t].user.value, grants)
  }

  /** What a step grants by redeeming a code, by a password or by a device code. */
  ghost function NewGrants(st: State, e: Event): Grants {
    match e.op
    case Redeem(code, checks, _) =>
      var prepared := PrepareRedeem(st.db, code, checks, e.now);
      if prepared.Ready? then {(prepared.user, prepared.scope)} else {}
    case IssueToUser(user, scope, _) => {(user, scope)}
    case _ => {}
  }

  ghost function GrantsOf(st: State, es: seq<Event>): Grants
    decreases |es|
  {
    if es == [] then {} else NewGrants(st, es[0]) + GrantsOf(Step(st, es[0]), es[1..])
  }

  lemma {:induction false} MoreGrants(tokens: map<string, Token>, grants: Grants, more: Grants)
    requires Covered(tokens, grants) && grants <= more
    ensures Covered(tokens, more)
  {
    forall t | t in tokens && tokens[t].user.Some? ensures Within(tokens[t].scope, tokens[t].user.value, more) {
      assert Within(tokens[t].scope, tokens[t].user.value, grants);
    }
  }

  lemma {:induction false} QuietCovered(a: Db, b: Db, grants: Grants)
    requires Covered(a.tokens, grants) && Quiet(a, b)
    ensures Covered(b.tokens, grants)
  {
    forall t | t in b.tokens && b.tokens[t].user.Some?
      ensures Within(b.tokens[t].scope, b.tokens[t].user.value, grants)
    {
      assert b.tokens[t].scope == a.tokens[t].scope && b.tokens[t].user == a.tokens[t].user;
    }
  }

  lemma {:induction false} IssueCovered(db: Db, user: Option<string>, idp: Option<string>, grant: Grant, scope: string,
                                        p: Pair, grants: Grants)
    requires Covered(db.tokens, grants) && (user.Some? ==> Within(scope, user.value, grants))
    ensures Covered(Issue(db, user, idp, grant, scope, p).tokens, grants)
  {
  }

  lemma {:induction false} FinishCovered(db: Db, prepared: Prepared, p: Pair, grants: Grants)
    requires Covered(db.tokens, grants) && Quiet(db, prepared.db)
    requires prepared.Ready? ==> Within(prepared.scope, prepared.user, grants)
    ensures Covered(Finish(prepared, p).tokens, grants)
  {
    QuietCovered(db, prepared.db, grants);
    if prepared.Ready? {
      IssueCovered(prepared.db, Some(prepared.user), prepared.idp, prepared.grant, prepared.scope, p, grants);
    }
  }

  /** A refresh issues no scope beyond that of the token row it came with; without the row,
      none at all. */
  lemma {:induction false} RefreshNarrows(db: Db, jwt: Jwt, checks: RefreshChecks, now: int)
    ensures
      var prepared := PrepareRefresh(db, jwt, checks, now);
      prepared.Ready? ==>
        Scopes.ScopeSet(prepared.scope) <= Scopes.ScopeSet(ScopeOf(db.tokens, jwt.refresh))
        && prepared.user == db.sessions[jwt.session].user
  {
    hide RefreshRejection, ScopeOf;
  }

  lemma {:induction false} RowWithin(st: State, jwt: Jwt, grants: Grants)
    requires Inv(st) && jwt in st.signed && jwt.session in st.db.sessions && Covered(st.db.tokens, grants)
    ensures Within(ScopeOf(st.db.tokens, jwt.refresh), st.db.sessions[jwt.session].user, grants)
  {
    hide Inv, Within;
    PriorRowIsOwn(st, jwt);
    if AnyToken(st.db.tokens, jwt.refresh) {
      var t :| t in st.db.tokens && st.db.tokens[t].refresh == jwt.refresh;
      ScopeOfRow(st.db.tokens, jwt.refresh, t);
    } else {
      NoScopeWithin(st.db.sessions[jwt.session].user, grants);
    }
  }

  lemma {:induction false} NoScopeWithin(user: string, grants: Grants)
    ensures Within("", user, grants)
  {
  }

  lemma {:induction false} Narrower(scope: string, wider: string, user: string, grants: Grants)
    requires Within(wider, user, grants) && Scopes.ScopeSet(scope) <= Scopes.ScopeSet(wider)
    ensures Within(scope, user, grants)
  {
  }

  lemma {:induction false} RefreshCovered(st: State, e: Event, grants: Grants)
    requires Inv(st) && Legal(st, e) && e.op.Refresh? && Covered(st.db.tokens, grants)
    ensures Covered(Step(st, e).db.tokens, grants)
  {
    hide Inv, Covered, Within, PrepareRefresh, Finish;
    var prepared := PrepareRefresh(st.db, e.op.jwt, e.op.refreshChecks, e.now);
    RefreshIsQuiet(st.db, e.op.jwt, e.op.refreshChecks, e.now);
    RefreshStep(st, e);
    if prepared.Ready? {
      ReadyHasSession(st.db, e.op.jwt, e.op.refreshChecks, e.now);
      RowWithin(st, e.op.jwt, grants);
      RefreshNarrows(st.db, e.op.jwt, e.op.refreshChecks, e.now);
      Narrower(prepared.scope, ScopeOf(st.db.tokens, e.op.jwt.refresh), prepared.user, grants);
    }
    FinishCovered(st.db, prepared, e.op.pair, grants);
  }

  lemma {:induction false} ReadyHasSession(db: Db, jwt: Jwt, checks: RefreshChecks, now: int)
    ensures PrepareRefresh(db, jwt, checks, now).Ready? ==> jwt.session in db.sessions
  {
  }

  lemma {:induction false} RedeemCovered(st: State, e: Event, grants: Grants)
    requires e.op.Redeem? && Covered(st.db.tokens, grants) && NewGrants(st, e) <= grants
    ensures Covered(Step(st, e).db.tokens, grants)
  {
    hide Covered, PrepareRedeem, Finish;
    var prepared := PrepareRedeem(st.db, e.op.code, e.op.redeemChecks, e.now);
    RedeemIsQuiet(st.db, e.op.code, e.op.redeemChecks, e.now);
    RedeemStep(st, e);
    assert prepared.Ready? ==> (prepared.user, prepared.scope) in grants;
    FinishCovered(st.db, prepared, e.op.pair, grants);
  }

  lemma {:induction false} StepCovered(st: State, e: Event, grants: Grants)
    requires Inv(st) && Legal(st, e) && Covered(st.db.tokens, grants) && NewGrants(st, e) <= grants
    ensures Covered(Step(st, e).db.tokens, grants)
  {
    hide Inv, Covered, Quiet;
    if e.op.Redeem? {
      RedeemCovered(st, e, grants);
    } else if e.op.Refresh? {
      RefreshCovered(st, e, grants);
    } else if e.op.IssueToUser? {
      assert (e.op.user, e.op.scope) in grants;
      IssueCovered(st.db, Some(e.op.user), None, OtherGrant, e.op.scope, e.op.pair, grants);
    } else if e.op.IssueToClient? {
      IssueCovered(st.db, None, None, ClientCredentials, e.op.scope, e.op.pair, grants);
    } else if e.op.Login? || e.op.LoginWithCode? || e.op.SignOn? || e.op.PostConsent? {
      LoginStepsAside(st.cfg, st.db, e.now, e.op);
    } else {
      QuietStep(st.cfg, st.db, e.now, e.op);
      QuietCovered(st.db, Step(st, e).db, grants);
    }
  }

  /** Over every run each token issued to a user has a scope within one that was granted to that
      user by redeeming a code, by a password or by a device code: no chain of refreshes, of
      whatever length and with whatever requested scopes, adds a scope or puts two grants
      together. */
  lemma {:induction false} ScopesNeverGrow(st: State, es: seq<Event>, grants: Grants)
    requires Inv(st) && LegalRun(st, es) && Covered(st.db.tokens, grants)
    ensures Covered(Run(st, es).db.tokens, grants + GrantsOf(st, es))
    decreases |es|
  {
    if es == [] {
      MoreGrants(st.db.tokens, grants, grants + GrantsOf(st, es));
    } else {
      var more, next := grants + NewGrants(st, es[0]), Step(st, es[0]);
      MoreGrants(st.db.tokens, grants, more);
      StepCovered(st, es[0], more);
      StepKeepsInv(st, es[0]);
      ScopesNeverGrow(next, es[1..], more);
      assert grants + GrantsOf(st, es) == more + GrantsOf(next, es[1..]);
    }
  }

  /** In particular from an empty database on. */
  lemma {:induction false} ScopesFromGenesis(cfg: Config, es: seq<Event>, t: string)
    requires LegalRun(Genesis(cfg), es) && t in Run(Genesis(cfg), es).db.tokens
    requires Run(Genesis(cfg), es).db.tokens[t].user.Some?
    ensures
      var row := Run(Genesis(cfg), es).db.tokens[t];
      Within(row.scope, row.user.value, GrantsOf(Genesis(cfg), es))
  {
    ScopesNeverGrow(Genesis(cfg), es, {});
    assert {} + GrantsOf(Genesis(cfg), es) == GrantsOf(Genesis(cfg), es);
  }
}
