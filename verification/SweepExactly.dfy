/** The guard of `SweepInvisible` is exact: every step that is not in time is shown by a tick
    of a healthy cleaner right before it. */
module SweepExactly {
  import opened Common
  import opened Tables
  import opened ServerRuns
  import opened SweepInvisible
  import CodeLaws
  import Text

  // ------------------------------------------------------------- a healthy tick

  /** A tick in which no sweep, cascade or deletion fails. */
  function HealthyTick(st: State, now: int, retention: int): Event {
    Event(now, Cleanup(retention, st.db.idps.Keys, st.db.idps.Keys, {}))
  }

  ghost function SweptTables(st: State, now: int): Db {
    AgedSwept(IdleSwept(st.db, st.cfg, now, st.db.idps.Keys), st.cfg, now, st.db.idps.Keys)
  }

  function KeptSessions(sessions: map<string, Session>, threshold: int): map<string, Session> {
    map x | x in sessions && !(sessions[x].expires < threshold) :: sessions[x]
  }

  lemma {:induction false} DeletedSessions(db: Db, tables: seq<Swept>, threshold: int)
    ensures DeleteAll(db, tables, {}, threshold).sessions ==
      if Sessions in tables then KeptSessions(db.sessions, threshold) else db.sessions
    decreases |tables|
  {
    if tables != [] {
      var before, t := tables[..|tables| - 1], tables[|tables| - 1];
      DeletedSessions(db, before, threshold);
      assert Sessions in tables <==> Sessions in before || t == Sessions;
      assert KeptSessions(KeptSessions(db.sessions, threshold), threshold) == KeptSessions(db.sessions, threshold);
    }
  }

  /** What a healthy tick leaves, row by row. */
  lemma {:induction false} AfterTick(st: State, now: int, retention: int)
    ensures
      var db2, after := SweptTables(st, now), Step(st, HealthyTick(st, now, retention));
      && after == st.(clock := now, db := after.db)
      && after.db.idps == CodeLaws.KeptIdps(db2.idps, now - retention)
      && after.db.sessions == KeptSessions(db2.sessions, now - retention)
      && after.db.codes == CodeLaws.Unexpired(st.db.codes, now - retention)
  {
    hide IdleSwept, AgedSwept, DeleteAll;
    var all := st.db.idps.Keys;
    TickStep(st, HealthyTick(st, now, retention));
    CodeLaws.DeletedIdps(SweptTables(st, now), TRANSIENT_TABLES, {}, now - retention);
    DeletedSessions(SweptTables(st, now), TRANSIENT_TABLES, now - retention);
    CodeLaws.CleanupCodes(st.db, st.cfg, now, retention, all, all, {});
  }

  /** A sweep ends exactly the active logins that are late. */
  lemma {:induction false} SweptLogin(st: State, now: int, l: string)
    requires ActiveIdp(st.db.idps, l)
    ensures l in SweptTables(st, now).idps
    ensures Late(st.cfg, st.db.idps[l], now) ==>
      SweptTables(st, now).idps[l] == st.db.idps[l].(deactivated := Some(now))
    ensures !Late(st.cfg, st.db.idps[l], now) ==> SweptTables(st, now).idps[l] == st.db.idps[l]
  {
    var db1 := IdleSwept(st.db, st.cfg, now, st.db.idps.Keys);
    assert l in db1.idps;
  }

  lemma {:induction false} TickOnLogin(st: State, now: int, retention: int, l: string)
    requires ActiveIdp(st.db.idps, l)
    ensures
      var after := Step(st, HealthyTick(st, now, retention)).db.idps;
      if Late(st.cfg, st.db.idps[l], now) then !ActiveIdp(after, l)
      else ActiveIdp(after, l) && after[l] == st.db.idps[l]
  {
    AfterTick(st, now, retention);
    SweptLogin(st, now, l);
  }

  /** The login of the session is among `ids`. */
  predicate Hangs(x: Session, ids: set<string>) {
    x.idp.Some? && x.idp.value in ids
  }

  lemma {:induction false} IdleSweptSession(db: Db, cfg: Config, now: int, all: set<string>, x: string)
    requires x in db.sessions
    ensures
      var before, after := db.sessions[x], IdleSwept(db, cfg, now, all).sessions;
      && x in after && after[x].(deactivated := None) == before.(deactivated := None)
      && (after[x].deactivated.Some? <==>
            before.deactivated.Some? || (cfg.idle > 0 && Hangs(before, IdleIds(db.idps, now - cfg.idle) * all)))
  {
    if cfg.idle > 0 {
      CascadeEndsSession(db, IdleIds(db.idps, now - cfg.idle) * all, now, x);
    }
  }

  lemma {:induction false} AgedSweptSession(db: Db, cfg: Config, now: int, all: set<string>, x: string)
    requires x in db.sessions
    ensures
      var before, after := db.sessions[x], AgedSwept(db, cfg, now, all).sessions;
      && x in after && after[x].(deactivated := None) == before.(deactivated := None)
      && (after[x].deactivated.Some? <==>
            before.deactivated.Some? || (cfg.maxAge > 0 && Hangs(before, AgedIds(db.idps, now - cfg.maxAge) * all)))
  {
    if cfg.maxAge > 0 {
      CascadeEndsSession(db, AgedIds(db.idps, now - cfg.maxAge) * all, now, x);
    }
  }

  /** A session swept along keeps its fields, and is over if its login was late. */
  lemma {:induction false} SweptSession(st: State, now: int, x: string)
    requires x in st.db.sessions
    ensures
      var after := SweptTables(st, now).sessions;
      x in after && after[x].(deactivated := None) == st.db.sessions[x].(deactivated := None)
    ensures st.db.sessions[x].deactivated.None? ==>
      (SweptTables(st, now).sessions[x].deactivated.Some? <==> Lingers(st, x, st.db.idps.Keys, now))
  {
    var all, db1 := st.db.idps.Keys, IdleSwept(st.db, st.cfg, now, st.db.idps.Keys);
    IdleSweptSession(st.db, st.cfg, now, all, x);
    AgedSweptSession(db1, st.cfg, now, all, x);
    if st.db.sessions[x].idp.Some? {
      var l := st.db.sessions[x].idp.value;
      IdleSweptLogin(st.db, st.cfg, now, all, l);
      assert l in IdleIds(st.db.idps, now - st.cfg.idle) * all ==> ActiveIdp(st.db.idps, l);
      assert ActiveIdp(st.db.idps, l) && IdleLate(st.cfg, st.db.idps[l], now) ==>
        l in IdleIds(st.db.idps, now - st.cfg.idle) * all;
    }
  }

  lemma {:induction false} TickOnSession(st: State, now: int, retention: int, x: string)
    requires x in st.db.sessions
    ensures
      var before, after := st.db.sessions[x], Step(st, HealthyTick(st, now, retention)).db.sessions;
      && (x in after <==> !SessionDue(before, now, retention))
      && (x in after ==> after[x].(deactivated := None) == before.(deactivated := None))
      && (x in after && before.deactivated.None? ==>
            (after[x].deactivated.Some? <==> Lingers(st, x, st.db.idps.Keys, now)))
  {
    AfterTick(st, now, retention);
    SweptSession(st, now, x);
  }

  /** After a tick whose sweeps got through their lists (what `Database.Run` ensures of a
      healthy cleaner), whatever deletions fail: exactly the active logins that were not late
      are left, as they were. */
  lemma {:induction false} HealthyRunEndsLate(db: Db, cfg: Config, now: int, retention: int, idleDone: set<string>,
                                              agedDone: set<string>, failing: set<Swept>, l: string)
    requires cfg.idle > 0 ==> IdleIds(db.idps, now - cfg.idle) <= idleDone
    requires cfg.maxAge > 0 ==> AgedIds(IdleSwept(db, cfg, now, idleDone).idps, now - cfg.maxAge) <= agedDone
    ensures
      var after := CleanupRun(db, cfg, now, retention, idleDone, agedDone, failing).idps;
      && (ActiveIdp(after, l) <==> ActiveIdp(db.idps, l) && !Late(cfg, db.idps[l], now))
      && (ActiveIdp(after, l) <==>
            && l in db.idps && db.idps[l].deactivated.None?
            && (cfg.idle <= 0 || now <= db.idps[l].lastActivity + cfg.idle)
            && (cfg.maxAge <= 0 || now <= db.idps[l].created + cfg.maxAge))
      && (ActiveIdp(after, l) ==> after[l] == db.idps[l])
  {
    var db1 := IdleSwept(db, cfg, now, idleDone);
    var db2 := AgedSwept(db1, cfg, now, agedDone);
    CodeLaws.DeletedIdps(db2, TRANSIENT_TABLES, failing, now - retention);
    IdleSweptLogin(db, cfg, now, idleDone, l);
    assert ActiveIdp(db2.idps, l) <==> ActiveIdp(db1.idps, l) && !AgeLate(cfg, db1.idps[l], now);
  }

  lemma {:induction false} IdleSweptLogin(db: Db, cfg: Config, now: int, done: set<string>, l: string)
    requires cfg.idle > 0 ==> IdleIds(db.idps, now - cfg.idle) <= done
    ensures
      var after := IdleSwept(db, cfg, now, done).idps;
      && (ActiveIdp(after, l) <==> ActiveIdp(db.idps, l) && !IdleLate(cfg, db.idps[l], now))
      && (ActiveIdp(after, l) ==> after[l] == db.idps[l])
  {
  }

  lemma {:induction false} TickIsLegal(st: State, e: Event, retention: int)
    requires Legal(st, e)
    ensures Legal(st, HealthyTick(st, e.now, retention)) && Legal(Step(st, HealthyTick(st, e.now, retention)), e)
  {
    TickStep(st, HealthyTick(st, e.now, retention));
  }

  // ---------------------------------------------------- sequences of events

  lemma {:induction false} StripConcat(a: seq<Event>, b: seq<Event>)
    ensures Strip(a + b) == Strip(a) + Strip(b)
    decreases |a|
  {
    if a == [] {
      assert a + b == b;
    } else {
      var first: seq<Event> := if a[0].op.Cleanup? then [] else [a[0]];
      assert (a + b)[0] == a[0] && (a + b)[1..] == a[1..] + b;
      assert Strip(a + b) == first + Strip(a[1..] + b);
      StripConcat(a[1..], b);
      Assoc(first, Strip(a[1..]), Strip(b));
    }
  }

  lemma {:induction false} ObserveCons(st: State, e: Event, es: seq<Event>)
    ensures Observations(st, [e] + es) ==
      (if e.op.Cleanup? then [] else [Observe(st, e)]) + Observations(Step(st, e), es)
    ensures Strip([e] + es) == (if e.op.Cleanup? then [] else [e]) + Strip(es)
  {
    assert ([e] + es)[0] == e && ([e] + es)[1..] == es;
  }

  lemma {:induction false} ObservationsConcat(st: State, a: seq<Event>, b: seq<Event>)
    ensures Observations(st, a + b) == Observations(st, a) + Observations(Run(st, a), b)
    decreases |a|
  {
    if a == [] {
      assert a + b == b;
    } else {
      var e, rest := a[0], a[1..];
      assert (a + b)[0] == e && (a + b)[1..] == rest + b;
      ObservationsConcat(Step(st, e), rest, b);
      var first, next := if e.op.Cleanup? then [] else [Observe(st, e)], Step(st, e);
      Assoc(first, Observations(next, rest), Observations(Run(next, rest), b));
    }
  }

  predicate NoTicks(es: seq<Event>) {
    forall i :: 0 <= i < |es| ==> !es[i].op.Cleanup?
  }

  lemma {:induction false} StripOfNoTicks(es: seq<Event>)
    requires NoTicks(es)
    ensures Strip(es) == es
  {
    if es != [] {
      assert forall i :: 0 <= i < |es[1..]| ==> es[1..][i] == es[i + 1];
      StripOfNoTicks(es[1..]);
    }
  }

  /** One step, alone. */
  lemma {:induction false} ObserveOne(st: State, e: Event)
    requires !e.op.Cleanup? && Legal(st, e)
    ensures Observations(st, [e]) == [Observe(st, e)] && LegalRun(st, [e]) && Strip([e]) == [e] &&
      Run(st, [e]) == Step(st, e)
  {
    assert [e] + [] == [e];
    ObserveCons(st, e, []);
    RunCons(st, e, []);
  }

  /** A step and a probe. */
  lemma {:induction false} ObserveTwo(st: State, e: Event, probe: Event)
    requires !e.op.Cleanup? && !probe.op.Cleanup? && Legal(st, e) && Legal(Step(st, e), probe)
    ensures Observations(st, [e] + [probe]) == [Observe(st, e), Observe(Step(st, e), probe)]
    ensures LegalRun(st, [e] + [probe]) && Strip([e] + [probe]) == [e] + [probe]
  {
    ObserveOne(Step(st, e), probe);
    ObserveCons(st, e, [probe]);
    RunCons(st, e, [probe]);
  }

  /** A healthy tick, then `es`. */
  lemma {:induction false} TickFirst(st: State, now: int, es: seq<Event>, retention: int)
    requires
      var tick := HealthyTick(st, now, retention);
      Legal(st, tick) && LegalRun(Step(st, tick), es)
    ensures
      var tick := HealthyTick(st, now, retention);
      && LegalRun(st, [tick] + es) && Strip([tick] + es) == Strip(es)
      && Observations(st, [tick] + es) == Observations(Step(st, tick), es)
  {
    RunCons(st, HealthyTick(st, now, retention), es);
    ObserveCons(st, HealthyTick(st, now, retention), es);
  }

  // ------------------------------------------------- late steps are visible

  /** The tick before `e` shows: it changes an answer of `e` or of the in-time `tail`. */
  ghost predicate Shows(st: State, e: Event, tail: seq<Event>, retention: int) {
    var w := [HealthyTick(st, e.now, retention)] + ([e] + tail);
    && LegalRun(st, w) && ComparedRun(w, retention) && Strip(w) == [e] + tail
    && InTimeRun(Step(st, e), tail, retention)
    && Observations(st, w) != Observations(st, [e] + tail)
  }

  lemma {:induction false} ShowsAtOnce(st: State, e: Event, retention: int)
    requires Legal(st, e) && Compared(e.op, retention) && !e.op.Cleanup?
    requires Observe(Step(st, HealthyTick(st, e.now, retention)), e) != Observe(st, e)
    ensures Shows(st, e, [], retention)
  {
    TickIsLegal(st, e, retention);
    var tick := HealthyTick(st, e.now, retention);
    ObserveOne(st, e);
    ObserveOne(Step(st, tick), e);
    assert [e] + [] == [e];
    TickFirst(st, e.now, [e], retention);
    var w := [tick] + ([e] + []);
    assert w[0] == tick && w[1] == e && |w| == 2;
    assert Observations(st, [e])[0] != Observations(Step(st, tick), [e])[0];
  }

  /** The run with the tick, a step and a probe. */
  lemma {:induction false} TickedPair(st: State, e: Event, probe: Event, retention: int)
    requires Legal(st, e) && !e.op.Cleanup? && !probe.op.Cleanup? && Legal(Step(st, e), probe)
    ensures
      var swept, w := Step(st, HealthyTick(st, e.now, retention)),
          [HealthyTick(st, e.now, retention)] + ([e] + [probe]);
      && LegalRun(st, w) && Strip(w) == [e] + [probe]
      && Observations(st, w) == [Observe(swept, e), Observe(Step(swept, e), probe)]
  {
    TickIsLegal(st, e, retention);
    var tick := HealthyTick(st, e.now, retention);
    TickStep(st, tick);
    LegalAfter(st, Step(st, tick), e, probe);
    ObserveTwo(Step(st, tick), e, probe);
    TickFirst(st, e.now, [e] + [probe], retention);
  }

  /** Legality is about the clock and the secrets only. */
  lemma {:induction false} LegalAfter(a: State, b: State, e: Event, probe: Event)
    requires a.seen == b.seen && a.signed == b.signed && Legal(Step(a, e), probe)
    ensures Legal(Step(b, e), probe)
  {
  }

  lemma {:induction false} ShowsLater(st: State, e: Event, probe: Event, retention: int)
    requires Legal(st, e) && Compared(e.op, retention) && !e.op.Cleanup?
    requires Compared(probe.op, retention) && !probe.op.Cleanup? && Legal(Step(st, e), probe)
    requires InTime(Step(st, e), probe, retention)
    requires Observe(Step(Step(st, HealthyTick(st, e.now, retention)), e), probe) != Observe(Step(st, e), probe)
    ensures Shows(st, e, [probe], retention)
  {
    hide Observe, InTime, Legal, Step;
    TickedPair(st, e, probe, retention);
    ObserveTwo(st, e, probe);
    OneInTime(Step(st, e), probe, retention);
    var w := [HealthyTick(st, e.now, retention)] + ([e] + [probe]);
    assert w[0] == HealthyTick(st, e.now, retention) && w[1] == e && w[2] == probe && |w| == 3;
    assert Observations(st, [e] + [probe])[1] != Observations(st, w)[1];
  }

  lemma {:induction false} OneInTime(st: State, e: Event, retention: int)
    requires InTime(st, e, retention)
    ensures InTimeRun(st, [e], retention)
  {
    assert [e][1..] == [];
  }

  lemma {:induction false} LatePostShows(st: State, e: Event, retention: int)
    requires Legal(st, e) && e.op.PostConsent? && !InTime(st, e, retention)
    ensures Shows(st, e, [], retention)
  {
    TickOnLogin(st, e.now, retention, e.op.cookie);
    ShowsAtOnce(st, e, retention);
  }

  /** A replay of a code that a tick has deleted is not noticed as one, and a live code that
      it has deleted is not redeemed. */
  lemma {:induction false} LateRedeemShows(st: State, e: Event, retention: int)
    requires Legal(st, e) && e.op.Redeem? && !InTime(st, e, retention)
    ensures Shows(st, e, [], retention)
  {
    AfterTick(st, e.now, retention);
    ShowsAtOnce(st, e, retention);
  }

  function KeptTokens(tokens: map<string, Token>, threshold: int): map<string, Token> {
    map t | t in tokens && !(tokens[t].refreshExpires < threshold) :: tokens[t]
  }

  lemma {:induction false} DeletedTokens(db: Db, tables: seq<Swept>, threshold: int)
    ensures DeleteAll(db, tables, {}, threshold).tokens ==
      if Tokens in tables then KeptTokens(db.tokens, threshold) else db.tokens
    decreases |tables|
  {
    if tables != [] {
      var before, t := tables[..|tables| - 1], tables[|tables| - 1];
      DeletedTokens(db, before, threshold);
      assert Tokens in tables <==> Tokens in before || t == Tokens;
      assert KeptTokens(KeptTokens(db.tokens, threshold), threshold) == KeptTokens(db.tokens, threshold);
    }
  }

  lemma {:induction false} SweptIsQuiet(st: State, now: int)
    ensures Quiet(st.db, SweptTables(st, now))
  {
    var all, db1 := st.db.idps.Keys, IdleSwept(st.db, st.cfg, now, st.db.idps.Keys);
    IdleSweepIsQuiet(st.db, st.cfg, now, all);
    AgedSweepIsQuiet(db1, st.cfg, now, all);
    QuietTransitive(st.db, db1, SweptTables(st, now));
  }

  lemma {:induction false} TickedTokens(st: State, now: int, retention: int)
    ensures Step(st, HealthyTick(st, now, retention)).db.tokens ==
      KeptTokens(SweptTables(st, now).tokens, now - retention)
  {
    hide IdleSwept, AgedSwept, DeleteAll;
    TickStep(st, HealthyTick(st, now, retention));
    DeletedTokens(SweptTables(st, now), TRANSIENT_TABLES, now - retention);
  }

  lemma {:induction false} TickOnToken(st: State, now: int, retention: int, t: string)
    ensures t in Step(st, HealthyTick(st, now, retention)).db.tokens ==>
      && t in st.db.tokens && st.db.tokens[t].refreshExpires >= now - retention
      && Step(st, HealthyTick(st, now, retention)).db.tokens[t].refresh == st.db.tokens[t].refresh
  {
    TickedTokens(st, now, retention);
    SweptIsQuiet(st, now);
  }

  /** When the token row of an active session is deleted, no row with its refresh token is
      left. */
  lemma {:induction false} TickOnRefresh(st: State, now: int, retention: int, jwt: Jwt, t: string)
    requires Inv(st) && jwt in st.signed && jwt.session in st.db.sessions
    requires t in st.db.tokens && st.db.tokens[t].refresh == jwt.refresh
    requires st.db.tokens[t].refreshExpires < now - retention
    ensures !AnyToken(Step(st, HealthyTick(st, now, retention)).db.tokens, jwt.refresh)
  {
    var after := Step(st, HealthyTick(st, now, retention)).db.tokens;
    forall y | y in after ensures after[y].refresh != jwt.refresh {
      TickOnToken(st, now, retention, y);
      PriorRowIsOwn(st, jwt);
      assert TokenSecrets(st.db.tokens, st.seen);
    }
  }

  /** A refresh is turned down when a tick has deleted its session row or ended its login. */
  lemma {:induction false} LateSessionShows(st: State, e: Event, retention: int)
    requires Legal(st, e) && e.op.Refresh? && e.now < e.op.jwt.expires && e.op.jwt.session in st.db.sessions
    requires SessionDue(st.db.sessions[e.op.jwt.session], e.now, retention)
      || Lingers(st, e.op.jwt.session, st.db.idps.Keys, e.now)
    ensures Shows(st, e, [], retention)
  {
    TickOnSession(st, e.now, retention, e.op.jwt.session);
    TickStep(st, HealthyTick(st, e.now, retention));
    ShowsAtOnce(st, e, retention);
  }

  /** A replay is not noticed when a tick has deleted the token row, nor is the lack of a
      second factor; and the scope of the grant is taken for empty. */
  lemma {:induction false} LateTokenShows(st: State, e: Event, retention: int)
    requires Inv(st) && Legal(st, e) && e.op.Refresh? && e.now < e.op.jwt.expires && e.op.jwt.session in st.db.sessions
    requires st.db.sessions[e.op.jwt.session].deactivated.None? && e.op.refreshChecks.client
    requires !SessionDue(st.db.sessions[e.op.jwt.session], e.now, retention)
    requires !Lingers(st, e.op.jwt.session, st.db.idps.Keys, e.now)
    requires !TokensInTime(st.db, e.op.jwt.refresh, e.op.refreshChecks, e.op.pair, e.now, retention)
    ensures Shows(st, e, [], retention)
  {
    hide Observe, SweptTables, PrepareRefresh, FinishAnswer, RefreshRejection;
    var jwt, checks := e.op.jwt, e.op.refreshChecks;
    var t :| t in st.db.tokens && st.db.tokens[t].refresh == jwt.refresh &&
        st.db.tokens[t].refreshExpires < e.now - retention && !TokenIdle(st.db.tokens[t], checks, e.op.pair);
    var swept := Step(st, HealthyTick(st, e.now, retention));
    TickOnRefresh(st, e.now, retention, jwt, t);
    ObserveRefresh(st, e);
    ObserveRefresh(swept, e);
    if st.db.tokens[t].revoked.Some? || (checks.user && !checks.mfa) {
      NotTurnedDown(swept.db, jwt, checks, e.now, e.op.pair);
      TurnedDown(st.db, jwt, checks, e.now, e.op.pair, t);
    } else {
      PriorRowIsOwn(st, jwt);
      TickOnSession(st, e.now, retention, jwt.session);
      GrantedByRow(st.db, jwt, checks, e.op.pair, e.now, t);
      GrantedWithoutRow(swept.db, jwt, checks, e.op.pair, e.now);
      ScopesTell(st.db.tokens[t].scope, checks.scope, e.op.pair);
    }
    ShowsAtOnce(st, e, retention);
  }

  /** The answer to a refresh that is not turned down, by the scope of its grant. */
  function ScopeAnswer(granted: string, requested: string, p: Pair): TokenAnswer {
    if ScopeFits(requested, granted) then IssueAnswer(true, EffectiveScope(requested, granted), p) else ScopeExceeded
  }

  lemma {:induction false} ScopesTell(row: string, requested: string, p: Pair)
    requires !ScopeIdle(row, requested, p)
    ensures ScopeAnswer(row, requested, p) != ScopeAnswer("", requested, p)
  {
    if requested == "" {
      assert Text.Split("", ' ') == [""];
      assert !WantsId("");
    }
  }

  lemma {:induction false} GrantedByRow(db: Db, jwt: Jwt, checks: RefreshChecks, p: Pair, now: int, t: string)
    requires now < jwt.expires && jwt.session in db.sessions && db.sessions[jwt.session].deactivated.None?
    requires checks.client && checks.user && checks.mfa && checks.rotated
    requires OneTokenRow(db.tokens, jwt.refresh) && t in db.tokens && db.tokens[t].refresh == jwt.refresh
    requires db.tokens[t].revoked.None?
    ensures FinishAnswer(PrepareRefresh(db, jwt, checks, now), p) == ScopeAnswer(db.tokens[t].scope, checks.scope, p)
  {
    ScopeOfRow(db.tokens, jwt.refresh, t);
    assert !AnyRevoked(db.tokens, jwt.refresh);
    GrantedEffect(db, jwt, checks, p, now);
  }

  lemma {:induction false} GrantedWithoutRow(db: Db, jwt: Jwt, checks: RefreshChecks, p: Pair, now: int)
    requires now < jwt.expires && jwt.session in db.sessions && db.sessions[jwt.session].deactivated.None?
    requires checks.client && checks.user && checks.mfa && checks.rotated && !AnyToken(db.tokens, jwt.refresh)
    ensures FinishAnswer(PrepareRefresh(db, jwt, checks, now), p) == ScopeAnswer("", checks.scope, p)
  {
    assert !AnyRevoked(db.tokens, jwt.refresh);
    GrantedEffect(db, jwt, checks, p, now);
  }

  lemma {:induction false} ObserveRefresh(st: State, e: Event)
    requires e.op.Refresh?
    ensures Observe(st, e) ==
      TokenEndpoint(FinishAnswer(PrepareRefresh(st.db, e.op.jwt, e.op.refreshChecks, e.now), e.op.pair))
  {
  }

  predicate ByTokenRow(a: TokenAnswer) {
    a.Replayed? || a.MfaNeeded?
  }

  lemma {:induction false} TurnedDown(db: Db, jwt: Jwt, checks: RefreshChecks, now: int, p: Pair, t: string)
    requires now < jwt.expires && jwt.session in db.sessions && db.sessions[jwt.session].deactivated.None?
    requires checks.client && t in db.tokens && db.tokens[t].refresh == jwt.refresh
    requires db.tokens[t].revoked.Some? || (checks.user && !checks.mfa)
    ensures ByTokenRow(FinishAnswer(PrepareRefresh(db, jwt, checks, now), p))
  {
  }

  lemma {:induction false} NotTurnedDown(db: Db, jwt: Jwt, checks: RefreshChecks, now: int, p: Pair)
    requires !AnyToken(db.tokens, jwt.refresh)
    ensures !ByTokenRow(FinishAnswer(PrepareRefresh(db, jwt, checks, now), p))
  {
    assert !AnyRevoked(db.tokens, jwt.refresh);
  }

  lemma {:induction false} LateRefreshShows(st: State, e: Event, retention: int)
    requires Inv(st) && Legal(st, e) && e.op.Refresh? && !InTime(st, e, retention)
    ensures Shows(st, e, [], retention)
  {
    var x := e.op.jwt.session;
    if SessionDue(st.db.sessions[x], e.now, retention) || Lingers(st, x, st.db.idps.Keys, e.now) {
      LateSessionShows(st, e, retention);
    } else {
      LateTokenShows(st, e, retention);
    }
  }

  /** The probe for a session: a refresh by the wrong client. */
  lemma {:induction false} RefreshProbe(st: State, j: Jwt, now: int) returns (probe: Event)
    requires st.clock <= now && j in st.signed
    ensures Legal(st, probe) && probe.op.Refresh? && probe.now == now && probe.op.jwt == j &&
      !probe.op.refreshChecks.client
  {
    var p := FreshPair(st.seen);
    probe := Event(now, Refresh(j, RefreshChecks(false, false, false, false, ""), p));
  }

  lemma {:induction false} ProbeAnswer(st: State, probe: Event)
    requires probe.op.Refresh? && !probe.op.refreshChecks.client && probe.now < probe.op.jwt.expires
    requires probe.op.jwt.session in st.db.sessions
    ensures Observe(st, probe) == TokenEndpoint(
      if st.db.sessions[probe.op.jwt.session].deactivated.Some? then SessionOver else TokenAnswer.WrongClient)
  {
  }

  lemma {:induction false} EndingKeepsSessions(st: State, e: Event)
    requires e.op.DeactivateLogin? || e.op.DeactivateUserLogins?
    ensures
      var st' := Step(st, e);
      && st'.db.sessions == st.db.sessions && st'.signed == st.signed && st'.clock == e.now && st'.seen == st.seen
      && st'.db.idps == DeactivateIdps(st.db.idps,
           if e.op.DeactivateLogin? then {e.op.login} else IdpsOf(st.db.idps, e.op.user), e.now)
  {
    StepFromNoted(st, e);
  }

  /** Ending a late login without its sessions shows in the next refresh of any of them. */
  lemma {:induction false} LateEndShows(st: State, e: Event, retention: int) returns (tail: seq<Event>)
    requires Legal(st, e) && (e.op.DeactivateLogin? || e.op.DeactivateUserLogins?) && !InTime(st, e, retention)
    ensures Shows(st, e, tail, retention)
  {
    var ids := if e.op.DeactivateLogin? then {e.op.login} else IdpsOf(st.db.idps, e.op.user);
    var x :| x in st.db.sessions && Lingers(st, x, ids, e.now) && !Spent(st, x, e.now, retention);
    var j :| j in st.signed && j.session == x && j.expires > e.now;
    tail := EndShows(st, e, x, ids, j, retention);
  }

  lemma {:induction false} EndShows(st: State, e: Event, x: string, ids: set<string>, j: Jwt, retention: int)
    returns (tail: seq<Event>)
    requires Legal(st, e) && (e.op.DeactivateLogin? || e.op.DeactivateUserLogins?)
    requires x in st.db.sessions && Lingers(st, x, ids, e.now) && !SessionDue(st.db.sessions[x], e.now, retention)
    requires j in st.signed && j.session == x && j.expires > e.now
    requires ids == if e.op.DeactivateLogin? then {e.op.login} else IdpsOf(st.db.idps, e.op.user)
    ensures Shows(st, e, tail, retention)
  {
    hide Observe, Step, Shows;
    EndingKeepsSessions(st, e);
    var probe := RefreshProbe(Step(st, e), j, e.now);
    ProbeAnswer(Step(st, e), probe);
    LateEndHidden(st, e, x, ids, probe, retention);
    ProbeInTime(Step(st, e), probe, x, retention);
    ShowsLater(st, e, probe, retention);
    tail := [probe];
  }

  /** The probe counts as in time: the session's login is over. */
  lemma {:induction false} ProbeInTime(st: State, probe: Event, x: string, retention: int)
    requires probe.op.Refresh? && !probe.op.refreshChecks.client && probe.op.jwt.session == x && x in st.db.sessions
    requires !SessionDue(st.db.sessions[x], probe.now, retention)
    requires st.db.sessions[x].idp.Some? ==> !ActiveIdp(st.db.idps, st.db.sessions[x].idp.value)
    ensures InTime(st, probe, retention)
  {
  }

  lemma {:induction false} LateEndHidden(st: State, e: Event, x: string, ids: set<string>, probe: Event, retention: int)
    requires e.op.DeactivateLogin? || e.op.DeactivateUserLogins?
    requires x in st.db.sessions && Lingers(st, x, ids, e.now) && !SessionDue(st.db.sessions[x], e.now, retention)
    requires probe.op.Refresh? && !probe.op.refreshChecks.client && probe.now == e.now < probe.op.jwt.expires
    requires probe.op.jwt.session == x
    ensures Observe(Step(Step(st, HealthyTick(st, e.now, retention)), e), probe) == TokenEndpoint(SessionOver)
  {
    var swept := Step(st, HealthyTick(st, e.now, retention));
    TickOnSession(st, e.now, retention, x);
    EndingKeepsSessions(swept, e);
    ProbeAnswer(Step(swept, e), probe);
  }

  /** The login of a spared session stays. */
  lemma {:induction false} SparedLoginStays(db: Db, user: string, keep: string, now: int, x: string)
    requires keep != "" && x in db.sessions && Spared(db.sessions[x], user, keep)
    requires ActiveIdp(db.idps, db.sessions[x].idp.value)
    ensures
      var l, after := db.sessions[x].idp.value, RevokeUserAccess(db, user, keep, now).idps;
      ActiveIdp(after, l) && after[l] == db.idps[l]
  {
    var sessions := DeactivateWhere(db.sessions, SessionsOf(db.sessions, user, keep), now);
    assert sessions[x] == db.sessions[x];
    InUseBy(sessions, user, db.sessions[x].idp.value);
  }

  /** Without the spared session the login ends like the others. */
  lemma {:induction false} UnsparedLoginEnds(db: Db, user: string, keep: string, now: int, l: string)
    requires keep != "" && l in db.idps && db.idps[l].user == user
    requires forall y :: y in db.sessions ==> !Spared(db.sessions[y], user, keep)
    ensures !ActiveIdp(RevokeUserAccess(db, user, keep, now).idps, l)
  {
    var sessions := DeactivateWhere(db.sessions, SessionsOf(db.sessions, user, keep), now);
    InUseBy(sessions, user, l);
    forall y | y in sessions ensures !Uses(sessions[y], user) {
      assert !Spared(db.sessions[y], user, keep);
    }
  }

  /** The probe for a login: its user declines a consent. */
  function LoginProbe(l: string, now: int): Event {
    Event(now, PostConsent(l, "", "", true, true, ""))
  }

  lemma {:induction false} LoginProbeAnswer(st: State, l: string, now: int)
    requires l != ""
    ensures Observe(st, LoginProbe(l, now)) == if ActiveIdp(st.db.idps, l) then Decided(true) else Unauthorized
  {
  }

  lemma {:induction false} RevokeStepIdps(st: State, e: Event)
    requires e.op.RevokeUser?
    ensures Step(st, e).db.idps == RevokeUserAccess(st.db, e.op.user, e.op.keep, e.now).idps
    ensures Step(st, e).cfg == st.cfg && Step(st, e).clock == e.now
  {
    StepFromNoted(st, e);
  }

  lemma {:induction false} SparedAnswer(st: State, e: Event, x: string, retention: int)
    requires Inv(st) && Legal(st, e) && e.op.RevokeUser? && e.op.keep != ""
    requires x in st.db.sessions && Spared(st.db.sessions[x], e.op.user, e.op.keep) &&
      !SparedInTime(st, x, e.now, retention)
    ensures
      var probe := LoginProbe(st.db.sessions[x].idp.value, e.now);
      && Observe(Step(st, e), probe) == Decided(true) && InTime(Step(st, e), probe, retention) &&
          Legal(Step(st, e), probe)
  {
    hide Secrets, RevokeUserAccess;
    var l := st.db.sessions[x].idp.value;
    SparedLoginStays(st.db, e.op.user, e.op.keep, e.now, x);
    RevokeStepIdps(st, e);
    assert l in st.seen;
    LoginProbeAnswer(Step(st, e), l, e.now);
  }

  lemma {:induction false} UnsparedAnswer(st: State, e: Event, x: string, retention: int)
    requires Inv(st) && e.op.RevokeUser? && e.op.keep != ""
    requires x in st.db.sessions && Spared(st.db.sessions[x], e.op.user, e.op.keep) &&
      !SparedInTime(st, x, e.now, retention)
    ensures
      var swept := Step(st, HealthyTick(st, e.now, retention));
      Observe(Step(swept, e), LoginProbe(st.db.sessions[x].idp.value, e.now)) == Unauthorized
  {
    var user, keep, now, l := e.op.user, e.op.keep, e.now, st.db.sessions[x].idp.value;
    var swept := Step(st, HealthyTick(st, now, retention));
    SparedOwner(st, x, user);
    TickOnLogin(st, now, retention, l);
    forall y | y in swept.db.sessions ensures !Spared(swept.db.sessions[y], user, keep) {
      OnlyOneSpared(st, now, retention, x, y, user, keep);
    }
    UnsparedLoginEnds(swept.db, user, keep, now, l);
    RevokeStepIdps(swept, e);
    LoginProbeAnswer(Step(swept, e), l, now);
  }

  /** The login of a session is its user's. */
  lemma {:induction false} SparedOwner(st: State, x: string, user: string)
    requires Inv(st) && x in st.db.sessions && st.db.sessions[x].user == user && st.db.sessions[x].idp.Some?
    ensures st.db.sessions[x].idp.value != ""
    ensures ActiveIdp(st.db.idps, st.db.sessions[x].idp.value) ==> st.db.idps[st.db.sessions[x].idp.value].user == user
  {
    assert LinkOk(st.born, st.db.sessions[x].idp, user);
  }

  /** Sparing a session whose row a tick has deleted ends its login; the next consent
      decision by that login tells. */
  lemma {:induction false} LateSpareShows(st: State, e: Event, retention: int) returns (tail: seq<Event>)
    requires Inv(st) && Legal(st, e) && e.op.RevokeUser? && !InTime(st, e, retention)
    ensures Shows(st, e, tail, retention)
  {
    hide Legal, Observe, Links, Secrets, Step;
    var x :| x in st.db.sessions && Spared(st.db.sessions[x], e.op.user, e.op.keep) &&
        !SparedInTime(st, x, e.now, retention);
    SpareShows(st, e, x, retention);
    tail := [LoginProbe(st.db.sessions[x].idp.value, e.now)];
  }

  lemma {:induction false} SpareShows(st: State, e: Event, x: string, retention: int)
    requires Inv(st) && Legal(st, e) && e.op.RevokeUser? && e.op.keep != ""
    requires x in st.db.sessions && Spared(st.db.sessions[x], e.op.user, e.op.keep) &&
      !SparedInTime(st, x, e.now, retention)
    ensures Shows(st, e, [LoginProbe(st.db.sessions[x].idp.value, e.now)], retention)
  {
    hide Inv, Legal, Observe, InTime, Shows, Step;
    SparedAnswer(st, e, x, retention);
    UnsparedAnswer(st, e, x, retention);
    ShowsLater(st, e, LoginProbe(st.db.sessions[x].idp.value, e.now), retention);
  }

  lemma {:induction false} OnlyOneSpared(st: State, now: int, retention: int, x: string, y: string, user: string,
          keep: string)
    requires Inv(st) && x in st.db.sessions && Spared(st.db.sessions[x], user, keep) &&
      SessionDue(st.db.sessions[x], now, retention)
    requires y in Step(st, HealthyTick(st, now, retention)).db.sessions
    ensures Step(st, HealthyTick(st, now, retention)).db.sessions[y].access != keep
  {
    AfterTick(st, now, retention);
    assert y in st.db.sessions;
    TickOnSession(st, now, retention, y);
    TickOnSession(st, now, retention, x);
    assert SessionSecrets(st.db.sessions, st.seen);
  }

  /** Every step that is not in time. */
  lemma {:induction false} LateShows(st: State, e: Event, retention: int) returns (tail: seq<Event>)
    requires Inv(st) && Legal(st, e) && !InTime(st, e, retention)
    ensures Shows(st, e, tail, retention)
  {
    if e.op.PostConsent? {
      LatePostShows(st, e, retention);
      tail := [];
    } else if e.op.Redeem? {
      LateRedeemShows(st, e, retention);
      tail := [];
    } else if e.op.Refresh? {
      LateRefreshShows(st, e, retention);
      tail := [];
    } else if e.op.RevokeUser? {
      tail := LateSpareShows(st, e, retention);
    } else {
      tail := LateEndShows(st, e, retention);
    }
  }

  // ------------------------------------------------------------- if and only if

  /** No way of inserting ticks into the run, stopped anywhere and possibly continued by
      steps that are in time, changes an answer. The continuations are there for steps that
      have no answer of their own, such as ending a login: what they leave behind is only told
      by a later request. They are in time because a late one would show by itself, whatever
      run it continues. For runs without such steps see `CleanerUnseenIff`. */
  ghost predicate CleanerInvisible(st: State, r: seq<Event>, retention: int) {
    forall k, tail, w ::
      0 <= k <= |r| && InTimeRun(Run(st, r[..k]), tail, retention)
      && LegalRun(st, w) && ComparedRun(w, retention) && Strip(w) == r[..k] + tail ==>
        Observations(st, w) == Observations(st, r[..k] + tail)
  }

  lemma {:induction false} InTimeConcat(st: State, a: seq<Event>, b: seq<Event>, retention: int)
    ensures InTimeRun(st, a + b, retention) <==> InTimeRun(st, a, retention) && InTimeRun(Run(st, a), b, retention)
    decreases |a|
  {
    if a == [] {
      assert a + b == b;
    } else {
      assert (a + b)[0] == a[0] && (a + b)[1..] == a[1..] + b;
      InTimeConcat(Step(st, a[0]), a[1..], b, retention);
    }
  }

  lemma {:induction false} InTimeIsInvisible(st: State, r: seq<Event>, retention: int)
    requires Inv(st) && InTimeRun(st, r, retention)
    ensures CleanerInvisible(st, r, retention)
  {
    RelatedReflexive(st, retention);
    forall k, tail, w | 0 <= k <= |r| && InTimeRun(Run(st, r[..k]), tail, retention)
      && LegalRun(st, w) && ComparedRun(w, retention) && Strip(w) == r[..k] + tail
      ensures Observations(st, w) == Observations(st, r[..k] + tail)
    {
      assert r[..k] + r[k..] == r;
      InTimeConcat(st, r[..k], r[k..], retention);
      InTimeConcat(st, r[..k], tail, retention);
      SweptRunAgrees(st, st, w, retention);
    }
  }

  lemma {:induction false} FirstLate(st: State, r: seq<Event>, retention: int) returns (j: nat)
    requires !InTimeRun(st, r, retention)
    ensures j < |r| && !InTime(Run(st, r[..j]), r[j], retention)
    decreases |r|
  {
    if !InTime(st, r[0], retention) {
      j := 0;
    } else {
      var i := FirstLate(Step(st, r[0]), r[1..], retention);
      j := i + 1;
      assert r[..j][0] == r[0] && r[..j][1..] == r[1..][..i];
    }
  }

  lemma {:induction false} UpTo(st: State, r: seq<Event>, j: nat, retention: int)
    requires j < |r| && LegalRun(st, r) && NoTicks(r) && ComparedRun(r, retention)
    ensures LegalRun(st, r[..j]) && Legal(Run(st, r[..j]), r[j]) && NoTicks(r[..j]) && ComparedRun(r[..j], retention)
    ensures Run(st, r[..j + 1]) == Step(Run(st, r[..j]), r[j]) && r[..j + 1] == r[..j] + [r[j]]
  {
    hide Legal, Step;
    assert r[..j] + r[j..] == r && r[j..][0] == r[j];
    RunConcat(st, r[..j], r[j..]);
    assert r[..j + 1] == r[..j] + [r[j]];
    RunConcat(st, r[..j], [r[j]]);
    assert [r[j]][1..] == [];
  }

  /** The run up to a late step, then the tick that shows it. */
  lemma {:induction false} ShowsBehind(st: State, a: seq<Event>, w: seq<Event>, b: seq<Event>)
    requires NoTicks(a) && LegalRun(st, a) && LegalRun(Run(st, a), w) && Strip(w) == b
    requires Observations(Run(st, a), w) != Observations(Run(st, a), b)
    ensures LegalRun(st, a + w) && Strip(a + w) == a + b && Observations(st, a + w) != Observations(st, a + b)
  {
    RunConcat(st, a, w);
    StripConcat(a, w);
    StripOfNoTicks(a);
    ObservationsConcat(st, a, w);
    ObservationsConcat(st, a, b);
    var p, x, y := Observations(st, a), Observations(Run(st, a), w), Observations(Run(st, a), b);
    assert (p + x)[|p|..] == x && (p + y)[|p|..] == y;
  }

  lemma {:induction false} Refutes(st: State, r: seq<Event>, k: nat, tail: seq<Event>, w: seq<Event>, retention: int)
    requires k <= |r| && InTimeRun(Run(st, r[..k]), tail, retention)
    requires LegalRun(st, w) && ComparedRun(w, retention) && Strip(w) == r[..k] + tail
    requires Observations(st, w) != Observations(st, r[..k] + tail)
    ensures !CleanerInvisible(st, r, retention)
  {
  }

  lemma {:induction false} VisibleAt(st: State, r: seq<Event>, j: nat, w: seq<Event>, tail: seq<Event>, retention: int)
    requires j < |r| && NoTicks(r[..j]) && ComparedRun(r[..j], retention) && LegalRun(st, r[..j])
    requires LegalRun(Run(st, r[..j]), w) && ComparedRun(w, retention) && Strip(w) == [r[j]] + tail
    requires InTimeRun(Run(st, r[..j + 1]), tail, retention)
    requires Observations(Run(st, r[..j]), w) != Observations(Run(st, r[..j]), [r[j]] + tail)
    ensures !CleanerInvisible(st, r, retention)
  {
    BehindPrefix(st, r, j, w, tail);
    ComparedConcat(r[..j], w, retention);
    Refutes(st, r, j + 1, tail, r[..j] + w, retention);
  }

  lemma {:induction false} BehindPrefix(st: State, r: seq<Event>, j: nat, w: seq<Event>, tail: seq<Event>)
    requires j < |r| && NoTicks(r[..j]) && LegalRun(st, r[..j])
    requires LegalRun(Run(st, r[..j]), w) && Strip(w) == [r[j]] + tail
    requires Observations(Run(st, r[..j]), w) != Observations(Run(st, r[..j]), [r[j]] + tail)
    ensures LegalRun(st, r[..j] + w) && Strip(r[..j] + w) == r[..j + 1] + tail
    ensures Observations(st, r[..j] + w) != Observations(st, r[..j + 1] + tail)
  {
    OneMore(r, j, tail);
    ShowsBehind(st, r[..j], w, [r[j]] + tail);
  }

  lemma {:induction false} OneMore(r: seq<Event>, j: nat, tail: seq<Event>)
    requires j < |r|
    ensures r[..j] + ([r[j]] + tail) == r[..j + 1] + tail
  {
  }

  lemma {:induction false} ComparedConcat(a: seq<Event>, b: seq<Event>, retention: int)
    requires ComparedRun(a, retention) && ComparedRun(b, retention)
    ensures ComparedRun(a + b, retention)
  {
  }

  lemma {:induction false} LateIsVisible(st: State, r: seq<Event>, retention: int)
    requires Inv(st) && LegalRun(st, r) && NoTicks(r) && ComparedRun(r, retention) && !InTimeRun(st, r, retention)
    ensures !CleanerInvisible(st, r, retention)
  {
    var j := FirstLate(st, r, retention);
    UpTo(st, r, j, retention);
    ReachableInv(st, r[..j]);
    var mid := Run(st, r[..j]);
    var tail := LateShows(mid, r[j], retention);
    VisibleAt(st, r, j, [HealthyTick(mid, r[j].now, retention)] + ([r[j]] + tail), tail, retention);
  }

  /** The exact condition. For every run without cleaner, from every reachable state and for
      every retention, a cleaner can be added invisibly if and only if every step of the run
      is in time. */
  lemma {:induction false} CleanerInvisibleIff(st: State, r: seq<Event>, retention: int)
    requires Inv(st) && LegalRun(st, r) && NoTicks(r) && ComparedRun(r, retention)
    ensures CleanerInvisible(st, r, retention) <==> InTimeRun(st, r, retention)
  {
    if InTimeRun(st, r, retention) {
      InTimeIsInvisible(st, r, retention);
    } else {
      LateIsVisible(st, r, retention);
    }
  }

  // ------------------------------------------------- the run's own answers

  /** Only the three steps that end logins without their sessions, or spare a session, can be
      late without an answer of their own that tells. */
  predicate AnswersItself(op: Op) {
    !op.DeactivateLogin? && !op.DeactivateUserLogins? && !(op.RevokeUser? && op.keep != "")
  }

  predicate AnswerThemselves(r: seq<Event>) {
    forall i :: 0 <= i < |r| ==> AnswersItself(r[i].op)
  }

  /** No way of inserting ticks into the run changes one of its answers. */
  ghost predicate CleanerUnseen(st: State, r: seq<Event>, retention: int) {
    forall w :: LegalRun(st, w) && ComparedRun(w, retention) && Strip(w) == r ==>
      Observations(st, w) == Observations(st, r)
  }

  lemma {:induction false} LateAnswerDiffers(st: State, e: Event, retention: int)
    requires Inv(st) && Legal(st, e) && !InTime(st, e, retention) && AnswersItself(e.op) && !e.op.Cleanup?
    ensures Observe(Step(st, HealthyTick(st, e.now, retention)), e) != Observe(st, e)
  {
    if e.op.PostConsent? {
      LatePostShows(st, e, retention);
    } else if e.op.Redeem? {
      LateRedeemShows(st, e, retention);
    } else {
      LateRefreshShows(st, e, retention);
    }
    TickIsLegal(st, e, retention);
    ObserveOne(st, e);
    ObserveOne(Step(st, HealthyTick(st, e.now, retention)), e);
    assert [e] + [] == [e];
    TickFirst(st, e.now, [e], retention);
  }

  /** Which runs are legal depends on the clock and the secrets only. */
  lemma {:induction false} LegalAlike(a: State, b: State, es: seq<Event>)
    requires LegalRun(a, es) && a.seen == b.seen && a.signed == b.signed
    requires es != [] ==> b.clock <= es[0].now
    ensures LegalRun(b, es)
    decreases |es|
  {
    if es != [] {
      var rest := es[1..];
      if rest != [] {
        assert Legal(Step(a, es[0]), rest[0]);
      }
      LegalAlike(Step(a, es[0]), Step(b, es[0]), rest);
    }
  }

  lemma {:induction false} ObservedFirst(st: State, r: seq<Event>)
    requires r != [] && !r[0].op.Cleanup?
    ensures |Observations(st, r)| > 0 && Observations(st, r)[0] == Observe(st, r[0])
  {
  }

  lemma {:induction false} TickedRunIsLegal(st: State, r: seq<Event>, retention: int)
    requires r != [] && LegalRun(st, r)
    ensures
      var tick := HealthyTick(st, r[0].now, retention);
      Legal(st, r[0]) && Legal(st, tick) && LegalRun(Step(st, tick), r)
  {
    var tick := HealthyTick(st, r[0].now, retention);
    TickIsLegal(st, r[0], retention);
    TickStep(st, tick);
    LegalAlike(st, Step(st, tick), r);
  }

  /** A tick right before a late step, and the run goes on as it was. */
  lemma {:induction false} TickedRest(st: State, r: seq<Event>, retention: int)
    requires Inv(st) && r != [] && LegalRun(st, r) && NoTicks(r)
    requires !InTime(st, r[0], retention) && AnswersItself(r[0].op)
    ensures
      var w := [HealthyTick(st, r[0].now, retention)] + r;
      LegalRun(st, w) && Strip(w) == r && Observations(st, w) != Observations(st, r)
  {
    TickedRunIsLegal(st, r, retention);
    TickFirst(st, r[0].now, r, retention);
    StripOfNoTicks(r);
    LateAnswerDiffers(st, r[0], retention);
    ObservedFirst(st, r);
    ObservedFirst(Step(st, HealthyTick(st, r[0].now, retention)), r);
  }

  lemma {:induction false} ComparedTick(st: State, now: int, r: seq<Event>, retention: int)
    requires ComparedRun(r, retention)
    ensures ComparedRun([HealthyTick(st, now, retention)] + r, retention)
  {
    ComparedConcat([HealthyTick(st, now, retention)], r, retention);
  }

  lemma {:induction false} SplitAt(st: State, r: seq<Event>, j: nat, retention: int)
    requires j < |r| && LegalRun(st, r) && NoTicks(r) && ComparedRun(r, retention)
    ensures r[..j] + r[j..] == r && LegalRun(st, r[..j]) && LegalRun(Run(st, r[..j]), r[j..])
    ensures NoTicks(r[..j]) && NoTicks(r[j..]) && ComparedRun(r[..j], retention) && ComparedRun(r[j..], retention)
  {
    assert r[..j] + r[j..] == r;
    RunConcat(st, r[..j], r[j..]);
  }

  /** What a tick does to the rest of a run, it does to the run. */
  lemma {:induction false} SeenBehind(st: State, a: seq<Event>, w: seq<Event>, rest: seq<Event>, retention: int)
    requires LegalRun(st, a) && NoTicks(a) && ComparedRun(a, retention)
    requires LegalRun(Run(st, a), w) && ComparedRun(w, retention) && Strip(w) == rest
    requires Observations(Run(st, a), w) != Observations(Run(st, a), rest)
    ensures !CleanerUnseen(st, a + rest, retention)
  {
    ShowsBehind(st, a, w, rest);
    ComparedConcat(a, w, retention);
    assert Strip(a + w) == a + rest;
  }

  lemma {:induction false} LateIsSeen(st: State, r: seq<Event>, retention: int)
    requires Inv(st) && LegalRun(st, r) && NoTicks(r) && ComparedRun(r, retention) && AnswerThemselves(r)
    requires !InTimeRun(st, r, retention)
    ensures !CleanerUnseen(st, r, retention)
  {
    var j := FirstLate(st, r, retention);
    SplitAt(st, r, j, retention);
    ReachableInv(st, r[..j]);
    TickedRest(Run(st, r[..j]), r[j..], retention);
    ComparedTick(Run(st, r[..j]), r[j].now, r[j..], retention);
    SeenBehind(st, r[..j], [HealthyTick(Run(st, r[..j]), r[j].now, retention)] + r[j..], r[j..], retention);
  }

  /** The exact condition by the run's own answers. For every run of logins, auto-logins,
      consent decisions, token requests and revocations that keep no session back, a cleaner
      can be added without any difference in any answer of the run if and only if every step of
      the run is in time. */
  lemma {:induction false} CleanerUnseenIff(st: State, r: seq<Event>, retention: int)
    requires Inv(st) && LegalRun(st, r) && NoTicks(r) && ComparedRun(r, retention) && AnswerThemselves(r)
    ensures CleanerUnseen(st, r, retention) <==> InTimeRun(st, r, retention)
  {
    if InTimeRun(st, r, retention) {
      RelatedReflexive(st, retention);
      forall w | LegalRun(st, w) && ComparedRun(w, retention) && Strip(w) == r
        ensures Observations(st, w) == Observations(st, r)
      {
        SweptRunAgrees(st, st, w, retention);
      }
    } else {
      LateIsSeen(st, r, retention);
    }
  }
}
