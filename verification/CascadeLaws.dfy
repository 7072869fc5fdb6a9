/** What the cascade and the two sweeps achieve, and what they leave alone. */
module CascadeLaws {
  import opened Common
  import opened Tables
  import opened SessionStore

  /** Nothing born from the browser login `id` is alive: not its row, not a child session,
      and not a token that any child session names. */
  ghost predicate LoginDead(db: Db, id: string) {
    && !ActiveIdp(db.idps, id)
    && (forall s :: s in db.sessions && db.sessions[s].idp == Some(id) ==> db.sessions[s].deactivated.Some?)
    && (forall s, t :: s in db.sessions && db.sessions[s].idp == Some(id) && t in db.tokens ==>
          db.tokens[t].access == db.sessions[s].access ==> db.tokens[t].revoked.Some?)
  }

  lemma {:induction false} CascadeKills(db: Db, ids: set<string>, id: string, now: int)
    requires id in ids
    ensures LoginDead(CascadeAll(db, ids, now), id)
  {
  }

  /** A row that is alive and hangs on one of the logins `ids`. */
  ghost predicate Hit(db: Db, ids: set<string>, t: string) {
    && t in db.tokens && db.tokens[t].revoked.None?
    && exists s :: s in db.sessions && IsChild(db.sessions[s], ids) && db.sessions[s].access == db.tokens[t].access
  }

  /** Exactly the living rows that hang on `ids` change, they get the time of the cascade
      as their stamp, and no other field of any row is touched: earlier stamps and
      unrelated rows stay as they are. */
  lemma {:induction false} CascadeChangesExactly(db: Db, ids: set<string>, now: int)
    ensures
      var after := CascadeAll(db, ids, now);
      && after.idps.Keys == db.idps.Keys && after.sessions.Keys == db.sessions.Keys
      && after.tokens.Keys == db.tokens.Keys && after.codes == db.codes && after.consents == db.consents
      && (forall i :: i in db.idps ==>
            after.idps[i] ==
              if i in ids && ActiveIdp(db.idps, i) then db.idps[i].(deactivated := Some(now)) else db.idps[i])
      && (forall s :: s in db.sessions ==>
            (after.sessions[s] != db.sessions[s] <==> db.sessions[s].deactivated.None? && IsChild(db.sessions[s], ids))
            && after.sessions[s].(deactivated := None) == db.sessions[s].(deactivated := None))
      && (forall t :: t in db.tokens ==>
            (after.tokens[t] != db.tokens[t] <==> Hit(db, ids, t))
            && after.tokens[t].(revoked := None) == db.tokens[t].(revoked := None))
  {
  }

  /** Calling the cascade again, at any later time, changes nothing. */
  lemma {:induction false} CascadeIdempotent(db: Db, ids: set<string>, now: int, later: int)
    ensures CascadeAll(CascadeAll(db, ids, now), ids, later) == CascadeAll(db, ids, now)
  {
  }

  ghost function ActiveIds(db: Db): set<string> {
    set i | i in db.idps && db.idps[i].deactivated.None?
  }

  /** A sweep that succeeds: every active login on its list is gone with everything born
      from it, no other login is touched, and the returned count is the number of logins
      lost. */
  lemma {:induction false} SweepLosesExactly(db: Db, ids: set<string>, now: int)
    requires ids <= ActiveIds(db)
    ensures ActiveIds(CascadeAll(db, ids, now)) == ActiveIds(db) - ids
    ensures |ActiveIds(db)| - |ActiveIds(CascadeAll(db, ids, now))| == |ids|
    ensures forall id :: id in ids ==> LoginDead(CascadeAll(db, ids, now), id)
    ensures forall id :: id in db.idps && id !in ids ==> CascadeAll(db, ids, now).idps[id] == db.idps[id]
  {
    assert ActiveIds(CascadeAll(db, ids, now)) == ActiveIds(db) - ids;
    forall id | id in ids ensures LoginDead(CascadeAll(db, ids, now), id) {
      CascadeKills(db, ids, id, now);
    }
  }

  lemma {:induction false} PrefixSize(ids: seq<string>, k: nat)
    requires k <= |ids| && forall i, j :: 0 <= i < j < |ids| ==> ids[i] != ids[j]
    ensures |Prefix(ids, k)| == k
  {
    if k > 0 {
      PrefixSize(ids, k - 1);
      assert Prefix(ids, k) == Prefix(ids, k - 1) + {ids[k - 1]};
      assert ids[k - 1] !in Prefix(ids, k - 1);
    } else {
      assert Prefix(ids, 0) == {};
    }
  }

  /** Reading off the contracts of `DeactivateIdle` and `DeactivateExpiredMaxAge`: `ids` is
      the list the sweep works through and `k` how many cascades went through. The first
      `k` logins are fully dead, every other login is as before; if the sweep got through
      the list, the count it returns is the number of logins lost and none that it was
      looking for is left. */
  lemma {:induction false} SweepOutcome(db: Db, cfg: Config, idle: bool, ids: seq<string>, k: nat, now: int)
    requires k <= |ids|
    requires Lists(ids, if idle then IdleIds(db.idps, now - cfg.idle) else AgedIds(db.idps, now - cfg.maxAge))
    ensures
      var after := CascadeAll(db, Prefix(ids, k), now);
      && (forall i :: 0 <= i < k ==> LoginDead(after, ids[i]))
      && (forall id :: id in db.idps && id !in ids[..k] ==> after.idps[id] == db.idps[id])
      && |ActiveIds(db)| - |ActiveIds(after)| == k
      && (k == |ids| ==>
            if idle then IdleIds(after.idps, now - cfg.idle) == {} else AgedIds(after.idps, now - cfg.maxAge) == {})
  {
    var done := Prefix(ids, k);
    PrefixActive(db, cfg, idle, ids, k, now);
    SweepLosesExactly(db, done, now);
    forall i | 0 <= i < k ensures LoginDead(CascadeAll(db, done, now), ids[i]) {
      assert ids[i] in done;
    }
    if k == |ids| {
      NoneLeft(db, cfg, idle, ids, now);
    }
  }

  lemma {:induction false} PrefixActive(db: Db, cfg: Config, idle: bool, ids: seq<string>, k: nat, now: int)
    requires k <= |ids|
    requires Lists(ids, if idle then IdleIds(db.idps, now - cfg.idle) else AgedIds(db.idps, now - cfg.maxAge))
    ensures |Prefix(ids, k)| == k && Prefix(ids, k) <= ActiveIds(db)
    ensures forall id :: id in Prefix(ids, k) <==> id in ids[..k]
  {
    PrefixSize(ids, k);
    forall id | id in ids[..k] ensures id in Prefix(ids, k) {
      var i :| 0 <= i < k && ids[..k][i] == id;
      assert ids[i] in Prefix(ids, k);
    }
    forall id | id in Prefix(ids, k) ensures id in ActiveIds(db) {
      assert id in ids;
    }
  }

  lemma {:induction false} NoneLeft(db: Db, cfg: Config, idle: bool, ids: seq<string>, now: int)
    requires Lists(ids, if idle then IdleIds(db.idps, now - cfg.idle) else AgedIds(db.idps, now - cfg.maxAge))
    ensures
      var after := CascadeAll(db, Prefix(ids, |ids|), now);
      if idle then IdleIds(after.idps, now - cfg.idle) == {} else AgedIds(after.idps, now - cfg.maxAge) == {}
  {
    var wanted := if idle then IdleIds(db.idps, now - cfg.idle) else AgedIds(db.idps, now - cfg.maxAge);
    AllListed(ids, wanted, |ids|);
    if idle {
      IdleSweepLeavesNone(db, now - cfg.idle, now);
    } else {
      AgedSweepLeavesNone(db, now - cfg.maxAge, now);
    }
  }

  lemma {:induction false} IdleSweepLeavesNone(db: Db, threshold: int, now: int)
    ensures IdleIds(CascadeAll(db, IdleIds(db.idps, threshold), now).idps, threshold) == {}
  {
  }

  lemma {:induction false} AgedSweepLeavesNone(db: Db, threshold: int, now: int)
    ensures AgedIds(CascadeAll(db, AgedIds(db.idps, threshold), now).idps, threshold) == {}
  {
  }
}
