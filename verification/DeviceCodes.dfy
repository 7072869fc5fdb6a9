/** Device authorization codes (RFC 8628): the guarded updates of
    `pkg/devicecode/update.go`, the check-then-update handlers of
    `pkg/account/device.go`, the polling side in `pkg/token/device_code.go` and the
    cleaner's DELETE, under every interleaving of their statements. */
module DeviceCodes {
  import opened Common

  datatype Status = Pending | Authorized | Denied | Consumed

  datatype Row = Row(
    userCode: string, client: string, scope: string, expiresAt: int,
    interval: int, user: Option<string>, status: Status, lastPolled: Option<int>)

  type Table = map<string, Row>

  /** The handlers' HTTP answers, as far as they depend on the row. */
  datatype Answer = NotFound | Expired | AlreadyUsed | Go

  // ------------------------------------------------------- the guarded updates

  function AuthorizeUpdate(t: Table, userCode: string, user: string): Table {
    map c | c in t ::
      if t[c].userCode == userCode && t[c].status == Pending
      then t[c].(status := Authorized, user := Some(user)) else t[c]
  }

  function DenyUpdate(t: Table, userCode: string): Table {
    map c | c in t ::
      if t[c].userCode == userCode && t[c].status == Pending then t[c].(status := Denied) else t[c]
  }

  function ConsumeUpdate(t: Table, code: string): Table {
    if code in t && t[code].status == Authorized then t[code := t[code].(status := Consumed)] else t
  }

  function IncrementUpdate(t: Table, code: string): Table {
    if code in t then t[code := t[code].(interval := t[code].interval + 5)] else t
  }

  function PolledUpdate(t: Table, code: string, now: int): Table {
    if code in t then t[code := t[code].(lastPolled := Some(now))] else t
  }

  function Unexpired(t: Table, threshold: int): Table {
    map c | c in t && !(t[c].expiresAt < threshold) :: t[c]
  }

  // ------------------------------------------------------------------ the store

  class DeviceCodeStore {
    var rows: Table

    constructor ()
      ensures rows == map[]
    {
      rows := map[];
    }

    /** INSERT; `code` is the primary key and `user_code` is UNIQUE. */
    method CreateDeviceCode(code: string, row: Row) returns (ok: bool)
      modifies this
      ensures ok <==> old(code !in rows && forall c :: c in rows ==> rows[c].userCode != row.userCode)
      ensures rows == if ok then old(rows)[code := row] else old(rows)
    {
      ok := code !in rows && forall c :: c in rows ==> rows[c].userCode != row.userCode;
      if ok {
        rows := rows[code := row];
      }
    }

    method AuthorizeDeviceCode(userCode: string, user: string)
      modifies this
      ensures rows == AuthorizeUpdate(old(rows), userCode, user)
    {
      rows := map c | c in rows ::
        if rows[c].userCode == userCode && rows[c].status == Pending
        then rows[c].(status := Authorized, user := Some(user)) else rows[c];
    }

    method DenyDeviceCode(userCode: string)
      modifies this
      ensures rows == DenyUpdate(old(rows), userCode)
    {
      rows := map c | c in rows ::
        if rows[c].userCode == userCode && rows[c].status == Pending
        then rows[c].(status := Denied) else rows[c];
    }

    method ConsumeDeviceCode(code: string)
      modifies this
      ensures rows == ConsumeUpdate(old(rows), code)
    {
      if code in rows && rows[code].status == Authorized {
        rows := rows[code := rows[code].(status := Consumed)];
      }
    }

    method IncrementInterval(code: string)
      modifies this
      ensures rows == IncrementUpdate(old(rows), code)
    {
      if code in rows {
        rows := rows[code := rows[code].(interval := rows[code].interval + 5)];
      }
    }

    method UpdateLastPolledAt(code: string, now: int)
      modifies this
      ensures rows == PolledUpdate(old(rows), code, now)
    {
      if code in rows {
        rows := rows[code := rows[code].(lastPolled := Some(now))];
      }
    }

    /** The cleaner's DELETE. */
    method DeleteExpired(threshold: int)
      modifies this
      ensures rows == Unexpired(old(rows), threshold)
    {
      rows := map c | c in rows && !(rows[c].expiresAt < threshold) :: rows[c];
    }

    /** The check half of `HandleDeviceAuthorize`; `HandleDeviceDeny` skips the expiry
        test. */
    method Check(userCode: string, now: int, checkExpiry: bool) returns (a: Answer)
      requires UniqueUserCodes(rows)
      ensures a == NotFound <==> forall c :: c in rows ==> rows[c].userCode != userCode
      ensures forall c :: c in rows && rows[c].userCode == userCode ==>
        a == CheckRow(rows[c], now, checkExpiry)
    {
      if exists c :: c in rows && rows[c].userCode == userCode {
        var c :| c in rows && rows[c].userCode == userCode;
        return CheckRow(rows[c], now, checkExpiry);
      }
      return NotFound;
    }
  }

  ghost predicate UniqueUserCodes(t: Table) {
    forall c, d :: c in t && d in t && t[c].userCode == t[d].userCode ==> c == d
  }

  function CheckRow(r: Row, now: int, checkExpiry: bool): Answer {
    if checkExpiry && now > r.expiresAt then Expired
    else if r.status != Pending then AlreadyUsed else Go
  }

  // --------------------------------------------------- interleaved HTTP requests

  /** A request between two of its statements. `Polled` and `Granting` carry what the
      request read from the row at the start. */
  datatype Task =
    | Authorizing(userCode: string, approver: string)
    | Denying(userCode: string)
    | SlowPolled(code: string, now: int)
    | SlowCounting(code: string)
    | Polled(code: string, now: int, snapshot: Row)
    | Granting(code: string, grantee: string)

  /** One statement of one request, of the device endpoint or of the cleaner. */
  datatype Event =
    | Insert(code: string, row: Row)
    | StartAuthorize(req: int, userCode: string, approver: string, now: int)
    | StartDeny(req: int, userCode: string)
    | StartPoll(req: int, code: string, client: string, now: int)
    | Continue(req: int)
    | Clean(threshold: int)

  /** `seen` is every device code ever generated; `granted` counts, for each code and user,
      the polls that were answered with tokens. */
  datatype State = State(rows: Table, tasks: map<int, Task>, seen: set<string>, granted: multiset<(string, string)>)

  const EMPTY := State(map[], map[], {}, multiset{})

  /** Generated device codes are fresh, and a new row is pending and unbound. */
  ghost predicate Legal(st: State, e: Event) {
    match e
    case Insert(code, row) => code !in st.seen && row.status == Pending && row.user == None
    case StartAuthorize(req, _, _, _) => req !in st.tasks
    case StartDeny(req, _) => req !in st.tasks
    case StartPoll(req, _, _, _) => req !in st.tasks
    case Continue(req) => req in st.tasks
    case Clean(_) => true
  }

  ghost predicate Passes(t: Table, userCode: string, now: int, checkExpiry: bool) {
    exists c :: c in t && t[c].userCode == userCode && CheckRow(t[c], now, checkExpiry) == Go
  }

  const SECOND := 1_000_000_000

  /** `handleDeviceCodeGrant` up to its first UPDATE, decided on the row it read. */
  function PollTask(t: Table, code: string, client: string, now: int): Option<Task> {
    if code !in t || t[code].client != client || now > t[code].expiresAt then None
    else
      var r := t[code];
      if r.lastPolled.Some? && now - r.lastPolled.value < r.interval * SECOND
      then Some(SlowPolled(code, now))
      else Some(Polled(code, now, r))
  }

  ghost function Apply(st: State, e: Event): State
    requires Legal(st, e)
  {
    match e
    case Insert(code, row) =>
      if forall c :: c in st.rows ==> st.rows[c].userCode != row.userCode
      then st.(rows := st.rows[code := row], seen := st.seen + {code})
      else st.(seen := st.seen + {code})
    case StartAuthorize(req, userCode, approver, now) =>
      if Passes(st.rows, userCode, now, true)
      then st.(tasks := st.tasks[req := Authorizing(userCode, approver)]) else st
    case StartDeny(req, userCode) =>
      if Passes(st.rows, userCode, 0, false)
      then st.(tasks := st.tasks[req := Denying(userCode)]) else st
    case StartPoll(req, code, client, now) =>
      var task := PollTask(st.rows, code, client, now);
      if task.Some? then st.(tasks := st.tasks[req := task.value]) else st
    case Continue(req) => Resume(st.(tasks := st.tasks - {req}), req, st.tasks[req])
    case Clean(threshold) => st.(rows := Unexpired(st.rows, threshold))
  }

  /** The UPDATE that a request runs next. */
  function Statement(t: Table, task: Task): Table {
    match task
    case Authorizing(userCode, approver) => AuthorizeUpdate(t, userCode, approver)
    case Denying(userCode) => DenyUpdate(t, userCode)
    case SlowPolled(code, now) => PolledUpdate(t, code, now)
    case SlowCounting(code) => IncrementUpdate(t, code)
    case Polled(code, now, _) => PolledUpdate(t, code, now)
    case Granting(code, _) => ConsumeUpdate(t, code)
  }

  /** What is left of the request after it. */
  function NextTask(task: Task): Option<Task> {
    match task
    case SlowPolled(code, _) => Some(SlowCounting(code))
    case Polled(code, _, r) =>
      if r.status == Authorized && r.user.Some? then Some(Granting(code, r.user.value)) else None
    case _ => None
  }

  ghost function Resume(st: State, req: int, task: Task): State {
    State(Statement(st.rows, task),
          if NextTask(task).Some? then st.tasks[req := NextTask(task).value] else st.tasks,
          st.seen,
          if task.Granting? then st.granted + multiset{(task.code, task.grantee)} else st.granted)
  }

  ghost predicate LegalRun(st: State, es: seq<Event>)
    decreases |es|
  {
    es == [] || (Legal(st, es[0]) && LegalRun(Apply(st, es[0]), es[1..]))
  }

  ghost function Run(st: State, es: seq<Event>): State
    requires LegalRun(st, es)
    decreases |es|
  {
    if es == [] then st else Run(Apply(st, es[0]), es[1..])
  }

  /** How often the run tells the device with `code` to slow down. */
  ghost function SlowDowns(st: State, es: seq<Event>, code: string): nat
    requires LegalRun(st, es)
    decreases |es|
  {
    if es == [] then 0
    else
      (if es[0].Continue? && st.tasks[es[0].req] == SlowCounting(code) then 1 else 0)
      + SlowDowns(Apply(st, es[0]), es[1..], code)
  }

  // ------------------------------------------------------------------- invariants

  ghost predicate Bound(r: Row) {
    r.user.Some? <==> r.status == Authorized || r.status == Consumed
  }

  /** A row read earlier in the run: the row now is the same or further along. */
  ghost predicate Inv(st: State) {
    && UniqueUserCodes(st.rows)
    && st.rows.Keys <= st.seen
    && (forall c :: c in st.rows ==> Bound(st.rows[c]))
    && (forall q :: q in st.tasks ==> TaskOk(st, st.tasks[q]))
    && (forall g :: g in st.granted ==>
          g.0 in st.seen && (g.0 in st.rows ==> st.rows[g.0].user == Some(g.1) && st.rows[g.0].status == Consumed))
  }

  ghost predicate TaskOk(st: State, task: Task) {
    match task
    case Polled(code, _, r) =>
      code in st.seen && Bound(r) && (code in st.rows ==> Advances(r, st.rows[code]))
    case Granting(code, grantee) =>
      code in st.seen && (code in st.rows ==>
        st.rows[code].user == Some(grantee) && st.rows[code].status in {Authorized, Consumed})
    case _ => true
  }

  /** The only moves of a row: pending to authorized to consumed, or pending to denied;
      the user is set once, with the authorization, and stays. */
  ghost predicate Advances(a: Row, b: Row) {
    && a.userCode == b.userCode && a.client == b.client && a.scope == b.scope && a.expiresAt == b.expiresAt
    && (a.status == b.status
        || (a.status == Pending)
        || (a.status == Authorized && b.status == Consumed))
    && (b.status == Pending ==> a.status == Pending)
    && (a.user.Some? ==> b.user == a.user)
    && a.interval <= b.interval
  }

  lemma {:induction false} StatementAdvances(t: Table, task: Task, code: string)
    requires code in t && Bound(t[code])
    ensures code in Statement(t, task) && Bound(Statement(t, task)[code])
    ensures Advances(t[code], Statement(t, task)[code])
    ensures t[code].status == Pending ==> Statement(t, task)[code].status != Consumed
    ensures Statement(t, task)[code].interval == t[code].interval + if task == SlowCounting(code) then 5 else 0
  {
  }

  /** One statement moves a surviving row along, by exactly one transition, and counts
      a slow_down exactly when it issues one. */
  lemma {:induction false} StepAdvances(st: State, e: Event, code: string)
    requires Inv(st) && Legal(st, e)
    requires code in st.rows && code in Apply(st, e).rows
    ensures Advances(st.rows[code], Apply(st, e).rows[code]) && Bound(Apply(st, e).rows[code])
    ensures st.rows[code].status == Pending ==> Apply(st, e).rows[code].status != Consumed
    ensures Apply(st, e).rows[code].interval == st.rows[code].interval
      + if e.Continue? && st.tasks[e.req] == SlowCounting(code) then 5 else 0
  {
    if e.Continue? {
      StatementAdvances(st.rows, st.tasks[e.req], code);
    } else {
      assert Apply(st, e).rows[code] == st.rows[code];
    }
  }

  lemma {:induction false} StepKeepsKeys(st: State, e: Event)
    requires Inv(st) && Legal(st, e)
    ensures Apply(st, e).rows.Keys <= Apply(st, e).seen && st.seen <= Apply(st, e).seen
    ensures Apply(st, e).rows.Keys - st.rows.Keys <= Apply(st, e).seen - st.seen
  {
    hide UniqueUserCodes, Bound, TaskOk;
  }

  lemma {:induction false} StepKeepsRow(st: State, e: Event, c: string)
    requires Inv(st) && Legal(st, e) && !e.Insert? && c in Apply(st, e).rows
    ensures c in st.rows && Apply(st, e).rows[c].userCode == st.rows[c].userCode && Bound(Apply(st, e).rows[c])
  {
    StepAdvances(st, e, c);
    assert Bound(st.rows[c]);
  }

  lemma {:induction false} InsertKeepsRows(st: State, e: Event)
    requires Inv(st) && Legal(st, e) && e.Insert?
    ensures UniqueUserCodes(Apply(st, e).rows)
    ensures forall c :: c in Apply(st, e).rows ==> Bound(Apply(st, e).rows[c])
  {
  }

  lemma {:induction false} StepKeepsRows(st: State, e: Event)
    requires Inv(st) && Legal(st, e)
    ensures UniqueUserCodes(Apply(st, e).rows)
    ensures forall c :: c in Apply(st, e).rows ==> Bound(Apply(st, e).rows[c])
  {
    if e.Insert? {
      InsertKeepsRows(st, e);
    } else {
      var t, t' := st.rows, Apply(st, e).rows;
      forall c | c in t' ensures c in t && t'[c].userCode == t[c].userCode && Bound(t'[c]) {
        StepKeepsRow(st, e, c);
      }
      forall c, d | c in t' && d in t' && t'[c].userCode == t'[d].userCode ensures c == d {
        assert t[c].userCode == t[d].userCode;
      }
    }
  }

  /** What a request knows stays true over a step. */
  lemma {:induction false} TaskStaysOk(st: State, e: Event, task: Task)
    requires Inv(st) && Legal(st, e) && TaskOk(st, task)
    ensures TaskOk(Apply(st, e), task)
  {
    StepKeepsKeys(st, e);
    if (task.Polled? || task.Granting?) && task.code in st.rows && task.code in Apply(st, e).rows {
      StepAdvances(st, e, task.code);
    }
  }

  lemma {:induction false} NewTaskOk(st: State, e: Event, q: int)
    requires Inv(st) && Legal(st, e) && q in Apply(st, e).tasks &&
      !(q in st.tasks && st.tasks[q] == Apply(st, e).tasks[q])
    ensures TaskOk(Apply(st, e), Apply(st, e).tasks[q])
  {
    if e.Continue? {
      assert q == e.req && TaskOk(st, st.tasks[q]);
      TaskStaysOk(st, e, st.tasks[q]);
      var task := st.tasks[q];
      if task.Polled? && task.code in st.rows {
        StepAdvances(st, e, task.code);
      }
    }
  }

  lemma {:induction false} StepKeepsTasks(st: State, e: Event, q: int)
    requires Inv(st) && Legal(st, e) && q in Apply(st, e).tasks
    ensures TaskOk(Apply(st, e), Apply(st, e).tasks[q])
  {
    if q in st.tasks && st.tasks[q] == Apply(st, e).tasks[q] {
      TaskStaysOk(st, e, st.tasks[q]);
    } else {
      NewTaskOk(st, e, q);
    }
  }

  lemma {:induction false} StepKeepsGrants(st: State, e: Event, g: (string, string))
    requires Inv(st) && Legal(st, e) && g in Apply(st, e).granted
    ensures g.0 in Apply(st, e).seen
    ensures g.0 in Apply(st, e).rows ==>
      Apply(st, e).rows[g.0].user == Some(g.1) && Apply(st, e).rows[g.0].status == Consumed
  {
    StepKeepsKeys(st, e);
    if g.0 in st.rows && g.0 in Apply(st, e).rows {
      StepAdvances(st, e, g.0);
    }
  }

  lemma {:induction false} StepKeepsInv(st: State, e: Event)
    requires Inv(st) && Legal(st, e)
    ensures Inv(Apply(st, e))
  {
    var st' := Apply(st, e);
    StepKeepsKeys(st, e);
    StepKeepsRows(st, e);
    forall q | q in st'.tasks ensures TaskOk(st', st'.tasks[q]) {
      StepKeepsTasks(st, e, q);
    }
    forall g | g in st'.granted
      ensures g.0 in st'.seen &&
        (g.0 in st'.rows ==> st'.rows[g.0].user == Some(g.1) && st'.rows[g.0].status == Consumed)
    {
      StepKeepsGrants(st, e, g);
    }
  }

  /** Every reachable state, under every interleaving: the bound user is set exactly on
      authorized and consumed rows, and whoever received tokens for a code is the user
      that the (now consumed) row is bound to. */
  lemma {:induction false} ReachableInv(st: State, es: seq<Event>)
    requires Inv(st) && LegalRun(st, es)
    ensures Inv(Run(st, es))
    decreases |es|
  {
    if es != [] {
      StepKeepsInv(st, es[0]);
      ReachableInv(Apply(st, es[0]), es[1..]);
    }
  }

  /** Once deleted, a row never comes back. */
  lemma {:induction false} GoneStaysGone(st: State, es: seq<Event>, code: string)
    requires Inv(st) && LegalRun(st, es) && code in st.seen && code !in st.rows
    ensures code !in Run(st, es).rows
    decreases |es|
  {
    if es != [] {
      StepKeepsInv(st, es[0]);
      StepKeepsKeys(st, es[0]);
      GoneStaysGone(Apply(st, es[0]), es[1..], code);
    }
  }

  /** Over any run, a row that is still there has only advanced, and its polling interval
      has grown by five for each slow_down (section 3.5 of RFC 8628). */
  lemma {:induction false} RunAdvances(st: State, es: seq<Event>, code: string)
    requires Inv(st) && LegalRun(st, es)
    requires code in st.rows && code in Run(st, es).rows
    ensures Advances(st.rows[code], Run(st, es).rows[code])
    ensures Run(st, es).rows[code].interval == st.rows[code].interval + 5 * SlowDowns(st, es, code)
    decreases |es|
  {
    if es != [] {
      var st' := Apply(st, es[0]);
      StepKeepsInv(st, es[0]);
      StepKeepsKeys(st, es[0]);
      if code in st'.rows {
        StepAdvances(st, es[0], code);
        RunAdvances(st', es[1..], code);
      } else {
        GoneStaysGone(st', es[1..], code);
      }
    }
  }

  // ------------------------------------------------------------ one user per code

  /** What a request knows of the code's user. */
  predicate Claims(task: Task, code: string, user: string) {
    || (task.Polled? && task.code == code && task.snapshot.user == Some(user))
    || (task.Granting? && task.code == code && task.grantee == user)
  }

  /** Anything that ties the code to the user: its row, a request under way, or tokens. */
  ghost predicate Evidence(st: State, code: string, user: string) {
    || (code in st.rows && st.rows[code].user == Some(user))
    || (exists q :: q in st.tasks && Claims(st.tasks[q], code, user))
    || (code, user) in st.granted
  }

  ghost predicate Agree(st: State) {
    forall code, u, v :: Evidence(st, code, u) && Evidence(st, code, v) ==> u == v
  }

  lemma {:induction false} PendingHasNone(st: State, code: string, user: string)
    requires Inv(st) && code in st.rows && st.rows[code].status == Pending
    ensures !Evidence(st, code, user)
  {
    assert Bound(st.rows[code]);
    forall q | q in st.tasks ensures !Claims(st.tasks[q], code, user) {
      assert TaskOk(st, st.tasks[q]);
    }
    forall g | g in st.granted ensures g.0 != code {
      assert g.0 in st.rows ==> st.rows[g.0].status == Consumed;
    }
  }

  /** Evidence is passed on, or comes from binding a pending row. */
  lemma {:induction false} EvidenceComesFrom(st: State, e: Event, code: string, user: string)
    requires Inv(st) && Legal(st, e) && Evidence(Apply(st, e), code, user)
    ensures Evidence(st, code, user)
      || (code in st.rows && st.rows[code].status == Pending
          && code in Apply(st, e).rows && Apply(st, e).rows[code].user == Some(user))
  {
    var st' := Apply(st, e);
    if code in st'.rows && st'.rows[code].user == Some(user) {
      if code in st.rows {
        StepAdvances(st, e, code);
        assert Bound(st.rows[code]);
      }
    } else if (code, user) in st'.granted && (code, user) !in st.granted {
      assert Claims(st.tasks[e.req], code, user);
    } else if (code, user) !in st'.granted {
      var q :| q in st'.tasks && Claims(st'.tasks[q], code, user);
      ClaimComesFrom(st, e, q, code, user);
    }
  }

  lemma {:induction false} ClaimComesFrom(st: State, e: Event, q: int, code: string, user: string)
    requires Legal(st, e) && q in Apply(st, e).tasks && Claims(Apply(st, e).tasks[q], code, user)
    ensures Evidence(st, code, user)
  {
    if q in st.tasks && Claims(st.tasks[q], code, user) {
    } else {
      assert e.StartPoll? ==> code in st.rows && st.rows[code].user == Some(user);
    }
  }

  lemma {:induction false} StepKeepsAgree(st: State, e: Event)
    requires Inv(st) && Legal(st, e) && Agree(st)
    ensures Agree(Apply(st, e))
  {
    var st' := Apply(st, e);
    forall code, u, v | Evidence(st', code, u) && Evidence(st', code, v) ensures u == v {
      EvidenceComesFrom(st, e, code, u);
      EvidenceComesFrom(st, e, code, v);
      if code in st.rows && st.rows[code].status == Pending {
        PendingHasNone(st, code, u);
        PendingHasNone(st, code, v);
      }
    }
  }

  lemma {:induction false} RunKeepsAgree(st: State, es: seq<Event>)
    requires Inv(st) && Agree(st) && LegalRun(st, es)
    ensures Agree(Run(st, es))
    decreases |es|
  {
    if es != [] {
      StepKeepsInv(st, es[0]);
      StepKeepsAgree(st, es[0]);
      RunKeepsAgree(Apply(st, es[0]), es[1..]);
    }
  }

  /** No two users ever receive tokens for the same code, whether or not its row is still
      there: not even polls that were under way when the cleaner deleted it disagree. */
  lemma {:induction false} OneUserPerCode(es: seq<Event>, code: string, u: string, v: string)
    requires LegalRun(EMPTY, es)
    requires (code, u) in Run(EMPTY, es).granted && (code, v) in Run(EMPTY, es).granted
    ensures u == v
  {
    RunKeepsAgree(EMPTY, es);
    var st := Run(EMPTY, es);
    assert Evidence(st, code, u) && Evidence(st, code, v);
  }

  // ------------------------------------------------------- how often it is granted

  /** A poll that has read the row as authorized for the user and not yet answered. */
  predicate WillGrant(task: Task, code: string, user: string) {
    || (task.Polled? && task.code == code && task.snapshot.status == Authorized && task.snapshot.user == Some(user))
    || (task.Granting? && task.code == code && task.grantee == user)
  }

  ghost function OpenIn(tasks: map<int, Task>, code: string, user: string): set<int> {
    set q | q in tasks && WillGrant(tasks[q], code, user)
  }

  ghost function Open(st: State, code: string, user: string): set<int> {
    OpenIn(st.tasks, code, user)
  }

  lemma {:induction false} OpenWith(tasks: map<int, Task>, q: int, task: Task, code: string, user: string)
    requires q !in tasks
    ensures |OpenIn(tasks[q := task], code, user)| ==
      |OpenIn(tasks, code, user)| + if WillGrant(task, code, user) then 1 else 0
  {
    var before, after := OpenIn(tasks, code, user), OpenIn(tasks[q := task], code, user);
    if WillGrant(task, code, user) {
      assert after == before + {q} && q !in before;
    } else {
      assert after == before;
    }
  }

  /** The step is a poll, not too fast, that reads the row as authorized for the user. */
  predicate ReadsAuthorized(st: State, e: Event, code: string, user: string) {
    && e.StartPoll? && PollTask(st.rows, e.code, e.client, e.now).Some?
    && WillGrant(PollTask(st.rows, e.code, e.client, e.now).value, code, user)
  }

  ghost function Reads(st: State, es: seq<Event>, code: string, user: string): nat
    requires LegalRun(st, es)
    decreases |es|
  {
    if es == [] then 0
    else (if ReadsAuthorized(st, es[0], code, user) then 1 else 0) + Reads(Apply(st, es[0]), es[1..], code, user)
  }

  /** One step: a poll that reads the row authorized opens a grant, and every open grant is
      answered once. */
  lemma {:induction false} StepCounts(st: State, e: Event, code: string, user: string)
    requires Legal(st, e)
    ensures
      var st', g := Apply(st, e), (code, user);
      st'.granted[g] + |Open(st', code, user)| ==
        st.granted[g] + |Open(st, code, user)| + if ReadsAuthorized(st, e, code, user) then 1 else 0
  {
    if e.Continue? {
      ContinueCounts(st, e.req, code, user);
    } else {
      var st' := Apply(st, e);
      assert st'.granted == st.granted;
      if st'.tasks != st.tasks {
        assert st'.tasks == st.tasks[e.req := st'.tasks[e.req]];
        OpenWith(st.tasks, e.req, st'.tasks[e.req], code, user);
      }
    }
  }

  lemma {:induction false} ContinueCounts(st: State, req: int, code: string, user: string)
    requires req in st.tasks
    ensures
      var st', g := Apply(st, Continue(req)), (code, user);
      st'.granted[g] + |Open(st', code, user)| == st.granted[g] + |Open(st, code, user)|
  {
    var task, st' := st.tasks[req], Apply(st, Continue(req));
    var before, after := Open(st, code, user), Open(st', code, user);
    if task.Granting? && WillGrant(task, code, user) {
      assert after == before - {req} && req in before;
    } else {
      assert after == before;
    }
  }

  lemma {:induction false} RunCounts(st: State, es: seq<Event>, code: string, user: string)
    requires LegalRun(st, es)
    ensures
      var end, g := Run(st, es), (code, user);
      end.granted[g] + |Open(end, code, user)| == st.granted[g] + |Open(st, code, user)| + Reads(st, es, code, user)
    decreases |es|
  {
    if es != [] {
      StepCounts(st, es[0], code, user);
      RunCounts(Apply(st, es[0]), es[1..], code, user);
    }
  }

  /** Exactly how single the use of a device code is: once no poll is under way, tokens have
      been granted as often as polls had read the row as authorized. So a code is granted
      twice if and only if a second poll reads the row before the first one has consumed it;
      consuming is a guarded update, but its result is not looked at. */
  lemma {:induction false} GrantedTwiceIff(es: seq<Event>, code: string, user: string)
    requires LegalRun(EMPTY, es) && Run(EMPTY, es).tasks == map[]
    ensures Run(EMPTY, es).granted[(code, user)] == Reads(EMPTY, es, code, user)
    ensures Run(EMPTY, es).granted[(code, user)] >= 2 <==> Reads(EMPTY, es, code, user) >= 2
  {
    RunCounts(EMPTY, es, code, user);
    assert Open(Run(EMPTY, es), code, user) == {} && Open(EMPTY, code, user) == {};
  }

  /** Two polls that have read the row as authorized are both answered with tokens. */
  lemma {:induction false} BothGranted(st: State, r: Row, code: string, user: string, now: int, a: int, b: int)
    requires a != b && st.tasks == map[a := Polled(code, now, r), b := Polled(code, now, r)]
    requires r.status == Authorized && r.user == Some(user)
    ensures
      var es := [Continue(a), Continue(b), Continue(a), Continue(b)];
      LegalRun(st, es) && Run(st, es).granted[(code, user)] == st.granted[(code, user)] + 2
  {
    var s1 := Apply(st, Continue(a));
    assert s1.tasks == map[a := Granting(code, user), b := Polled(code, now, r)];
    var s2 := Apply(s1, Continue(b));
    assert s2.tasks == map[a := Granting(code, user), b := Granting(code, user)];
    var s3 := Apply(s2, Continue(a));
    assert s3.tasks == map[b := Granting(code, user)];
    RunCons(s3, Continue(b), []);
    RunCons(s2, Continue(a), [Continue(b)]);
    RunCons(s1, Continue(b), [Continue(a), Continue(b)]);
    RunCons(st, Continue(a), [Continue(b), Continue(a), Continue(b)]);
    assert [Continue(b)] + [] == [Continue(b)];
    assert [Continue(a)] + [Continue(b)] == [Continue(a), Continue(b)];
    assert [Continue(b)] + [Continue(a), Continue(b)] == [Continue(b), Continue(a), Continue(b)];
    assert [Continue(a)] + [Continue(b), Continue(a), Continue(b)] ==
        [Continue(a), Continue(b), Continue(a), Continue(b)];
  }

  /** Two polls that start one after the other on an authorized row are both answered with
      tokens. */
  lemma {:induction false} TwoPollsTwoGrants(st: State, code: string, user: string, now: int, a: int, b: int)
    requires st.tasks == map[] && a != b && code in st.rows
    requires st.rows[code].status == Authorized && st.rows[code].user == Some(user)
    requires st.rows[code].lastPolled.None? && now <= st.rows[code].expiresAt
    ensures
      var client := st.rows[code].client;
      var es := [StartPoll(a, code, client, now), StartPoll(b, code, client, now), Continue(a), Continue(b),
                 Continue(a), Continue(b)];
      LegalRun(st, es) && Run(st, es).granted[(code, user)] == st.granted[(code, user)] + 2
  {
    var r, rest := st.rows[code], [Continue(a), Continue(b), Continue(a), Continue(b)];
    var e0, e1 := StartPoll(a, code, r.client, now), StartPoll(b, code, r.client, now);
    var s1 := Apply(st, e0);
    assert s1.tasks == map[a := Polled(code, now, r)];
    var s2 := Apply(s1, e1);
    BothGranted(s2, r, code, user, now, a, b);
    RunCons(s1, e1, rest);
    RunCons(st, e0, [e1] + rest);
    assert [e0] + ([e1] + rest) == [e0, e1, Continue(a), Continue(b), Continue(a), Continue(b)];
  }

  // --------------------------------------------------------- the statements

  /** Each step writes the table as one statement of the store does. */
  method Perform(store: DeviceCodeStore, e: Event, ghost st: State, task: Option<Task>)
    requires store.rows == st.rows && Inv(st) && Legal(st, e)
    requires task == if e.Continue? then Some(st.tasks[e.req]) else None
    modifies store
    ensures store.rows == Apply(st, e).rows
  {
    match e
    case Insert(code, row) => var _ := store.CreateDeviceCode(code, row);
    case Clean(threshold) => store.DeleteExpired(threshold);
    case Continue(_) =>
      match task.value {
        case Authorizing(userCode, approver) => store.AuthorizeDeviceCode(userCode, approver);
        case Denying(userCode) => store.DenyDeviceCode(userCode);
        case SlowPolled(code, now) => store.UpdateLastPolledAt(code, now);
        case SlowCounting(code) => store.IncrementInterval(code);
        case Polled(code, now, _) => store.UpdateLastPolledAt(code, now);
        case Granting(code, _) => store.ConsumeDeviceCode(code);
      }
    case _ =>
  }

  /** A poll that starts after the code was granted never reaches a grant. */
  lemma {:induction false} NoGrantAfterGrant(st: State, code: string, client: string, now: int, grantee: string)
    requires Inv(st) && (code, grantee) in st.granted
    ensures
      var task := PollTask(st.rows, code, client, now);
      task.Some? && task.value.Polled? ==> task.value.snapshot.status == Consumed
  {
  }

  // ------------------------------------------- what a poll is told, and the cleaner

  datatype PollAnswer =
    | InvalidCode | OtherClient | ExpiredToken | SlowDown | StillPending | AccessDenied | NoUser
    | Tokens(user: string, scope: string) | InvalidStatus

  /** The answer to a poll, told apart by error and description. It is fixed by the row that the
      poll reads first. */
  function PollAnswerOn(t: Table, code: string, client: string, now: int): PollAnswer {
    if code !in t then InvalidCode
    else
      var r := t[code];
      if r.client != client then OtherClient
      else if now > r.expiresAt then ExpiredToken
      else if r.lastPolled.Some? && now - r.lastPolled.value < r.interval * SECOND then SlowDown
      else
        match r.status
        case Pending => StillPending
        case Denied => AccessDenied
        case Authorized => if r.user.None? then NoUser else Tokens(r.user.value, r.scope)
        case Consumed => InvalidStatus
  }

  /** It fits what the poll goes on to do. */
  lemma {:induction false} PollAnswerFits(t: Table, code: string, client: string, now: int)
    ensures
      var task, answer := PollTask(t, code, client, now), PollAnswerOn(t, code, client, now);
      && (task.None? <==> answer.InvalidCode? || answer.OtherClient? || answer.ExpiredToken?)
      && (task.Some? && task.value.SlowPolled? <==> answer.SlowDown?)
      && (forall user :: task.Some? && WillGrant(task.value, code, user) <==>
            answer.Tokens? && answer.user == user && answer.scope == t[code].scope)
  {
  }

  /** Every answer by the row and the time, for a poll of a code that is there. */
  lemma {:induction false} PollAnswersIff(t: Table, code: string, client: string, now: int)
    requires code in t
    ensures
      var r, answer := t[code], PollAnswerOn(t, code, client, now);
      var inTurn := r.client == client && now <= r.expiresAt
        && (r.lastPolled.Some? ==> now >= r.lastPolled.value + r.interval * SECOND);
      && (answer == OtherClient <==> r.client != client)
      && (answer == ExpiredToken <==> r.client == client && now > r.expiresAt)
      && (answer == SlowDown <==> r.client == client && now <= r.expiresAt && !inTurn)
      && (answer == StillPending <==> inTurn && r.status == Pending)
      && (answer == AccessDenied <==> inTurn && r.status == Denied)
      && (answer == InvalidStatus <==> inTurn && r.status == Consumed)
      && (answer.Tokens? <==> inTurn && r.status == Authorized && r.user.Some?)
  {
  }

  /** A poll stamps its row, whether it comes too early or not: another one within the interval is
      told to slow down, and one that waits is answered by the status. */
  lemma {:induction false} NextPoll(t: Table, task: Task, code: string, client: string, now: int)
    requires (task.Polled? || task.SlowPolled?) && task.code == code && code in t
    requires t[code].client == client && now <= t[code].expiresAt
    ensures
      var after := Statement(t, task);
      && code in after
      && (PollAnswerOn(after, code, client, now) == SlowDown <==> now - task.now < t[code].interval * SECOND)
      && after[code].(lastPolled := None) == t[code].(lastPolled := None)
      && forall c :: c in t && c != code ==> c in after && after[c] == t[c]
  {
  }

  /** The decision is about the row, which is pending and, for an approval, has not expired. */
  predicate OpenFor(r: Row, e: Event)
    requires e.StartAuthorize? || e.StartDeny?
  {
    r.userCode == e.userCode && r.status == Pending && (e.StartAuthorize? ==> e.now <= r.expiresAt)
  }

  /** A decision on the device page starts exactly for a row that is pending, and an approval only
      for one that has not expired. */
  lemma {:induction false} DecisionStartsIff(st: State, e: Event)
    requires Legal(st, e) && (e.StartAuthorize? || e.StartDeny?)
    ensures Apply(st, e).rows == st.rows
    ensures e.req in Apply(st, e).tasks <==> exists c :: c in st.rows && OpenFor(st.rows[c], e)
    ensures e.req in Apply(st, e).tasks && e.StartAuthorize? ==>
      Apply(st, e).tasks[e.req] == Authorizing(e.userCode, e.approver)
    ensures e.req in Apply(st, e).tasks && e.StartDeny? ==> Apply(st, e).tasks[e.req] == Denying(e.userCode)
  {
    if e.req in Apply(st, e).tasks {
      var c :| c in st.rows && st.rows[c].userCode == e.userCode
        && CheckRow(st.rows[c], if e.StartAuthorize? then e.now else 0, e.StartAuthorize?) == Go;
      assert OpenFor(st.rows[c], e);
    }
    if c :| c in st.rows && OpenFor(st.rows[c], e) {
      assert CheckRow(st.rows[c], if e.StartAuthorize? then e.now else 0, e.StartAuthorize?) == Go;
    }
  }

  /** What the two decisions and the consumption do to a row with that code, and to no other. */
  lemma {:induction false} DecisionsWrite(t: Table, userCode: string, user: string, code: string)
    ensures
      var yes, no, used := AuthorizeUpdate(t, userCode, user), DenyUpdate(t, userCode), ConsumeUpdate(t, code);
      && yes.Keys == no.Keys == used.Keys == t.Keys
      && forall c :: c in t ==>
           var pending := t[c].userCode == userCode && t[c].status == Pending;
           && (pending ==> yes[c].status == Authorized && yes[c].user == Some(user) && no[c].status == Denied)
           && (!pending ==> yes[c] == no[c] == t[c])
           && (c == code && t[c].status == Authorized ==> used[c].status == Consumed)
           && (c != code || t[c].status != Authorized ==> used[c] == t[c])
           && yes[c].(status := Pending, user := None) == t[c].(status := Pending, user := None)
           && no[c].(status := Pending) == used[c].(status := Pending) == t[c].(status := Pending)
  {
  }

  /** A deletion by the cleaner changes the answer to a poll if and only if the row was there and
      falls under the threshold. With a threshold that is not in the future no live code is
      lost: all that changes is how a code that has expired is turned down. */
  lemma {:induction false} CleanShowsIff(t: Table, threshold: int, code: string, client: string, now: int)
    ensures PollAnswerOn(Unexpired(t, threshold), code, client, now) != PollAnswerOn(t, code, client, now) <==>
      code in t && t[code].expiresAt < threshold
    ensures
      var before, after := PollAnswerOn(t, code, client, now), PollAnswerOn(Unexpired(t, threshold), code, client, now);
      threshold <= now && after != before ==> after == InvalidCode && (before.OtherClient? || before.ExpiredToken?)
  {
  }

  /** Some tick of the run had a threshold past the expiry. */
  predicate CleanedPast(es: seq<Event>, expiresAt: int) {
    exists i :: 0 <= i < |es| && es[i].Clean? && expiresAt < es[i].threshold
  }

  lemma {:induction false} CleanedPastCons(es: seq<Event>, expiresAt: int)
    requires es != []
    ensures CleanedPast(es, expiresAt) <==>
      (es[0].Clean? && expiresAt < es[0].threshold) || CleanedPast(es[1..], expiresAt)
  {
    if CleanedPast(es[1..], expiresAt) {
      var i :| 0 <= i < |es[1..]| && es[1..][i].Clean? && expiresAt < es[1..][i].threshold;
      assert es[i + 1] == es[1..][i];
    }
    if CleanedPast(es, expiresAt) {
      var i :| 0 <= i < |es| && es[i].Clean? && expiresAt < es[i].threshold;
      assert i > 0 ==> es[1..][i - 1] == es[i];
    }
  }

  /** Over whole runs, under every interleaving: a poll is told that its code is unknown if and
      only if some tick since had a threshold past the code's expiry. */
  lemma {:induction false} PollKnowsCodeIff(st: State, es: seq<Event>, code: string, client: string, now: int)
    requires Inv(st) && LegalRun(st, es) && code in st.rows
    ensures PollAnswerOn(Run(st, es).rows, code, client, now) == InvalidCode <==>
      CleanedPast(es, st.rows[code].expiresAt)
    decreases |es|
  {
    if es != [] {
      var e, rest, next := es[0], es[1..], Apply(st, es[0]);
      CleanedPastCons(es, st.rows[code].expiresAt);
      StepKeepsInv(st, e);
      StepKeepsKeys(st, e);
      if code in next.rows {
        StepAdvances(st, e, code);
        PollKnowsCodeIff(next, rest, code, client, now);
      } else {
        OnlyCleanDeletes(st, e, code);
        GoneStaysGone(next, rest, code);
      }
    }
  }

  lemma {:induction false} OnlyCleanDeletes(st: State, e: Event, code: string)
    requires Legal(st, e) && code in st.rows
    ensures code in Apply(st, e).rows <==> !(e.Clean? && st.rows[code].expiresAt < e.threshold)
  {
  }

  /** The handler answers "authorized" whenever its UPDATE ran without error. The row is
      really authorized for that user exactly when it was still pending at the UPDATE, or
      had been authorized for the same user in between. */
  lemma {:induction false} AuthorizedAnswerIsTrueIff(t: Table, code: string, userCode: string, user: string)
    requires code in t && t[code].userCode == userCode && Bound(t[code])
    ensures
      var after := AuthorizeUpdate(t, userCode, user)[code];
      after.status == Authorized && after.user == Some(user) <==>
        t[code].status == Pending || (t[code].status == Authorized && t[code].user == Some(user))
  {
  }

  /** It can be false: the check passes, a denial gets in between, and the request still
      runs its UPDATE and answers "authorized". */
  lemma {:induction false} AuthorizedAnswerCanBeFalse(row: Row, user: string)
    requires row.status == Pending && row.user == None
    ensures
      var es := [Insert("d", row), StartAuthorize(1, row.userCode, user, row.expiresAt),
                 StartDeny(2, row.userCode), Continue(2), Continue(1)];
      && LegalRun(EMPTY, es) && "d" in Run(EMPTY, es).rows
      && Run(EMPTY, es).rows["d"].status == Denied && Run(EMPTY, es).tasks == map[]
  {
    var e0 := Insert("d", row);
    var e1 := StartAuthorize(1, row.userCode, user, row.expiresAt);
    var e2 := StartDeny(2, row.userCode);
    var s1 := Apply(EMPTY, e0);
    assert s1.rows == map["d" := row];
    assert s1.rows["d"].userCode == row.userCode;
    var s2 := Apply(s1, e1);
    assert s2.tasks == map[1 := Authorizing(row.userCode, user)];
    var s3 := Apply(s2, e2);
    assert s3.tasks == map[1 := Authorizing(row.userCode, user), 2 := Denying(row.userCode)];
    var s4 := Apply(s3, Continue(2));
    RunCons(s4, Continue(1), []);
    RunCons(s3, Continue(2), [Continue(1)]);
    RunCons(s2, e2, [Continue(2), Continue(1)]);
    RunCons(s1, e1, [e2, Continue(2), Continue(1)]);
    RunCons(EMPTY, e0, [e1, e2, Continue(2), Continue(1)]);
    assert [e0] + [e1, e2, Continue(2), Continue(1)] == [e0, e1, e2, Continue(2), Continue(1)];
    assert [e1] + [e2, Continue(2), Continue(1)] == [e1, e2, Continue(2), Continue(1)];
    assert [e2] + [Continue(2), Continue(1)] == [e2, Continue(2), Continue(1)];
    assert [Continue(2)] + [Continue(1)] == [Continue(2), Continue(1)];
    assert [Continue(1)] + [] == [Continue(1)];
  }

  lemma {:induction false} RunCons(st: State, e: Event, es: seq<Event>)
    requires Legal(st, e) && LegalRun(Apply(st, e), es)
    ensures LegalRun(st, [e] + es) && Run(st, [e] + es) == Run(Apply(st, e), es)
  {
  }
}
