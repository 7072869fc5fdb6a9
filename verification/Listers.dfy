/** The listers that splice a base condition, a date range, a search clause and the
    output of `BuildListQuery` into one count query and one page query:
    `pkg/deletion/read.go`, `pkg/audit/read.go` and the two in `pkg/idpsession/read.go`.

    A row is given by the conditions that hold of it; `rows` is the FROM clause's result, and
    `rank` says how the database compares the values of a column. */
module Listers {
  import opened Common
  import opened SqlText
  import opened ListQuery

  type Row = set<Atom>

  /** The rows that a WHERE clause selects, in order. */
  function Matching(rows: seq<Row>, ts: seq<Token>, args: seq<string>): seq<Row> {
    if rows == [] then []
    else (if Selects(ts, args, rows[0]) then [rows[0]] else []) + Matching(rows[1..], ts, args)
  }

  /** `LIMIT limit OFFSET offset`. */
  function Page(rows: seq<Row>, limit: int, offset: int): seq<Row>
    requires limit >= 0 && offset >= 0
  {
    if offset >= |rows| then []
    else if offset + limit >= |rows| then rows[offset..] else rows[offset..offset + limit]
  }

  /** The rows that meet a condition stated without any SQL. */
  ghost function Where(rows: seq<Row>, wanted: Row -> bool): seq<Row> {
    if rows == [] then [] else (if wanted(rows[0]) then [rows[0]] else []) + Where(rows[1..], wanted)
  }

  /** How the database compares two rows by a column: the rank of the column's value. */
  type Ranking = (string, Row) -> int

  /** `a` may come before `b`. */
  predicate InOrder(a: Row, b: Row, rank: Ranking, col: string, descending: bool) {
    if descending then rank(col, a) >= rank(col, b) else rank(col, a) <= rank(col, b)
  }

  function Insert(r: Row, rows: seq<Row>, rank: Ranking, col: string, descending: bool): seq<Row> {
    if rows == [] || InOrder(r, rows[0], rank, col, descending) then [r] + rows
    else [rows[0]] + Insert(r, rows[1..], rank, col, descending)
  }

  /** `ORDER BY col ASC` or `DESC`. */
  function OrderBy(rows: seq<Row>, rank: Ranking, col: string, descending: bool): seq<Row> {
    if rows == [] then [] else Insert(rows[0], OrderBy(rows[1..], rank, col, descending), rank, col, descending)
  }

  ghost predicate Ordered(rows: seq<Row>, rank: Ranking, col: string, descending: bool) {
    forall i, j :: 0 <= i < j < |rows| ==> InOrder(rows[i], rows[j], rank, col, descending)
  }

  lemma {:induction false} InsertKeeps(r: Row, rows: seq<Row>, rank: Ranking, col: string, descending: bool)
    requires Ordered(rows, rank, col, descending)
    ensures Ordered(Insert(r, rows, rank, col, descending), rank, col, descending)
    ensures multiset(Insert(r, rows, rank, col, descending)) == multiset{r} + multiset(rows)
  {
    if rows != [] {
      assert rows == [rows[0]] + rows[1..];
      if !InOrder(r, rows[0], rank, col, descending) {
        var rest := Insert(r, rows[1..], rank, col, descending);
        InsertKeeps(r, rows[1..], rank, col, descending);
        forall j | 0 <= j < |rest| ensures InOrder(rows[0], rest[j], rank, col, descending) {
          InsertedIsOld(r, rows[1..], rank, col, descending, j);
        }
        Precedes(rows[0], rest, rank, col, descending);
      } else {
        Precedes(r, rows, rank, col, descending);
      }
    }
  }

  lemma {:induction false} InsertedIsOld(r: Row, rows: seq<Row>, rank: Ranking, col: string, descending: bool, j: nat)
    requires j < |Insert(r, rows, rank, col, descending)|
    ensures Insert(r, rows, rank, col, descending)[j] == r || Insert(r, rows, rank, col, descending)[j] in rows
  {
    if rows != [] && !InOrder(r, rows[0], rank, col, descending) && j > 0 {
      InsertedIsOld(r, rows[1..], rank, col, descending, j - 1);
    }
  }

  lemma {:induction false} Precedes(r: Row, rows: seq<Row>, rank: Ranking, col: string, descending: bool)
    requires Ordered(rows, rank, col, descending)
    requires rows != [] ==> InOrder(r, rows[0], rank, col, descending)
    ensures Ordered([r] + rows, rank, col, descending)
  {
    forall j | 0 <= j < |rows| ensures InOrder(r, rows[j], rank, col, descending) {
    }
  }

  /** It is a sorted permutation. */
  lemma {:induction false} OrderBySorts(rows: seq<Row>, rank: Ranking, col: string, descending: bool)
    ensures Ordered(OrderBy(rows, rank, col, descending), rank, col, descending)
    ensures multiset(OrderBy(rows, rank, col, descending)) == multiset(rows)
  {
    if rows != [] {
      OrderBySorts(rows[1..], rank, col, descending);
      InsertKeeps(rows[0], OrderBy(rows[1..], rank, col, descending), rank, col, descending);
      assert rows == [rows[0]] + rows[1..];
    }
  }

  /** A selection has exactly the rows that meet the condition, each as often. */
  lemma {:induction false} WhereSelects(rows: seq<Row>, wanted: Row -> bool, r: Row)
    ensures multiset(Where(rows, wanted))[r] == if wanted(r) then multiset(rows)[r] else 0
  {
    if rows != [] {
      WhereSelects(rows[1..], wanted, r);
      assert rows == [rows[0]] + rows[1..];
    }
  }

  lemma {:induction false} WhereMembers(rows: seq<Row>, wanted: Row -> bool)
    ensures forall r :: r in Where(rows, wanted) ==> r in rows && wanted(r)
  {
    forall r | r in Where(rows, wanted) ensures r in rows && wanted(r) {
      WhereSelects(rows, wanted, r);
      assert r in multiset(Where(rows, wanted)) && (r in multiset(rows) <==> r in rows);
    }
  }

  lemma {:induction false} WhereKeepsOrder(rows: seq<Row>, wanted: Row -> bool, rank: Ranking, col: string,
                                           descending: bool)
    requires Ordered(rows, rank, col, descending)
    ensures Ordered(Where(rows, wanted), rank, col, descending)
  {
    if rows != [] {
      var rest := Where(rows[1..], wanted);
      WhereKeepsOrder(rows[1..], wanted, rank, col, descending);
      WhereMembers(rows[1..], wanted);
      forall j | 0 <= j < |rest| ensures InOrder(rows[0], rest[j], rank, col, descending) {
        assert rest[j] in rows[1..];
      }
    }
  }

  /** The selected rows in the requested order. */
  ghost function Listed(rows: seq<Row>, wanted: Row -> bool, rank: Ranking, q: ListResult): seq<Row> {
    Where(OrderBy(rows, rank, q.sortCol, q.descending), wanted)
  }

  /** What both queries of a lister must return. */
  ghost predicate Answers(rows: seq<Row>, wanted: Row -> bool, rank: Ranking, q: ListResult, items: seq<Row>,
                          total: nat)
    requires q.limit >= 0 && q.offset >= 0
  {
    total == |Listed(rows, wanted, rank, q)| && items == Page(Listed(rows, wanted, rank, q), q.limit, q.offset)
  }

  /** So the list has exactly the rows wanted, each as often as there are, sorted by the column in
      the direction, and the count query, which does not sort, counts them. */
  lemma {:induction false} ListedExactly(rows: seq<Row>, wanted: Row -> bool, rank: Ranking, q: ListResult)
    ensures forall r :: multiset(Listed(rows, wanted, rank, q))[r] == if wanted(r) then multiset(rows)[r] else 0
    ensures Ordered(Listed(rows, wanted, rank, q), rank, q.sortCol, q.descending)
    ensures
      var list, key := Listed(rows, wanted, rank, q), q.sortCol;
      && (q.descending ==> forall i, j :: 0 <= i < j < |list| ==> rank(key, list[i]) >= rank(key, list[j]))
      && (!q.descending ==> forall i, j :: 0 <= i < j < |list| ==> rank(key, list[i]) <= rank(key, list[j]))
    ensures |Listed(rows, wanted, rank, q)| == |Where(rows, wanted)|
  {
    var sorted := OrderBy(rows, rank, q.sortCol, q.descending);
    OrderBySorts(rows, rank, q.sortCol, q.descending);
    WhereKeepsOrder(sorted, wanted, rank, q.sortCol, q.descending);
    forall r ensures multiset(Where(sorted, wanted))[r] == multiset(Where(rows, wanted))[r]
      && multiset(Where(rows, wanted))[r] == if wanted(r) then multiset(rows)[r] else 0
    {
      WhereSelects(sorted, wanted, r);
      WhereSelects(rows, wanted, r);
    }
    assert multiset(Where(sorted, wanted)) == multiset(Where(rows, wanted));
    assert |Where(sorted, wanted)| == |multiset(Where(sorted, wanted))|;
  }

  /** A page is sorted like the list it is cut from. */
  lemma {:induction false} PageIsOrdered(rows: seq<Row>, limit: int, offset: int, rank: Ranking, col: string,
                                         descending: bool)
    requires limit >= 0 && offset >= 0 && Ordered(rows, rank, col, descending)
    ensures Ordered(Page(rows, limit, offset), rank, col, descending)
    ensures |Page(rows, limit, offset)| <= limit
  {
  }

  /** The two queries of a lister, as it runs them, give the answer; and the page is sorted. */
  lemma {:induction false} TwoQueriesAnswer(rows: seq<Row>, wanted: Row -> bool, rank: Ranking, q: ListResult,
                                            where: seq<Token>, args: seq<string>)
    requires q.limit >= 0 && q.offset >= 0
    requires Matching(rows, where, args) == Where(rows, wanted)
    requires
      var sorted := OrderBy(rows, rank, q.sortCol, q.descending);
      Matching(sorted, where, args) == Where(sorted, wanted)
    ensures
      var items := Page(Matching(OrderBy(rows, rank, q.sortCol, q.descending), where, args), q.limit, q.offset);
      && Answers(rows, wanted, rank, q, items, |Matching(rows, where, args)|)
      && Ordered(items, rank, q.sortCol, q.descending) && |items| <= q.limit
  {
    ListedExactly(rows, wanted, rank, q);
    PageIsOrdered(Listed(rows, wanted, rank, q), q.limit, q.offset, rank, q.sortCol, q.descending);
  }

  lemma {:induction false} SplicedQueryMeans(rows: seq<Row>, first: Conjunct, cs: seq<Conjunct>,
                                             ts: seq<Token>, args: seq<string>, wanted: Row -> bool)
    requires WellFormed(cs) && first.One?
    requires ts == ConjunctText(first) + Fragment(cs) && args == ConjunctArgs(first) + FragmentArgs(cs)
    requires forall t :: wanted(t) <==> ConjunctHolds(first, t) && AllHold(cs, t)
    ensures Matching(rows, ts, args) == Where(rows, wanted)
  {
    if rows != [] {
      ClauseMeaning(first, cs, rows[0]);
      SplicedQueryMeans(rows[1..], first, cs, ts, args, wanted);
    }
  }

  /** Fragments are spliced by concatenating their texts and, in the same order, their
      argument lists. */
  lemma {:induction false} Splice(a: seq<Conjunct>, b: seq<Conjunct>)
    requires WellFormed(a) && WellFormed(b)
    ensures WellFormed(a + b)
    ensures Fragment(a + b) == Fragment(a) + Fragment(b)
    ensures FragmentArgs(a + b) == FragmentArgs(a) + FragmentArgs(b)
    ensures forall t :: AllHold(a + b, t) <==> AllHold(a, t) && AllHold(b, t)
  {
    FragmentConcat(a, b);
    forall t ensures AllHold(a + b, t) <==> AllHold(a, t) && AllHold(b, t) {
      ConcatHolds(a, b, t);
    }
  }

  lemma {:induction false} SpliceTwo(rows: seq<Row>, first: Conjunct, a: ListFragment, b: ListFragment,
          wanted: Row -> bool)
    requires first.One? && Ok(a) && Ok(b)
    requires forall t :: wanted(t) <==> ConjunctHolds(first, t) && AllHold(a.cs, t) && AllHold(b.cs, t)
    ensures Matching(rows, ConjunctText(first) + a.where + b.where, ConjunctArgs(first) + a.args + b.args)
      == Where(rows, wanted)
  {
    Splice(a.cs, b.cs);
    var x, y := ConjunctText(first), ConjunctArgs(first);
    Assoc(x, a.where, b.where);
    Assoc(y, a.args, b.args);
    SplicedQueryMeans(rows, first, a.cs + b.cs, x + a.where + b.where, y + a.args + b.args, wanted);
  }

  /** Three fragments behind a base condition, as the listers splice them. */
  lemma {:induction false} SpliceThree(rows: seq<Row>, first: Conjunct, a: ListFragment, b: ListFragment,
          c: ListFragment, wanted: Row -> bool)
    requires first.One? && Ok(a) && Ok(b) && Ok(c)
    requires forall t :: wanted(t) <==>
      ConjunctHolds(first, t) && AllHold(a.cs, t) && AllHold(b.cs, t) && AllHold(c.cs, t)
    ensures Matching(rows, ConjunctText(first) + a.where + b.where + c.where,
                     ConjunctArgs(first) + a.args + b.args + c.args) == Where(rows, wanted)
  {
    Splice(a.cs, b.cs);
    Splice(a.cs + b.cs, c.cs);
    var x, y := ConjunctText(first), ConjunctArgs(first);
    Assoc(x, a.where, b.where);
    Assoc(x, a.where + b.where, c.where);
    Assoc(y, a.args, b.args);
    Assoc(y, a.args + b.args, c.args);
    SplicedQueryMeans(rows, first, a.cs + b.cs + c.cs, x + a.where + b.where + c.where,
                      y + a.args + b.args + c.args, wanted);
  }

  /** A printed fragment with the conjuncts it prints. */
  datatype ListFragment = ListFragment(where: seq<Token>, args: seq<string>, cs: seq<Conjunct>)

  ghost predicate Ok(f: ListFragment) {
    Prints(f.where, f.args, f.cs)
  }

  ghost predicate AnyLike(columns: seq<string>, search: string, t: Row) {
    exists i :: 0 <= i < |columns| && AtomHolds(Test(columns[i], Like, Pattern(search)), t)
  }

  /** The hand-written search clause of a lister: ` AND (a LIKE ? OR b LIKE ? OR c LIKE ?)`. */
  function SearchText(a: string, b: string, c: string): seq<Token> {
    [And, LPar, Name(a), Op(Like), Hole, Or, Name(b), Op(Like), Hole, Or, Name(c), Op(Like), Hole, RPar]
  }

  lemma {:induction false} SearchTextPrints(a: string, b: string, c: string, search: string) returns (cs: seq<Conjunct>)
    ensures Prints(SearchText(a, b, c), [Pattern(search), Pattern(search), Pattern(search)], cs)
    ensures forall t :: AllHold(cs, t) <==> AnyLike([a, b, c], search, t)
  {
    var p := Pattern(search);
    var atoms := [Test(a, Like, p), Test(b, Like, p), Test(c, Like, p)];
    cs := [AnyOf(atoms)];
    ThreeAlternatives(atoms[0], atoms[1], atoms[2]);
    FragmentOfOne(cs[0]);
    OneHolds(cs[0]);
    forall t ensures ConjunctHolds(cs[0], t) <==> AnyLike([a, b, c], search, t) {
      assert forall i :: 0 <= i < 3 ==> atoms[i] == Test([a, b, c][i], Like, p);
    }
  }

  lemma {:induction false} ThreeAlternatives(x: Atom, y: Atom, z: Atom)
    ensures OrText([x, y, z]) == AtomText(x) + [Or] + AtomText(y) + [Or] + AtomText(z)
    ensures OrArgs([x, y, z]) == AtomArgs(x) + AtomArgs(y) + AtomArgs(z)
  {
    assert [x] + [y] + [z] == [x, y, z] && [x] + [y] == [x, y];
    OrTextAppend([x, y], z);
    OrTextAppend([x], y);
    OrArgsAppend([x, y], z);
    OrArgsAppend([x], y);
    assert OrText([x]) == AtomText(x) && OrArgs([x]) == AtomArgs(x) + OrArgs([]);
  }

  lemma {:induction false} OrTextAppend(atoms: seq<Atom>, a: Atom)
    ensures OrText(atoms + [a]) == OrText(atoms) + (if atoms == [] then [] else [Or]) + AtomText(a)
  {
    if atoms == [] {
      assert OrText([a]) == AtomText(a);
    } else {
      var x, rest := atoms[0], atoms[1..];
      assert (atoms + [a])[0] == x && (atoms + [a])[1..] == rest + [a];
      OrTextAppend(rest, a);
      if rest != [] {
        Assoc([Or], OrText(rest) + [Or], AtomText(a));
        Assoc([Or], OrText(rest), [Or]);
        Assoc(AtomText(x), [Or] + OrText(rest) + [Or], AtomText(a));
        Assoc(AtomText(x), [Or] + OrText(rest), [Or]);
      }
    }
  }

  // -------------------------------------------------------- deletion requests

  const DELETION_CONFIG := ListConfig(
    map["d.requested_at" := true, "u.username" := true, "u.email" := true],
    [], map[], "d.requested_at", DEFAULT_MAX_LIMIT, "")

  const DELETION_SORT_MAP: map<string, string> :=
    map["requested_at" := "d.requested_at", "username" := "u.username", "email" := "u.email"]

  ghost predicate DeletionWanted(search: string, dates: seq<Conjunct>, t: Row) {
    AllHold(dates, t) && (search != "" ==> AnyLike(["u.username", "u.email", "d.reason"], search, t))
  }

  /** Without a search and without filters the compiler's fragment asks for nothing. */
  lemma {:induction false} NothingListed(p: ListParams, cfg: ListConfig)
    requires p.search == "" && cfg.allowedFilters == map[]
    ensures forall t :: Wanted(p, cfg, t)
  {
  }

  lemma {:induction false} DeletionSortColumns()
    ensures forall col :: Enabled(DELETION_CONFIG.allowedSort, col) ==>
      Qualify(DELETION_CONFIG, col) in ["d.requested_at", "u.username", "u.email"]
    ensures Qualify(DELETION_CONFIG, DELETION_CONFIG.defaultSort) == "d.requested_at"
  {
  }

  method ListDeletionRequests(params: ListParams, dateWhere: seq<Token>, dateArgs: seq<string>,
                              ghost dates: seq<Conjunct>, rows: seq<Row>, rank: Ranking)
    returns (items: seq<Row>, total: nat, q: ListResult)
    requires Prints(dateWhere, dateArgs, dates)
    ensures 1 <= q.limit <= ABSOLUTE_MAX_LIMIT && q.offset >= 0
    ensures q.sortCol in ["d.requested_at", "u.username", "u.email"]
    ensures Answers(rows, t => DeletionWanted(params.search, dates, t), rank, q, items, total)
    ensures Ordered(items, rank, q.sortCol, Folded(params.order) == "desc") && |items| <= q.limit
  {
    hide Matching, Where, Ordered, Selects, Page, Qualify, Enabled, Wanted;
    var p := params;
    if p.sort in DELETION_SORT_MAP {
      p := p.(sort := DELETION_SORT_MAP[p.sort]);
    }
    var searchWhere: seq<Token>, searchArgs: seq<string> := [], [];
    ghost var searching: seq<Conjunct> := [];
    if p.search != "" {
      var pattern := Pattern(p.search);
      searchWhere := SearchText("u.username", "u.email", "d.reason");
      searchArgs := [pattern, pattern, pattern];
      searching := SearchTextPrints("u.username", "u.email", "d.reason", p.search);
    }
    p := p.(search := "");
    ghost var listed;
    q, listed := BuildListQuery(p, DELETION_CONFIG);
    DeletionSortColumns();
    NothingListed(p, DELETION_CONFIG);

    var base := [Fact("1=1")];
    var allArgs := dateArgs + searchArgs;
    allArgs := allArgs + q.args;
    var where := base + dateWhere + searchWhere + q.where;
    assert [] + dateArgs == dateArgs;
    var sorted := OrderBy(rows, rank, q.sortCol, q.descending);
    SpliceThree(rows, One(Holds("1=1")), ListFragment(dateWhere, dateArgs, dates),
                ListFragment(searchWhere, searchArgs, searching), ListFragment(q.where, q.args, listed),
                t => DeletionWanted(params.search, dates, t));
    SpliceThree(sorted, One(Holds("1=1")), ListFragment(dateWhere, dateArgs, dates),
                ListFragment(searchWhere, searchArgs, searching), ListFragment(q.where, q.args, listed),
                t => DeletionWanted(params.search, dates, t));
    TwoQueriesAnswer(rows, t => DeletionWanted(params.search, dates, t), rank, q, where, allArgs);
    total := |Matching(rows, where, allArgs)|;
    items := Page(Matching(sorted, where, allArgs), q.limit, q.offset);
  }

  // ------------------------------------------------------------------ audit log

  const AUDIT_CONFIG := ListConfig(
    map["created_at" := true, "event" := true],
    ["actor_username", "target_id", "ip_address", "detail"],
    map["event" := true], "created_at", DEFAULT_MAX_LIMIT, "")

  ghost predicate AuditWanted(params: ListParams, dates: seq<Conjunct>, t: Row) {
    && AllHold(dates, t)
    && (params.search != "" ==> AnyLike(["actor_username", "target_id", "ip_address", "detail"], params.search, t))
    && ("event" in params.filters ==> AtomHolds(Test("event", Eq, params.filters["event"]), t))
  }

  method ListAuditLogs(params: ListParams, dateWhere: seq<Token>, dateArgs: seq<string>,
                       ghost dates: seq<Conjunct>, rows: seq<Row>, rank: Ranking)
    returns (items: seq<Row>, total: nat, q: ListResult)
    requires Prints(dateWhere, dateArgs, dates)
    ensures 1 <= q.limit <= ABSOLUTE_MAX_LIMIT && q.offset >= 0
    ensures Answers(rows, t => AuditWanted(params, dates, t), rank, q, items, total)
    ensures Ordered(items, rank, q.sortCol, Folded(params.order) == "desc") && |items| <= q.limit
  {
    ghost var listed;
    q, listed := BuildListQuery(params, AUDIT_CONFIG);
    var allArgs := dateArgs + q.args;
    var where := [Fact("1=1")] + dateWhere + q.where;
    forall t ensures Wanted(params, AUDIT_CONFIG, t) && AllHold(dates, t) <==> AuditWanted(params, dates, t) {
      AuditListing(params, dates, t);
    }
    assert [] + dateArgs == dateArgs;
    var sorted := OrderBy(rows, rank, q.sortCol, q.descending);
    SpliceTwo(rows, One(Holds("1=1")), ListFragment(dateWhere, dateArgs, dates),
              ListFragment(q.where, q.args, listed), t => AuditWanted(params, dates, t));
    SpliceTwo(sorted, One(Holds("1=1")), ListFragment(dateWhere, dateArgs, dates),
              ListFragment(q.where, q.args, listed), t => AuditWanted(params, dates, t));
    TwoQueriesAnswer(rows, t => AuditWanted(params, dates, t), rank, q, where, allArgs);
    total := |Matching(rows, where, allArgs)|;
    items := Page(Matching(sorted, where, allArgs), q.limit, q.offset);
  }

  lemma {:induction false} AuditListing(params: ListParams, dates: seq<Conjunct>, t: Row)
    ensures Wanted(params, AUDIT_CONFIG, t) && AllHold(dates, t) <==> AuditWanted(params, dates, t)
  {
  }

  // --------------------------------------------------------------- IdP sessions

  const IDP_SESSION_CONFIG := ListConfig(
    map["last_activity_at" := true, "created_at" := true], [], map[], "last_activity_at", DEFAULT_MAX_LIMIT, "s")

  ghost predicate IdpSessionWanted(search: string, dates: seq<Conjunct>, t: Row) {
    && AtomHolds(Holds("s.deactivated_at IS NULL"), t)
    && AllHold(dates, t)
    && (search != "" ==> AnyLike(["u.username", "u.email", "s.ip_address"], search, t))
  }

  lemma {:induction false} IdpSortColumns()
    ensures forall col :: Enabled(IDP_SESSION_CONFIG.allowedSort, col) ==>
      Qualify(IDP_SESSION_CONFIG, col) in ["s.last_activity_at", "s.created_at"]
    ensures Qualify(IDP_SESSION_CONFIG, IDP_SESSION_CONFIG.defaultSort) == "s.last_activity_at"
  {
    assert "s" + "." + "last_activity_at" == "s.last_activity_at";
    assert "s" + "." + "created_at" == "s.created_at";
  }

  method ListIdpSessions(params: ListParams, dateWhere: seq<Token>, dateArgs: seq<string>,
                         ghost dates: seq<Conjunct>, rows: seq<Row>, rank: Ranking)
    returns (items: seq<Row>, total: nat, q: ListResult)
    requires Prints(dateWhere, dateArgs, dates)
    ensures 1 <= q.limit <= ABSOLUTE_MAX_LIMIT && q.offset >= 0
    ensures q.sortCol in ["s.last_activity_at", "s.created_at"]
    ensures Answers(rows, t => IdpSessionWanted(params.search, dates, t), rank, q, items, total)
    ensures Ordered(items, rank, q.sortCol, Folded(params.order) == "desc") && |items| <= q.limit
  {
    var searchWhere: seq<Token>, searchArgs: seq<string> := [], [];
    ghost var searching: seq<Conjunct> := [];
    if params.search != "" {
      var pattern := Pattern(params.search);
      searchWhere := SearchText("u.username", "u.email", "s.ip_address");
      searchArgs := [pattern, pattern, pattern];
      searching := SearchTextPrints("u.username", "u.email", "s.ip_address", params.search);
    }
    ghost var listed;
    q, listed := BuildListQuery(params.(search := ""), IDP_SESSION_CONFIG);
    assert q.sortCol in ["s.last_activity_at", "s.created_at"] by {
      IdpSortColumns();
    }
    var allArgs := dateArgs + searchArgs;
    allArgs := allArgs + q.args;
    var where := [Fact("s.deactivated_at IS NULL")] + dateWhere + searchWhere + q.where;
    assert [] + dateArgs == dateArgs;
    var sorted := OrderBy(rows, rank, q.sortCol, q.descending);
    SpliceThree(rows, One(Holds("s.deactivated_at IS NULL")), ListFragment(dateWhere, dateArgs, dates),
                ListFragment(searchWhere, searchArgs, searching), ListFragment(q.where, q.args, listed),
                t => IdpSessionWanted(params.search, dates, t));
    SpliceThree(sorted, One(Holds("s.deactivated_at IS NULL")), ListFragment(dateWhere, dateArgs, dates),
                ListFragment(searchWhere, searchArgs, searching), ListFragment(q.where, q.args, listed),
                t => IdpSessionWanted(params.search, dates, t));
    TwoQueriesAnswer(rows, t => IdpSessionWanted(params.search, dates, t), rank, q, where, allArgs);
    total := |Matching(rows, where, allArgs)|;
    items := Page(Matching(sorted, where, allArgs), q.limit, q.offset);
  }

  /** `idleCutoff` is None for Go's zero time. */
  ghost predicate DeviceWanted(user: string, idleCutoff: Option<string>, t: Row) {
    && AtomHolds(Test("s.user_id", Eq, user), t)
    && AtomHolds(Holds("s.deactivated_at IS NULL"), t)
    && (idleCutoff.Some? ==> AtomHolds(Test("s.last_activity_at", Gt, idleCutoff.value), t))
  }

  /** The base condition's text, as the lister writes it: two conjuncts. */
  lemma {:induction false} DeviceBase(user: string)
    ensures
      [Name("s.user_id"), Op(Eq), Hole, And, Fact("s.deactivated_at IS NULL")]
        == ConjunctText(One(Test("s.user_id", Eq, user))) + Fragment([One(Holds("s.deactivated_at IS NULL"))])
    ensures ConjunctArgs(One(Test("s.user_id", Eq, user))) == [user]
    ensures Ok(ListFragment(Fragment([One(Holds("s.deactivated_at IS NULL"))]), [],
                            [One(Holds("s.deactivated_at IS NULL"))]))
  {
    FragmentOfOne(One(Holds("s.deactivated_at IS NULL")));
  }

  lemma {:induction false} IdleText(cutoff: string)
    ensures Ok(ListFragment([And, Name("s.last_activity_at"), Op(Gt), Hole], [cutoff],
                            [One(Test("s.last_activity_at", Gt, cutoff))]))
  {
    FragmentOfOne(One(Test("s.last_activity_at", Gt, cutoff)));
  }

  function IdleConjuncts(idleCutoff: Option<string>): seq<Conjunct> {
    if idleCutoff.Some? then [One(Test("s.last_activity_at", Gt, idleCutoff.value))] else []
  }

  lemma {:induction false} DeviceMeaning(user: string, idleCutoff: Option<string>, listed: seq<Conjunct>, t: Row)
    requires AllHold(listed, t)
    ensures DeviceWanted(user, idleCutoff, t) <==>
      && ConjunctHolds(One(Test("s.user_id", Eq, user)), t)
      && AllHold([One(Holds("s.deactivated_at IS NULL"))], t)
      && AllHold(IdleConjuncts(idleCutoff), t) && AllHold(listed, t)
  {
    OneHolds(One(Holds("s.deactivated_at IS NULL")));
    if idleCutoff.Some? {
      OneHolds(IdleConjuncts(idleCutoff)[0]);
    }
  }

  method ListActiveDevicesForUser(user: string, idleCutoff: Option<string>, params: ListParams, rows: seq<Row>,
                                  rank: Ranking)
    returns (items: seq<Row>, total: nat, q: ListResult)
    ensures 1 <= q.limit <= ABSOLUTE_MAX_LIMIT && q.offset >= 0
    ensures Answers(rows, t => DeviceWanted(user, idleCutoff, t), rank, q, items, total)
    ensures Ordered(items, rank, q.sortCol, Folded(params.order) == "desc") && |items| <= q.limit
  {
    ghost var listed;
    q, listed := BuildListQuery(params, IDP_SESSION_CONFIG);
    var baseWhere := [Name("s.user_id"), Op(Eq), Hole, And, Fact("s.deactivated_at IS NULL")];
    var baseArgs := [user];
    var idleWhere: seq<Token> := [];
    ghost var idleArgs: seq<string> := [];
    DeviceBase(user);
    if idleCutoff.Some? {
      idleWhere := [And, Name("s.last_activity_at"), Op(Gt), Hole];
      baseArgs := baseArgs + [idleCutoff.value];
      idleArgs := [idleCutoff.value];
      IdleText(idleCutoff.value);
    }
    var allArgs := baseArgs + q.args;
    var where := baseWhere + idleWhere + q.where;
    assert baseArgs == [user] + [] + idleArgs;
    forall t ensures DeviceWanted(user, idleCutoff, t) <==>
      ConjunctHolds(One(Test("s.user_id", Eq, user)), t) && AllHold([One(Holds("s.deactivated_at IS NULL"))], t)
      && AllHold(IdleConjuncts(idleCutoff), t) && AllHold(listed, t)
    {
      DeviceMeaning(user, idleCutoff, listed, t);
    }
    ghost var active := [One(Holds("s.deactivated_at IS NULL"))];
    var sorted := OrderBy(rows, rank, q.sortCol, q.descending);
    SpliceThree(rows, One(Test("s.user_id", Eq, user)), ListFragment(Fragment(active), [], active),
                ListFragment(idleWhere, idleArgs, IdleConjuncts(idleCutoff)), ListFragment(q.where, q.args, listed),
                t => DeviceWanted(user, idleCutoff, t));
    SpliceThree(sorted, One(Test("s.user_id", Eq, user)), ListFragment(Fragment(active), [], active),
                ListFragment(idleWhere, idleArgs, IdleConjuncts(idleCutoff)), ListFragment(q.where, q.args, listed),
                t => DeviceWanted(user, idleCutoff, t));
    TwoQueriesAnswer(rows, t => DeviceWanted(user, idleCutoff, t), rank, q, where, allArgs);
    total := |Matching(rows, where, allArgs)|;
    items := Page(Matching(sorted, where, allArgs), q.limit, q.offset);
  }

  lemma {:induction false} OneHolds(c: Conjunct)
    ensures forall t :: AllHold([c], t) <==> ConjunctHolds(c, t)
  {
    forall t ensures AllHold([c], t) <==> ConjunctHolds(c, t) {
      assert [c][0] == c;
    }
  }

  // --------------------------------------------------------------------- paging

  /** Asking for page after page, each `limit` further, until the total is reached. */
  function Pages(rows: seq<Row>, limit: int, offset: int): seq<seq<Row>>
    requires limit >= 1 && offset >= 0
    decreases |rows| - offset
  {
    if offset >= |rows| then [] else [Page(rows, limit, offset)] + Pages(rows, limit, offset + limit)
  }

  function Flatten(pages: seq<seq<Row>>): seq<Row> {
    if pages == [] then [] else pages[0] + Flatten(pages[1..])
  }

  /** Stepping the offset by the effective limit visits every selected row exactly once
      and in order: the pages add up to the total. No page is empty, none exceeds the
      limit, and their number is the total over the limit, rounded up. */
  lemma {:induction false} PagesAddUp(rows: seq<Row>, limit: int, offset: int)
    requires limit >= 1 && 0 <= offset <= |rows|
    ensures Flatten(Pages(rows, limit, offset)) == rows[offset..]
    ensures forall i :: 0 <= i < |Pages(rows, limit, offset)| ==> 1 <= |Pages(rows, limit, offset)[i]| <= limit
    ensures (|Pages(rows, limit, offset)| - 1) * limit < |rows| - offset || offset == |rows|
    ensures |Pages(rows, limit, offset)| * limit >= |rows| - offset
    decreases |rows| - offset
  {
    if offset < |rows| {
      var page := Page(rows, limit, offset);
      if offset + limit < |rows| {
        PagesAddUp(rows, limit, offset + limit);
        assert rows[offset..] == page + rows[offset + limit..];
        var n := |Pages(rows, limit, offset + limit)|;
        assert n * limit == (n - 1) * limit + limit && (n + 1) * limit == n * limit + limit;
      } else {
        assert Pages(rows, limit, offset + limit) == [];
        assert Pages(rows, limit, offset) == [page];
        assert Flatten([page]) == page + Flatten([]);
      }
    }
  }
}
