/** The list-query compiler of `pkg/api/listquery.go`: from the sort, search, filter and
    paging parameters of a request to a WHERE fragment with positional arguments. */
module ListQuery {
  import opened Common
  import opened SqlText

  const DEFAULT_MAX_LIMIT := 100
  const ABSOLUTE_MAX_LIMIT := 1000

  datatype ListParams = ListParams(
    sort: string, order: string, search: string, filters: map<string, string>, limit: int, offset: int)

  datatype ListConfig = ListConfig(
    allowedSort: map<string, bool>, searchColumns: seq<string>, allowedFilters: map<string, bool>,
    defaultSort: string, maxLimit: int, tableAlias: string)

  /** `order`, split into its parts: the sort column, the direction, LIMIT and OFFSET. */
  datatype ListResult = ListResult(
    where: seq<Token>, args: seq<string>, sortCol: string, descending: bool, limit: int, offset: int)

  /** A Go map lookup of a bool: absent keys read as false. */
  predicate Enabled(m: map<string, bool>, key: string) {
    key in m && m[key]
  }

  function Qualify(cfg: ListConfig, col: string): string {
    if cfg.tableAlias != "" then cfg.tableAlias + "." + col else col
  }

  function Pattern(search: string): string {
    "%" + search + "%"
  }

  /** `strings.EqualFold(order, "desc")`; the long s (U+017F) folds to s. */
  predicate IsDesc(order: string) {
    && |order| == 4 && order[0] in "dD" && order[1] in "eE"
    && (order[2] in "sS" || order[2] as int == 0x17F) && order[3] in "cC"
  }

  /** Go's simple folding, as far as it meets an ASCII letter: the capitals, the long s (U+017F)
      and the Kelvin sign (U+212A). */
  function Fold(c: char): char {
    if 'A' <= c <= 'Z' then (c as int + 32) as char
    else if c as int == 0x17F then 's' else if c as int == 0x212A then 'k' else c
  }

  function Folded(s: string): string {
    if s == "" then "" else [Fold(s[0])] + Folded(s[1..])
  }

  /** The requested direction is descending exactly for the case variants of "desc". */
  lemma {:induction false} DescendingIff(order: string)
    ensures IsDesc(order) <==> Folded(order) == "desc"
  {
    FoldedAt(order);
    if |order| == 4 {
      assert Folded(order) == "desc" <==>
          Fold(order[0]) == 'd' && Fold(order[1]) == 'e' && Fold(order[2]) == 's' && Fold(order[3]) == 'c';
    }
  }

  lemma {:induction false} FoldedAt(s: string)
    ensures |Folded(s)| == |s| && forall i :: 0 <= i < |s| ==> Folded(s)[i] == Fold(s[i])
  {
    if s != "" {
      FoldedAt(s[1..]);
    }
  }

  function MaxLimit(cfg: ListConfig): (m: int)
    ensures 1 <= m <= ABSOLUTE_MAX_LIMIT
  {
    var m := if cfg.maxLimit <= 0 then DEFAULT_MAX_LIMIT else cfg.maxLimit;
    if m > ABSOLUTE_MAX_LIMIT then ABSOLUTE_MAX_LIMIT else m
  }

  /** The configured limit, 100 if there is none, and never more than 1000. */
  lemma {:induction false} MaxLimitIs(cfg: ListConfig)
    ensures cfg.maxLimit <= 0 ==> MaxLimit(cfg) == 100
    ensures 0 < cfg.maxLimit <= 1000 ==> MaxLimit(cfg) == cfg.maxLimit
    ensures cfg.maxLimit > 1000 ==> MaxLimit(cfg) == 1000
  {
  }

  /** What the request asks for: some search column matches, and every filter that the
      allowlist admits equals its value. */
  ghost predicate Wanted(p: ListParams, cfg: ListConfig, truths: set<Atom>) {
    SearchWanted(p, cfg, truths) && FiltersHold(p, cfg, p.filters.Keys, truths)
  }

  ghost predicate SearchWanted(p: ListParams, cfg: ListConfig, truths: set<Atom>) {
    p.search != "" && cfg.searchColumns != [] ==>
      exists i :: 0 <= i < |cfg.searchColumns|
        && AtomHolds(Test(Qualify(cfg, cfg.searchColumns[i]), Like, Pattern(p.search)), truths)
  }

  /** The allowed filters among `cols` hold; a disallowed filter asks for nothing. */
  ghost predicate FiltersHold(p: ListParams, cfg: ListConfig, cols: set<string>, truths: set<Atom>)
    requires cols <= p.filters.Keys
  {
    forall f :: f in cols && Enabled(cfg.allowedFilters, f) ==>
        AtomHolds(Test(Qualify(cfg, f), Eq, p.filters[f]), truths)
  }

  /** The text and arguments print the conjuncts `cs`. */
  ghost predicate Prints(where: seq<Token>, args: seq<string>, cs: seq<Conjunct>) {
    where == Fragment(cs) && args == FragmentArgs(cs) && WellFormed(cs)
  }

  /** The clause `WHERE base <fragment>`, as the database reads it. */
  ghost predicate SelectsBehind(base: string, where: seq<Token>, args: seq<string>, truths: set<Atom>) {
    Selects([Fact(base)] + where, args, truths)
  }

  /** What the search part of a request prints: one LIKE per search column, as
      alternatives. */
  function SearchConjuncts(p: ListParams, cfg: ListConfig): seq<Conjunct> {
    if p.search == "" || cfg.searchColumns == [] then []
    else [AnyOf(SearchAtoms(p, cfg, |cfg.searchColumns|))]
  }

  function SearchAtoms(p: ListParams, cfg: ListConfig, n: nat): seq<Atom>
    requires n <= |cfg.searchColumns|
  {
    seq(n, i requires 0 <= i < n => Test(Qualify(cfg, cfg.searchColumns[i]), Like, Pattern(p.search)))
  }

  lemma {:induction false} OneMoreColumn(p: ListParams, cfg: ListConfig, i: nat)
    requires i < |cfg.searchColumns|
    ensures AtomTexts(SearchAtoms(p, cfg, i + 1)) ==
      AtomTexts(SearchAtoms(p, cfg, i)) + [[Name(Qualify(cfg, cfg.searchColumns[i])), Op(Like), Hole]]
    ensures OrArgs(SearchAtoms(p, cfg, i + 1)) == OrArgs(SearchAtoms(p, cfg, i)) + [Pattern(p.search)]
  {
    var a := Test(Qualify(cfg, cfg.searchColumns[i]), Like, Pattern(p.search));
    assert SearchAtoms(p, cfg, i + 1) == SearchAtoms(p, cfg, i) + [a];
    OrArgsAppend(SearchAtoms(p, cfg, i), a);
  }

  method SearchConditions(params: ListParams, cfg: ListConfig)
    returns (conditions: seq<seq<Token>>, args: seq<string>)
    ensures conditions == ConjunctTexts(SearchConjuncts(params, cfg))
    ensures args == FragmentArgs(SearchConjuncts(params, cfg))
    ensures forall truths :: AllHold(SearchConjuncts(params, cfg), truths) <==> SearchWanted(params, cfg, truths)
  {
    conditions, args := [], [];
    if params.search != "" && |cfg.searchColumns| > 0 {
      var searchParts: seq<seq<Token>> := [];
      var pattern := Pattern(params.search);
      for i := 0 to |cfg.searchColumns|
        invariant searchParts == AtomTexts(SearchAtoms(params, cfg, i))
        invariant args == OrArgs(SearchAtoms(params, cfg, i))
      {
        var col := Qualify(cfg, cfg.searchColumns[i]);
        OneMoreColumn(params, cfg, i);
        searchParts := searchParts + [[Name(col), Op(Like), Hole]];
        args := args + [pattern];
      }
      var all := SearchAtoms(params, cfg, |cfg.searchColumns|);
      JoinIsOrText(all);
      conditions := [[LPar] + JoinTokens(searchParts, Or) + [RPar]];
      assert FragmentArgs([AnyOf(all)]) == OrArgs(all) + FragmentArgs([]);
    }
    SearchMeaning(params, cfg);
  }

  method BuildListQuery(params: ListParams, cfg: ListConfig) returns (r: ListResult, ghost cs: seq<Conjunct>)
    ensures Prints(r.where, r.args, cs)
    ensures forall truths :: AllHold(cs, truths) <==> Wanted(params, cfg, truths)
    ensures forall base: string, truths ::
      SelectsBehind(base, r.where, r.args, truths) <==>
        AtomHolds(Holds(base), truths) && Wanted(params, cfg, truths)
    ensures r.sortCol == Qualify(cfg,
      if params.sort != "" && Enabled(cfg.allowedSort, params.sort) then params.sort else cfg.defaultSort)
    ensures r.descending <==> Folded(params.order) == "desc"
    ensures 1 <= r.limit <= ABSOLUTE_MAX_LIMIT && r.offset >= 0
    ensures r.limit == if 1 <= params.limit <= MaxLimit(cfg) then params.limit else MaxLimit(cfg)
    ensures params.offset >= 0 ==> r.offset == params.offset
  {
    var conditions, args;
    conditions, args := SearchConditions(params, cfg);
    cs := SearchConjuncts(params, cfg);
    ghost var searched := cs;
    var todo := params.filters.Keys;
    ghost var done: set<string> := {};
    while todo != {}
      invariant done + todo == params.filters.Keys && done !! todo
      invariant WellFormed(cs) && conditions == ConjunctTexts(cs) && args == FragmentArgs(cs)
      invariant forall truths :: AllHold(cs, truths) <==>
        AllHold(searched, truths) && FiltersHold(params, cfg, done, truths)
      decreases todo
    {
      var col :| col in todo;
      if Enabled(cfg.allowedFilters, col) {
        var val := params.filters[col];
        ghost var c := One(Test(Qualify(cfg, col), Eq, val));
        AppendOne(cs, Test(Qualify(cfg, col), Eq, val));
        conditions := conditions + [[Name(Qualify(cfg, col)), Op(Eq), Hole]];
        args := args + [val];
        cs := cs + [c];
      }
      todo := todo - {col};
      done := done + {col};
    }
    var where: seq<Token> := [];
    if |conditions| > 0 {
      where := [And] + JoinTokens(conditions, And);
    }
    JoinIsFragment(cs);

    var sortCol := cfg.defaultSort;
    if params.sort != "" && Enabled(cfg.allowedSort, params.sort) {
      sortCol := params.sort;
    }
    var maxLimit := cfg.maxLimit;
    if maxLimit <= 0 {
      maxLimit := DEFAULT_MAX_LIMIT;
    }
    if maxLimit > ABSOLUTE_MAX_LIMIT {
      maxLimit := ABSOLUTE_MAX_LIMIT;
    }
    var limit := params.limit;
    if limit <= 0 || limit > maxLimit {
      limit := maxLimit;
    }
    var offset := params.offset;
    if offset < 0 {
      offset := 0;
    }
    r := ListResult(where, args, Qualify(cfg, sortCol), IsDesc(params.order), limit, offset);
    DescendingIff(params.order);
    assert done == params.filters.Keys;
    assert forall truths :: AllHold(cs, truths) <==> Wanted(params, cfg, truths);
    ReadBackAll(r.where, r.args, cs);
  }

  lemma {:induction false} SearchMeaning(p: ListParams, cfg: ListConfig)
    ensures forall truths :: AllHold(SearchConjuncts(p, cfg), truths) <==> SearchWanted(p, cfg, truths)
  {
    var cs := SearchConjuncts(p, cfg);
    forall truths ensures AllHold(cs, truths) <==> SearchWanted(p, cfg, truths) {
      if cs != [] {
        assert AllHold(cs, truths) <==> ConjunctHolds(cs[0], truths);
        assert forall i :: 0 <= i < |cfg.searchColumns| ==>
          cs[0].atoms[i] == Test(Qualify(cfg, cfg.searchColumns[i]), Like, Pattern(p.search));
      }
    }
  }

  /** Appending one condition to what has been printed so far. */
  lemma {:induction false} AppendOne(cs: seq<Conjunct>, a: Atom)
    ensures ConjunctTexts(cs + [One(a)]) == ConjunctTexts(cs) + [AtomText(a)]
    ensures FragmentArgs(cs + [One(a)]) == FragmentArgs(cs) + AtomArgs(a)
    ensures WellFormed(cs) ==> WellFormed(cs + [One(a)])
    ensures forall truths :: AllHold(cs + [One(a)], truths) <==> AllHold(cs, truths) && AtomHolds(a, truths)
  {
    FragmentConcat(cs, [One(a)]);
    FragmentOfOne(One(a));
    AppendHolds(cs, One(a));
  }

  lemma {:induction false} AppendHolds(cs: seq<Conjunct>, c: Conjunct)
    ensures forall truths :: AllHold(cs + [c], truths) <==> AllHold(cs, truths) && ConjunctHolds(c, truths)
  {
    forall truths ensures AllHold(cs + [c], truths) <==> AllHold(cs, truths) && ConjunctHolds(c, truths) {
      ConcatHolds(cs, [c], truths);
      assert AllHold([c], truths) <==> ConjunctHolds([c][0], truths);
    }
  }

  lemma {:induction false} ConcatHolds(a: seq<Conjunct>, b: seq<Conjunct>, truths: set<Atom>)
    ensures AllHold(a + b, truths) <==> AllHold(a, truths) && AllHold(b, truths)
  {
    if AllHold(a + b, truths) {
      forall i | 0 <= i < |a| ensures ConjunctHolds(a[i], truths) {
        assert ConjunctHolds((a + b)[i], truths);
      }
      forall i | 0 <= i < |b| ensures ConjunctHolds(b[i], truths) {
        assert ConjunctHolds((a + b)[|a| + i], truths);
      }
    }
  }

  // ------------------------------------------------- strings.Join over fragments

  function JoinTokens(parts: seq<seq<Token>>, sep: Token): seq<Token> {
    if parts == [] then [] else if |parts| == 1 then parts[0] else parts[0] + [sep] + JoinTokens(parts[1..], sep)
  }

  function AtomTexts(atoms: seq<Atom>): seq<seq<Token>> {
    seq(|atoms|, i requires 0 <= i < |atoms| => AtomText(atoms[i]))
  }

  function ConjunctTexts(cs: seq<Conjunct>): seq<seq<Token>> {
    seq(|cs|, i requires 0 <= i < |cs| => ConjunctText(cs[i]))
  }

  lemma {:induction false} JoinIsOrText(atoms: seq<Atom>)
    ensures JoinTokens(AtomTexts(atoms), Or) == OrText(atoms)
  {
    if |atoms| > 1 {
      assert AtomTexts(atoms)[1..] == AtomTexts(atoms[1..]);
      JoinIsOrText(atoms[1..]);
      Assoc(AtomText(atoms[0]), [Or], OrText(atoms[1..]));
    }
  }

  lemma {:induction false} JoinIsFragment(cs: seq<Conjunct>)
    ensures Fragment(cs) == if cs == [] then [] else [And] + JoinTokens(ConjunctTexts(cs), And)
  {
    if |cs| == 1 {
      FragmentOfOne(cs[0]);
      assert cs == [cs[0]];
    } else if |cs| > 1 {
      assert ConjunctTexts(cs)[1..] == ConjunctTexts(cs[1..]);
      JoinIsFragment(cs[1..]);
      var rest := JoinTokens(ConjunctTexts(cs[1..]), And);
      Assoc(ConjunctText(cs[0]), [And], rest);
      Assoc([And], ConjunctText(cs[0]), [And] + rest);
    }
  }

  lemma {:induction false} OrArgsAppend(atoms: seq<Atom>, a: Atom)
    ensures OrArgs(atoms + [a]) == OrArgs(atoms) + AtomArgs(a)
  {
    if atoms == [] {
      assert OrArgs([a]) == AtomArgs(a) + OrArgs([]);
    } else {
      assert (atoms + [a])[1..] == atoms[1..] + [a];
      OrArgsAppend(atoms[1..], a);
    }
  }

  /** Behind any condition without placeholder, the fragment means its conjuncts. */
  lemma {:induction false} ReadBack(base: string, where: seq<Token>, args: seq<string>, cs: seq<Conjunct>,
          truths: set<Atom>)
    requires Prints(where, args, cs)
    ensures SelectsBehind(base, where, args, truths) <==> AtomHolds(Holds(base), truths) && AllHold(cs, truths)
  {
    ClauseMeaning(One(Holds(base)), cs, truths);
    assert ConjunctArgs(One(Holds(base))) + args == args;
  }

  lemma {:induction false} ReadBackAll(where: seq<Token>, args: seq<string>, cs: seq<Conjunct>)
    requires Prints(where, args, cs)
    ensures forall base: string, truths ::
      SelectsBehind(base, where, args, truths) <==> AtomHolds(Holds(base), truths) && AllHold(cs, truths)
  {
    forall base: string, truths
      ensures SelectsBehind(base, where, args, truths) <==> AtomHolds(Holds(base), truths) && AllHold(cs, truths)
    {
      ReadBack(base, where, args, cs, truths);
    }
  }

  // -------------------------------------------------------------- what LIKE means

  predicate SameLetter(a: char, b: char) {
    a == b || ('a' <= a <= 'z' && b as int == a as int - 32) || ('a' <= b <= 'z' && a as int == b as int - 32)
  }

  /** `text LIKE pattern` in SQLite: % stands for any text, _ for any character, and ASCII letters
      match in either case. */
  predicate LikeMatches(pattern: string, text: string)
    decreases |pattern| + |text|
  {
    if pattern == "" then text == ""
    else if pattern[0] == '%' then
      LikeMatches(pattern[1..], text) || (text != "" && LikeMatches(pattern, text[1..]))
    else
      text != "" && (pattern[0] == '_' || SameLetter(pattern[0], text[0])) && LikeMatches(pattern[1..], text[1..])
  }

  predicate SameText(a: string, b: string) {
    |a| == |b| && forall i :: 0 <= i < |a| ==> SameLetter(a[i], b[i])
  }

  predicate Plain(s: string) {
    '%' !in s && '_' !in s
  }

  lemma {:induction false} PercentMatchesAll(text: string)
    ensures LikeMatches("%", text)
  {
    if text != "" {
      PercentMatchesAll(text[1..]);
    }
  }

  /** The text starts with `s`. */
  lemma {:induction false} StartsWith(s: string, text: string)
    requires Plain(s)
    ensures LikeMatches(s + "%", text) <==> |s| <= |text| && SameText(s, text[..|s|])
  {
    if s == "" {
      assert s + "%" == "%";
      PercentMatchesAll(text);
    } else if text != "" {
      assert (s + "%")[0] == s[0] && (s + "%")[1..] == s[1..] + "%";
      StartsWith(s[1..], text[1..]);
      if |s| <= |text| {
        var a, b := text[..|s|], text[1..][..|s| - 1];
        assert b == a[1..];
        assert SameText(s, a) <==> SameLetter(s[0], a[0]) && SameText(s[1..], b) by {
          assert SameText(s[1..], b) ==> forall i :: 0 < i < |s| ==> s[i] == s[1..][i - 1] && a[i] == b[i - 1];
        }
      }
    }
  }

  ghost predicate ContainsAt(text: string, s: string, i: int) {
    0 <= i <= |text| - |s| && SameText(s, text[i..i + |s|])
  }

  /** A search finds exactly the values that contain the searched text, in whatever case; a % or _
      in it counts as a wildcard. */
  lemma {:induction false} SearchContains(s: string, text: string)
    requires Plain(s)
    ensures LikeMatches(Pattern(s), text) <==> exists i :: ContainsAt(text, s, i)
    decreases |text|
  {
    assert Pattern(s)[0] == '%' && Pattern(s)[1..] == s + "%";
    StartsWith(s, text);
    assert |s| <= |text| ==> (SameText(s, text[..|s|]) <==> ContainsAt(text, s, 0));
    if text != "" {
      SearchContains(s, text[1..]);
      if i :| ContainsAt(text[1..], s, i) {
        assert text[1..][i..i + |s|] == text[i + 1..i + 1 + |s|];
        assert ContainsAt(text, s, i + 1);
      }
      if i :| ContainsAt(text, s, i) && i > 0 {
        assert text[1..][i - 1..i - 1 + |s|] == text[i..i + |s|];
        assert ContainsAt(text[1..], s, i - 1);
      }
    }
  }

  /** The conditions that hold of a row whose columns have these texts, when the database compares
      texts by their rank. */
  ghost predicate Interprets(truths: set<Atom>, text: string -> string, rank: string -> int) {
    forall col, v ::
      && (Test(col, Like, v) in truths <==> LikeMatches(v, text(col)))
      && (Test(col, Eq, v) in truths <==> text(col) == v)
      && (Test(col, Ge, v) in truths <==> rank(text(col)) >= rank(v))
      && (Test(col, Le, v) in truths <==> rank(text(col)) <= rank(v))
      && (Test(col, Gt, v) in truths <==> rank(text(col)) > rank(v))
  }

  ghost predicate Contains(text: string, s: string) {
    exists i :: ContainsAt(text, s, i)
  }

  /** The column's name in the database. */
  function Column(cfg: ListConfig, col: string): string {
    if cfg.tableAlias == "" then col else cfg.tableAlias + ['.'] + col
  }

  ghost predicate FoundIn(p: ListParams, cfg: ListConfig, text: string -> string) {
    exists col :: col in cfg.searchColumns && Contains(text(Column(cfg, col)), p.search)
  }

  ghost predicate ReadRightly(p: ListParams, cfg: ListConfig, truths: set<Atom>, text: string -> string, col: string) {
    var found := Contains(text(Column(cfg, col)), p.search);
    AtomHolds(Test(Qualify(cfg, col), Like, Pattern(p.search)), truths) <==> found
  }

  lemma {:induction false} SomeColumn(p: ListParams, cfg: ListConfig, truths: set<Atom>, text: string -> string)
    requires p.search != "" && cfg.searchColumns != []
    requires forall i :: 0 <= i < |cfg.searchColumns| ==>
      ReadRightly(p, cfg, truths, text, cfg.searchColumns[i])
    ensures SearchWanted(p, cfg, truths) <==> FoundIn(p, cfg, text)
  {
    if col :| col in cfg.searchColumns && Contains(text(Column(cfg, col)), p.search) {
      var i :| 0 <= i < |cfg.searchColumns| && cfg.searchColumns[i] == col;
      assert AtomHolds(Test(Qualify(cfg, cfg.searchColumns[i]), Like, Pattern(p.search)), truths);
    }
  }

  /** What a request selects, by the values of the row: some search column contains the searched
      text, and every filter on an allowed column is its value. */
  lemma {:induction false} WantedMeans(p: ListParams, cfg: ListConfig, truths: set<Atom>, text: string -> string,
                                       rank: string -> int)
    requires Interprets(truths, text, rank) && Plain(p.search)
    ensures Wanted(p, cfg, truths) <==>
      && (p.search == "" || cfg.searchColumns == [] || FoundIn(p, cfg, text))
      && (forall f :: f in p.filters && f in cfg.allowedFilters && cfg.allowedFilters[f] ==>
            text(Column(cfg, f)) == p.filters[f])
  {
    forall i | 0 <= i < |cfg.searchColumns|
      ensures ReadRightly(p, cfg, truths, text, cfg.searchColumns[i])
    {
      SearchContains(p.search, text(Column(cfg, cfg.searchColumns[i])));
    }
    if p.search != "" && cfg.searchColumns != [] {
      SomeColumn(p, cfg, truths, text);
    }
  }

  // --------------------------------------------------------------- date ranges

  /** The query string: absent parameters read as "". */
  function Param(query: map<string, string>, key: string): string {
    if key in query then query[key] else ""
  }

  ghost predicate DatesHold(query: map<string, string>, columns: map<string, string>, params: set<string>,
          truths: set<Atom>)
    requires params <= columns.Keys
  {
    forall p :: p in params ==> InRange(columns[p], Param(query, p + "_from"), Param(query, p + "_to"), truths)
  }

  ghost predicate InRange(col: string, from: string, until: string, truths: set<Atom>) {
    && (from != "" ==> AtomHolds(Test(col, Ge, from), truths))
    && (until != "" ==> AtomHolds(Test(col, Le, until), truths))
  }

  /** A range selects the rows from its first bound to its last, both included; an absent bound is
      none. */
  lemma {:induction false} RangeMeans(col: string, from: string, until: string, truths: set<Atom>,
                                      text: string -> string, rank: string -> int)
    requires Interprets(truths, text, rank)
    ensures InRange(col, from, until, truths) <==>
      (from == "" || rank(from) <= rank(text(col))) && (until == "" || rank(text(col)) <= rank(until))
  {
  }

  /** A range of one instant is accepted, a reversed one is not; and what cannot be read is not. */
  lemma {:induction false} BadRangeIff(query: map<string, string>, parse: string -> Option<int>, p: string)
    ensures
      var from, until := Param(query, p + "_from"), Param(query, p + "_to");
      !BadRange(query, parse, p) <==>
        && (from != "" ==> parse(from).Some?) && (until != "" ==> parse(until).Some?)
        && (from != "" && until != "" ==> parse(from).value <= parse(until).value)
  {
  }

  /** A bound that is not a date, or a range that ends before it starts. */
  predicate BadRange(query: map<string, string>, parse: string -> Option<int>, p: string) {
    var from, until := Param(query, p + "_from"), Param(query, p + "_to");
    || (from != "" && parse(from).None?)
    || (until != "" && parse(until).None?)
    || (from != "" && until != "" && parse(from).value > parse(until).value)
  }

  method ParseDateRange(query: map<string, string>, columns: map<string, string>, parse: string -> Option<int>)
    returns (where: seq<Token>, args: seq<string>, err: bool, ghost cs: seq<Conjunct>)
    ensures err <==> exists p :: p in columns && BadRange(query, parse, p)
    ensures err ==> where == [] && args == []
    ensures !err ==> Prints(where, args, cs)
    ensures !err ==> forall truths :: AllHold(cs, truths) <==> DatesHold(query, columns, columns.Keys, truths)
  {
    var conditions: seq<seq<Token>> := [];
    args := [];
    cs := [];
    var todo := columns.Keys;
    ghost var done: set<string> := {};
    while todo != {}
      invariant done + todo == columns.Keys && done !! todo
      invariant forall p :: p in done ==> !BadRange(query, parse, p)
      invariant WellFormed(cs) && conditions == ConjunctTexts(cs) && args == FragmentArgs(cs)
      invariant forall truths :: AllHold(cs, truths) <==> DatesHold(query, columns, done, truths)
      decreases todo
    {
      var p :| p in todo;
      var col := columns[p];
      var from, until := Param(query, p + "_from"), Param(query, p + "_to");
      if from != "" {
        if parse(from).None? {
          return [], [], true, [];
        }
        AppendOne(cs, Test(col, Ge, from));
        conditions := conditions + [[Name(col), Op(Ge), Hole]];
        args := args + [from];
        cs := cs + [One(Test(col, Ge, from))];
      }
      if until != "" {
        if parse(until).None? {
          return [], [], true, [];
        }
        AppendOne(cs, Test(col, Le, until));
        conditions := conditions + [[Name(col), Op(Le), Hole]];
        args := args + [until];
        cs := cs + [One(Test(col, Le, until))];
      }
      if from != "" && until != "" && parse(from).value > parse(until).value {
        return [], [], true, [];
      }
      assert forall truths :: AllHold(cs, truths) <==>
        DatesHold(query, columns, done, truths) && InRange(col, from, until, truths);
      todo := todo - {p};
      done := done + {p};
    }
    where := [];
    if |conditions| > 0 {
      where := [And] + JoinTokens(conditions, And);
    }
    JoinIsFragment(cs);
    assert done == columns.Keys;
    err := false;
  }
}
