/** The WHERE text that the server prints, as SQL reads it back: a token stream with
    positional placeholders, AND binding tighter than OR, and parentheses. */
module SqlText {
  import opened Common

  datatype Rel = Like | Eq | Ge | Le | Gt

  /** `Fact` is a condition without placeholder, printed verbatim (`1=1`,
      `s.deactivated_at IS NULL`). */
  datatype Token = LPar | RPar | And | Or | Name(column: string) | Op(rel: Rel) | Hole | Fact(text: string)

  /** A basic condition with the value its placeholder is bound to. Which atoms hold of a
      row is up to the database, except that `1=1` always does. */
  datatype Atom = Test(column: string, rel: Rel, value: string) | Holds(text: string)

  datatype Expr = Leaf(atom: Atom) | Both(l: Expr, r: Expr) | Either(l: Expr, r: Expr)

  predicate AtomHolds(a: Atom, truths: set<Atom>) {
    a == Holds("1=1") || a in truths
  }

  predicate Eval(e: Expr, truths: set<Atom>) {
    match e
    case Leaf(a) => AtomHolds(a, truths)
    case Both(l, r) => Eval(l, truths) && Eval(r, truths)
    case Either(l, r) => Eval(l, truths) || Eval(r, truths)
  }

  /** The expression read, and what is left of the text and of the arguments. */
  datatype Parsed = Parsed(e: Expr, rest: seq<Token>, args: seq<string>)

  function ParseOr(ts: seq<Token>, args: seq<string>): (r: Option<Parsed>)
    ensures r.Some? ==> |r.value.rest| < |ts|
    decreases |ts|, 2
  {
    var l := ParseAnd(ts, args);
    if l.Some? && l.value.rest != [] && l.value.rest[0] == Or then
      var r := ParseOr(l.value.rest[1..], l.value.args);
      if r.None? then None else Some(Parsed(Either(l.value.e, r.value.e), r.value.rest, r.value.args))
    else l
  }

  function ParseAnd(ts: seq<Token>, args: seq<string>): (r: Option<Parsed>)
    ensures r.Some? ==> |r.value.rest| < |ts|
    decreases |ts|, 1
  {
    var l := ParseFactor(ts, args);
    if l.Some? && l.value.rest != [] && l.value.rest[0] == And then
      var r := ParseAnd(l.value.rest[1..], l.value.args);
      if r.None? then None else Some(Parsed(Both(l.value.e, r.value.e), r.value.rest, r.value.args))
    else l
  }

  function ParseFactor(ts: seq<Token>, args: seq<string>): (r: Option<Parsed>)
    ensures r.Some? ==> |r.value.rest| < |ts|
    decreases |ts|, 0
  {
    if ts != [] && ts[0] == LPar then
      var inner := ParseOr(ts[1..], args);
      if inner.Some? && inner.value.rest != [] && inner.value.rest[0] == RPar
      then Some(inner.value.(rest := inner.value.rest[1..])) else None
    else if ts != [] && ts[0].Fact? then
      Some(Parsed(Leaf(Holds(ts[0].text)), ts[1..], args))
    else if |ts| >= 3 && ts[0].Name? && ts[1].Op? && ts[2] == Hole && args != [] then
      Some(Parsed(Leaf(Test(ts[0].column, ts[1].rel, args[0])), ts[3..], args[1..]))
    else None
  }

  /** A WHERE clause as the database runs it: the whole text parses, and the driver is
      given exactly as many arguments as there are placeholders. */
  function Compile(ts: seq<Token>, args: seq<string>): Option<Expr> {
    var p := ParseOr(ts, args);
    if p.Some? && p.value.rest == [] && p.value.args == [] then Some(p.value.e) else None
  }

  predicate Selects(ts: seq<Token>, args: seq<string>, truths: set<Atom>) {
    var e := Compile(ts, args);
    e.Some? && Eval(e.value, truths)
  }

  // --------------------------------------------------- what the server prints

  /** A conjunct of a printed clause: one condition, or alternatives in parentheses. */
  datatype Conjunct = One(atom: Atom) | AnyOf(atoms: seq<Atom>)

  ghost predicate WellFormed(cs: seq<Conjunct>) {
    forall i :: 0 <= i < |cs| && cs[i].AnyOf? ==> cs[i].atoms != []
  }

  function AtomText(a: Atom): seq<Token> {
    match a
    case Test(c, r, _) => [Name(c), Op(r), Hole]
    case Holds(t) => [Fact(t)]
  }

  function AtomArgs(a: Atom): seq<string> {
    match a
    case Test(_, _, v) => [v]
    case Holds(_) => []
  }

  /** Alternatives joined with OR. */
  function OrText(atoms: seq<Atom>): seq<Token> {
    if atoms == [] then []
    else AtomText(atoms[0]) + if |atoms| == 1 then [] else [Or] + OrText(atoms[1..])
  }

  function OrArgs(atoms: seq<Atom>): seq<string> {
    if atoms == [] then [] else AtomArgs(atoms[0]) + OrArgs(atoms[1..])
  }

  function ConjunctText(c: Conjunct): seq<Token> {
    match c
    case One(a) => AtomText(a)
    case AnyOf(atoms) => [LPar] + OrText(atoms) + [RPar]
  }

  function ConjunctArgs(c: Conjunct): seq<string> {
    match c
    case One(a) => AtomArgs(a)
    case AnyOf(atoms) => OrArgs(atoms)
  }

  /** Each conjunct after a leading AND: the shape of every fragment. */
  function Fragment(cs: seq<Conjunct>): seq<Token> {
    if cs == [] then [] else [And] + ConjunctText(cs[0]) + Fragment(cs[1..])
  }

  function FragmentArgs(cs: seq<Conjunct>): seq<string> {
    if cs == [] then [] else ConjunctArgs(cs[0]) + FragmentArgs(cs[1..])
  }

  ghost predicate ConjunctHolds(c: Conjunct, truths: set<Atom>) {
    match c
    case One(a) => AtomHolds(a, truths)
    case AnyOf(atoms) => exists i :: 0 <= i < |atoms| && AtomHolds(atoms[i], truths)
  }

  ghost predicate AllHold(cs: seq<Conjunct>, truths: set<Atom>) {
    forall i :: 0 <= i < |cs| ==> ConjunctHolds(cs[i], truths)
  }

  lemma {:induction false} FragmentConcat(a: seq<Conjunct>, b: seq<Conjunct>)
    ensures Fragment(a + b) == Fragment(a) + Fragment(b)
    ensures FragmentArgs(a + b) == FragmentArgs(a) + FragmentArgs(b)
  {
    if a == [] {
      assert a + b == b;
    } else {
      var c, rest := a[0], a[1..];
      assert (a + b)[0] == c && (a + b)[1..] == rest + b;
      FragmentConcat(rest, b);
      Assoc([And] + ConjunctText(c), Fragment(rest), Fragment(b));
      Assoc(ConjunctArgs(c), FragmentArgs(rest), FragmentArgs(b));
    }
  }

  lemma {:induction false} FragmentOfOne(c: Conjunct)
    ensures Fragment([c]) == [And] + ConjunctText(c)
    ensures FragmentArgs([c]) == ConjunctArgs(c)
  {
  }

  // ------------------------------------------------- reading the text back

  lemma {:induction false} ReadAtom(a: Atom, ts: seq<Token>, args: seq<string>)
    ensures ParseFactor(AtomText(a) + ts, AtomArgs(a) + args) == Some(Parsed(Leaf(a), ts, args))
  {
    var t := AtomText(a) + ts;
    match a
    case Test(c, r, v) => assert t[3..] == ts && ([v] + args)[1..] == args;
    case Holds(x) => assert t[1..] == ts && [] + args == args;
  }

  function OrExpr(atoms: seq<Atom>): Expr
    requires atoms != []
  {
    if |atoms| == 1 then Leaf(atoms[0]) else Either(Leaf(atoms[0]), OrExpr(atoms[1..]))
  }

  lemma {:induction false} ReadOr(atoms: seq<Atom>, ts: seq<Token>, args: seq<string>)
    requires atoms != [] && (ts != [] ==> ts[0] != Or && ts[0] != And)
    ensures ParseOr(OrText(atoms) + ts, OrArgs(atoms) + args) == Some(Parsed(OrExpr(atoms), ts, args))
    decreases |atoms|
  {
    var a, others := atoms[0], atoms[1..];
    Assoc(AtomArgs(a), OrArgs(others), args);
    if |atoms| == 1 {
      assert OrArgs(others) + args == args && OrText(atoms) == AtomText(a);
      ReadAtom(a, ts, args);
    } else {
      var tail := OrText(others) + ts;
      Assoc(AtomText(a), [Or] + OrText(others), ts);
      Assoc([Or], OrText(others), ts);
      ReadAtom(a, [Or] + tail, OrArgs(others) + args);
      assert ([Or] + tail)[0] == Or && ([Or] + tail)[1..] == tail;
      ReadOr(others, ts, args);
    }
  }

  function ConjunctExpr(c: Conjunct): Expr
    requires c.AnyOf? ==> c.atoms != []
  {
    match c
    case One(a) => Leaf(a)
    case AnyOf(atoms) => OrExpr(atoms)
  }

  lemma {:induction false} ReadConjunct(c: Conjunct, ts: seq<Token>, args: seq<string>)
    requires c.AnyOf? ==> c.atoms != []
    ensures ParseFactor(ConjunctText(c) + ts, ConjunctArgs(c) + args) == Some(Parsed(ConjunctExpr(c), ts, args))
  {
    match c
    case One(a) => ReadAtom(a, ts, args);
    case AnyOf(atoms) =>
      Assoc([LPar] + OrText(atoms), [RPar], ts);
      Assoc([LPar], OrText(atoms), [RPar] + ts);
      var inner := OrText(atoms) + ([RPar] + ts);
      assert ([LPar] + inner)[0] == LPar && ([LPar] + inner)[1..] == inner;
      ReadOr(atoms, [RPar] + ts, args);
      assert ([RPar] + ts)[1..] == ts;
  }

  function AndExpr(first: Conjunct, cs: seq<Conjunct>): Expr
    requires first.AnyOf? ==> first.atoms != []
    requires forall i :: 0 <= i < |cs| && cs[i].AnyOf? ==> cs[i].atoms != []
    decreases |cs|
  {
    if cs == [] then ConjunctExpr(first) else Both(ConjunctExpr(first), AndExpr(cs[0], cs[1..]))
  }

  lemma {:induction false} ReadAnd(first: Conjunct, cs: seq<Conjunct>)
    requires WellFormed(cs) && (first.AnyOf? ==> first.atoms != [])
    ensures ParseAnd(ConjunctText(first) + Fragment(cs), ConjunctArgs(first) + FragmentArgs(cs))
      == Some(Parsed(AndExpr(first, cs), [], []))
    decreases |cs|
  {
    ReadConjunct(first, Fragment(cs), FragmentArgs(cs));
    if cs != [] {
      var next := ConjunctText(cs[0]) + Fragment(cs[1..]);
      Assoc([And], ConjunctText(cs[0]), Fragment(cs[1..]));
      assert ([And] + next)[0] == And && ([And] + next)[1..] == next;
      ReadAnd(cs[0], cs[1..]);
    }
  }

  lemma {:induction false} OrMeans(atoms: seq<Atom>, truths: set<Atom>)
    requires atoms != []
    ensures Eval(OrExpr(atoms), truths) <==> exists i :: 0 <= i < |atoms| && AtomHolds(atoms[i], truths)
    decreases |atoms|
  {
    if |atoms| > 1 {
      OrMeans(atoms[1..], truths);
      if i :| 0 <= i < |atoms| && AtomHolds(atoms[i], truths) {
        assert i > 0 ==> AtomHolds(atoms[1..][i - 1], truths);
      }
      if i :| 0 <= i < |atoms[1..]| && AtomHolds(atoms[1..][i], truths) {
        assert AtomHolds(atoms[i + 1], truths);
      }
    }
  }

  lemma {:induction false} AndMeans(first: Conjunct, cs: seq<Conjunct>, truths: set<Atom>)
    requires WellFormed(cs) && (first.AnyOf? ==> first.atoms != [])
    ensures Eval(AndExpr(first, cs), truths) <==> ConjunctHolds(first, truths) && AllHold(cs, truths)
    decreases |cs|
  {
    if first.AnyOf? {
      OrMeans(first.atoms, truths);
    }
    if cs != [] {
      AndMeans(cs[0], cs[1..], truths);
      assert AllHold(cs, truths) <==> ConjunctHolds(cs[0], truths) && AllHold(cs[1..], truths) by {
        assert forall i :: 1 <= i < |cs| ==> cs[i] == cs[1..][i - 1];
        if ConjunctHolds(cs[0], truths) && AllHold(cs[1..], truths) {
          forall i | 0 <= i < |cs| ensures ConjunctHolds(cs[i], truths) {
            assert i > 0 ==> ConjunctHolds(cs[1..][i - 1], truths);
          }
        }
        if AllHold(cs, truths) {
          forall i | 0 <= i < |cs[1..]| ensures ConjunctHolds(cs[1..][i], truths) {
            assert ConjunctHolds(cs[i + 1], truths);
          }
        }
      }
    }
  }

  /** The clause `first AND c1 AND c2 ...`, as printed, is read back as the conjunction of
      its parts: every placeholder gets its own argument, none is left over, and OR stays
      inside its parentheses. */
  lemma {:induction false} ClauseMeaning(first: Conjunct, cs: seq<Conjunct>, truths: set<Atom>)
    requires WellFormed(cs) && (first.AnyOf? ==> first.atoms != [])
    ensures Compile(ConjunctText(first) + Fragment(cs), ConjunctArgs(first) + FragmentArgs(cs)).Some?
    ensures Selects(ConjunctText(first) + Fragment(cs), ConjunctArgs(first) + FragmentArgs(cs), truths)
      <==> ConjunctHolds(first, truths) && AllHold(cs, truths)
  {
    ReadAnd(first, cs);
    AndMeans(first, cs, truths);
  }

  /** Without its parentheses the same search would mean something else: a row that
      fails the base condition would be selected through the last alternative. */
  lemma {:induction false} ParenthesesMatter(base: string, a: Atom, b: Atom)
    requires base != "1=1" && a != b && b != Holds(base)
    ensures Selects([Fact(base), And] + OrText([a, b]), OrArgs([a, b]), {b})
    ensures !Selects([Fact(base)] + Fragment([AnyOf([a, b])]), FragmentArgs([AnyOf([a, b])]), {b})
  {
    var text, args := OrText([a, b]), OrArgs([a, b]);
    var naked := ReadUngrouped(base, a, b, text, args);
    ClauseMeaning(One(Holds(base)), [AnyOf([a, b])], {b});
    assert ConjunctArgs(One(Holds(base))) + FragmentArgs([AnyOf([a, b])]) == FragmentArgs([AnyOf([a, b])]);
  }

  lemma {:induction false} ReadUngrouped(base: string, a: Atom, b: Atom, text: seq<Token>, args: seq<string>)
    returns (e: Expr)
    requires text == OrText([a, b]) && args == OrArgs([a, b])
    ensures e == Either(Both(Leaf(Holds(base)), Leaf(a)), Leaf(b))
    ensures Compile([Fact(base), And] + text, args) == Some(e)
  {
    ReadNaked(a, b, text, args);
    var naked, tail := [Fact(base), And] + text, [And] + text;
    e := Either(Both(Leaf(Holds(base)), Leaf(a)), Leaf(b));
    assert naked[0] == Fact(base) && naked[1..] == tail && tail[0] == And && tail[1..] == text;
    assert ParseFactor(naked, args) == Some(Parsed(Leaf(Holds(base)), tail, args));
    assert ParseAnd(naked, args) == Some(Parsed(Both(Leaf(Holds(base)), Leaf(a)), [Or] + AtomText(b), AtomArgs(b)));
  }

  lemma {:induction false} ReadNaked(a: Atom, b: Atom, text: seq<Token>, args: seq<string>)
    requires text == OrText([a, b]) && args == OrArgs([a, b])
    ensures ParseAnd(text, args) == Some(Parsed(Leaf(a), [Or] + AtomText(b), AtomArgs(b)))
    ensures ParseOr(AtomText(b), AtomArgs(b)) == Some(Parsed(Leaf(b), [], []))
    ensures ([Or] + AtomText(b))[1..] == AtomText(b)
  {
    assert [a, b][1..] == [b];
    assert OrText([b]) == AtomText(b);
    assert OrArgs([b]) == AtomArgs(b);
    ReadAtom(a, [Or] + AtomText(b), AtomArgs(b));
    ReadAtom(b, [], []);
    assert AtomText(b) + [] == AtomText(b) && AtomArgs(b) + [] == AtomArgs(b);
  }
}
