/** The pieces of Go's `strings` package that the server leans on: `Fields`, `Join`,
    `Split` and `TrimSpace`, together with the laws that the scope, prompt and CORS
    code needs. */
module Text {
  import opened Common

  /** Go's `unicode.IsSpace`. */
  predicate IsSpace(c: char) {
    var n := c as int;
    || 9 <= n <= 13
    || n in {0x20, 0x85, 0xA0, 0x1680, 0x2028, 0x2029, 0x202F, 0x205F, 0x3000}
    || 0x2000 <= n <= 0x200A
  }

  /** Among the ASCII characters: tab, line feed, vertical tab, form feed, carriage return and the
      space. */
  lemma {:induction false} AsciiSpaces(c: char)
    requires c as int < 0x80
    ensures IsSpace(c) <==> c in "\t\n\U{000B}\U{000C}\r "
  {
    var spaces := "\t\n\U{000B}\U{000C}\r ";
    assert spaces[0] as int == 9 && spaces[1] as int == 10 && spaces[2] as int == 11;
    assert spaces[3] as int == 12 && spaces[4] as int == 13 && spaces[5] as int == 32;
    if IsSpace(c) {
      assert exists i :: 0 <= i < 6 && spaces[i] == c by {
        var i := if c == ' ' then 5 else c as int - 9;
        assert spaces[i] == c;
      }
    }
  }

  /** A non-empty run of non-space characters: what `Fields` returns. */
  predicate IsWord(w: string) {
    w != "" && forall i :: 0 <= i < |w| ==> !IsSpace(w[i])
  }

  ghost predicate AreWords(ws: seq<string>) {
    forall i :: 0 <= i < |ws| ==> IsWord(ws[i])
  }

  /** Length of the longest space-free prefix. */
  function Span(s: string): (n: nat)
    ensures n <= |s|
    ensures forall i :: 0 <= i < n ==> !IsSpace(s[i])
    ensures n < |s| ==> IsSpace(s[n])
  {
    if s == "" || IsSpace(s[0]) then 0 else 1 + Span(s[1..])
  }

  function Fields(s: string): (ws: seq<string>)
    ensures AreWords(ws)
    decreases |s|
  {
    if s == "" then []
    else if IsSpace(s[0]) then Fields(s[1..])
    else [s[..Span(s)]] + Fields(s[Span(s)..])
  }

  function Join(ws: seq<string>, sep: string): string {
    if |ws| == 0 then "" else if |ws| == 1 then ws[0] else ws[0] + sep + Join(ws[1..], sep)
  }

  lemma {:induction false} SpanOfPrefix(a: string, c: char, b: string)
    requires IsSpace(c)
    ensures Span(a + [c] + b) == Span(a)
  {
    if a == "" || IsSpace(a[0]) {
      assert (a + [c] + b)[0] == if a == "" then c else a[0];
    } else {
      assert (a + [c] + b)[1..] == a[1..] + [c] + b;
      SpanOfPrefix(a[1..], c, b);
    }
  }

  /** A space separates: the fields of the whole are those of the two sides. With
      `FieldsOfWord` and the empty string this determines `Fields` completely. */
  lemma {:induction false} FieldsAtSpace(a: string, c: char, b: string)
    requires IsSpace(c)
    ensures Fields(a + [c] + b) == Fields(a) + Fields(b)
    decreases |a|
  {
    var s := a + [c] + b;
    if a == "" {
      assert s[1..] == b;
    } else if IsSpace(a[0]) {
      assert s[1..] == a[1..] + [c] + b;
      FieldsAtSpace(a[1..], c, b);
    } else {
      SpanOfPrefix(a, c, b);
      var n := Span(a);
      assert s[..n] == a[..n] && s[n..] == a[n..] + [c] + b;
      FieldsAtSpace(a[n..], c, b);
      Assoc([a[..n]], Fields(a[n..]), Fields(b));
    }
  }

  lemma {:induction false} FieldsOfWord(w: string)
    requires IsWord(w)
    ensures Fields(w) == [w]
  {
    assert Span(w) == |w|;
    assert w[..|w|] == w && w[|w|..] == "";
  }

  /** Round trip: splitting a space-joined list of words gives the list back. */
  lemma {:induction false} FieldsOfJoin(ws: seq<string>)
    requires AreWords(ws)
    ensures Fields(Join(ws, " ")) == ws
  {
    if |ws| == 1 {
      FieldsOfWord(ws[0]);
    } else if |ws| > 1 {
      assert AreWords(ws[1..]);
      FieldsOfJoin(ws[1..]);
      FieldsAtSpace(ws[0], ' ', Join(ws[1..], " "));
      FieldsOfWord(ws[0]);
      assert ws[0] + " " + Join(ws[1..], " ") == ws[0] + [' '] + Join(ws[1..], " ");
    }
  }

  /** `strings.Split` at a one-character separator. */
  function Split(s: string, sep: char): (ps: seq<string>)
    ensures |ps| >= 1
    ensures forall i, j :: 0 <= i < |ps| && 0 <= j < |ps[i]| ==> ps[i][j] != sep
  {
    if s == "" then [""]
    else
      var rest := Split(s[1..], sep);
      if s[0] == sep then [""] + rest else [[s[0]] + rest[0]] + rest[1..]
  }

  lemma {:induction false} SplitAtSeparator(a: string, sep: char, b: string)
    requires sep !in a
    ensures Split(a + [sep] + b, sep) == [a] + Split(b, sep)
  {
    if a == "" {
      assert (a + [sep] + b)[1..] == b;
    } else {
      assert (a + [sep] + b)[1..] == a[1..] + [sep] + b;
      SplitAtSeparator(a[1..], sep, b);
      assert [a[0]] + a[1..] == a;
    }
  }

  lemma {:induction false} SplitOfPiece(a: string, sep: char)
    requires sep !in a
    ensures Split(a, sep) == [a]
  {
    if a != "" {
      SplitOfPiece(a[1..], sep);
      assert [a[0]] + a[1..] == a;
    }
  }

  /** Joining the pieces at the separator gives the text back, so no character is
      lost or moved by `Split`. */
  lemma {:induction false} JoinOfSplit(s: string, sep: char)
    ensures Join(Split(s, sep), [sep]) == s
  {
    if s != "" {
      var rest := Split(s[1..], sep);
      JoinOfSplit(s[1..], sep);
      assert s == [s[0]] + s[1..];
      if s[0] == sep {
        assert ([""] + rest)[1..] == rest;
      } else {
        var first := [s[0]] + rest[0];
        assert ([first] + rest[1..])[1..] == rest[1..];
        if |rest| > 1 {
          assert first + [sep] + Join(rest[1..], [sep]) == [s[0]] + (rest[0] + [sep] + Join(rest[1..], [sep]));
        }
      }
    }
  }

  lemma {:induction false} SplitOfJoin(ps: seq<string>, sep: char)
    requires ps != []
    requires forall i :: 0 <= i < |ps| ==> sep !in ps[i]
    ensures Split(Join(ps, [sep]), sep) == ps
    decreases |ps|
  {
    if |ps| == 1 {
      SplitOfPiece(ps[0], sep);
      assert ps == [ps[0]];
    } else {
      hide Split;
      var rest := ps[1..];
      assert forall i :: 0 <= i < |rest| ==> rest[i] == ps[i + 1];
      SplitOfJoin(rest, sep);
      SplitAtSeparator(ps[0], sep, Join(rest, [sep]));
      assert Join(ps, [sep]) == ps[0] + [sep] + Join(rest, [sep]);
      assert ps == [ps[0]] + rest;
    }
  }

  function TrimLeft(s: string): string {
    if s != "" && IsSpace(s[0]) then TrimLeft(s[1..]) else s
  }

  function TrimRight(s: string): string {
    if s != "" && IsSpace(s[|s| - 1]) then TrimRight(s[..|s| - 1]) else s
  }

  /** `strings.TrimSpace`. */
  function TrimSpace(s: string): string {
    TrimRight(TrimLeft(s))
  }

  predicate Trimmed(s: string) {
    s != "" ==> !IsSpace(s[0]) && !IsSpace(s[|s| - 1])
  }

  ghost predicate SpaceAround(s: string, i: int, t: string) {
    && 0 <= i <= |s| - |t|
    && s[i..i + |t|] == t
    && (forall j :: 0 <= j < |s| && (j < i || i + |t| <= j) ==> IsSpace(s[j]))
  }

  lemma {:induction false} TrimLeftShape(s: string) returns (i: nat)
    ensures i <= |s| && TrimLeft(s) == s[i..]
    ensures forall j :: 0 <= j < i ==> IsSpace(s[j])
    ensures i < |s| ==> !IsSpace(s[i])
  {
    if s != "" && IsSpace(s[0]) {
      var k := TrimLeftShape(s[1..]);
      i := k + 1;
      forall j | 0 <= j < i ensures IsSpace(s[j]) {
        assert j > 0 ==> s[j] == s[1..][j - 1];
      }
    } else {
      i := 0;
    }
  }

  lemma {:induction false} TrimRightShape(s: string) returns (n: nat)
    ensures n <= |s| && TrimRight(s) == s[..n]
    ensures forall j :: n <= j < |s| ==> IsSpace(s[j])
    ensures n > 0 ==> !IsSpace(s[n - 1])
  {
    if s != "" && IsSpace(s[|s| - 1]) {
      n := TrimRightShape(s[..|s| - 1]);
      forall j | n <= j < |s| ensures IsSpace(s[j]) {
        assert j < |s| - 1 ==> s[j] == s[..|s| - 1][j];
      }
    } else {
      n := |s|;
    }
  }

  /** `TrimSpace` keeps a contiguous part of the input that has no space at its ends, and
      drops nothing but the space around it. */
  lemma {:induction false} TrimSpaceShape(s: string) returns (i: int)
    ensures SpaceAround(s, i, TrimSpace(s)) && Trimmed(TrimSpace(s))
  {
    i := TrimLeftShape(s);
    var l := s[i..];
    var n := TrimRightShape(l);
    assert s[i..i + n] == l[..n];
    forall j | 0 <= j < |s| && (j < i || i + n <= j) ensures IsSpace(s[j]) {
      assert j >= i ==> s[j] == l[j - i];
    }
    if n > 0 {
      assert !IsSpace(l[0]) && !IsSpace(l[n - 1]);
    }
  }

  lemma {:induction false} TrimOfTrimmed(s: string)
    requires Trimmed(s)
    ensures TrimSpace(s) == s
  {
  }
}
