/** The user codes of `pkg/devicecode/service.go`: eight consonants, shown with a hyphen
    and typed back by a person (section 6.1 of RFC 8628). Text is ASCII here. */
module UserCodes {

  const ALPHABET: string := "BCDFGHJKLMNPQRSTVWXZ"

  function Upper(c: char): char {
    if 'a' <= c <= 'z' then (c as int - 32) as char else c
  }

  function ToUpper(s: string): (r: string)
    ensures |r| == |s| && forall i :: 0 <= i < |s| ==> r[i] == Upper(s[i])
  {
    if s == "" then "" else [Upper(s[0])] + ToUpper(s[1..])
  }

  /** `strings.ReplaceAll(s, c, "")`. */
  function Without(s: string, c: char): (r: string)
    ensures c !in r
  {
    if s == "" then "" else (if s[0] == c then "" else [s[0]]) + Without(s[1..], c)
  }

  function Normalize(input: string): string {
    Without(Without(ToUpper(input), '-'), ' ')
  }

  function Format(code: string): string {
    if |code| != 8 then code else code[..4] + "-" + code[4..]
  }

  /** A code as `GenerateUserCode` makes them. */
  predicate Generated(code: string) {
    |code| == 8 && forall i :: 0 <= i < 8 ==> code[i] in ALPHABET
  }

  /** `picks` are the eight random draws. */
  method GenerateUserCode(picks: seq<nat>) returns (code: string)
    requires |picks| == 8 && forall i :: 0 <= i < 8 ==> picks[i] < |ALPHABET|
    ensures Generated(code)
    ensures forall i :: 0 <= i < 8 ==> code[i] == ALPHABET[picks[i]]
  {
    code := "";
    for i := 0 to 8
      invariant |code| == i
      invariant forall j :: 0 <= j < i ==> code[j] == ALPHABET[picks[j]] && code[j] in ALPHABET
    {
      code := code + [ALPHABET[picks[i]]];
    }
  }

  predicate Filler(c: char) {
    c == '-' || c == ' '
  }

  /** One pass: drop hyphens and spaces, upper-case the rest. */
  function OnePass(s: string): string {
    if s == "" then ""
    else (if Filler(s[0]) then "" else [Upper(s[0])]) + OnePass(s[1..])
  }

  lemma {:induction false} WithoutCons(c: char, s: string, d: char)
    ensures Without([c] + s, d) == (if c == d then "" else [c]) + Without(s, d)
  {
  }

  /** The three passes of the source are one filter-and-upper-case pass. */
  lemma {:induction false} NormalizeIsOnePass(s: string)
    ensures Normalize(s) == OnePass(s)
  {
    if s != "" {
      var u := Upper(s[0]);
      NormalizeIsOnePass(s[1..]);
      assert Filler(u) <==> Filler(s[0]);
      var rest := ToUpper(s[1..]);
      WithoutCons(u, rest, '-');
      WithoutCons(u, Without(rest, '-'), ' ');
      assert ToUpper(s) == [u] + rest;
      assert Without(ToUpper(s), '-') == (if u == '-' then "" else [u]) + Without(rest, '-');
      if u == '-' {
        assert Without(ToUpper(s), '-') == Without(rest, '-');
      } else {
        assert Without(ToUpper(s), '-') == [u] + Without(rest, '-');
      }
    }
  }

  lemma {:induction false} OnePassConcat(a: string, b: string)
    ensures OnePass(a + b) == OnePass(a) + OnePass(b)
  {
    if a == "" {
      assert a + b == b;
    } else {
      assert (a + b)[1..] == a[1..] + b;
      OnePassConcat(a[1..], b);
    }
  }

  /** Text that normalizing leaves alone. */
  ghost predicate Canonical(s: string) {
    forall i :: 0 <= i < |s| ==> !Filler(s[i]) && Upper(s[i]) == s[i]
  }

  lemma {:induction false} OnePassOfCanonical(s: string)
    requires Canonical(s)
    ensures OnePass(s) == s
  {
    if s != "" {
      OnePassOfCanonical(s[1..]);
    }
  }

  lemma {:induction false} OnePassIsCanonical(s: string)
    ensures Canonical(OnePass(s))
  {
    if s != "" {
      OnePassIsCanonical(s[1..]);
    }
  }

  lemma {:induction false} NormalizeIdempotent(s: string)
    ensures Normalize(Normalize(s)) == Normalize(s)
  {
    NormalizeIsOnePass(s);
    NormalizeIsOnePass(Normalize(s));
    OnePassIsCanonical(s);
    OnePassOfCanonical(OnePass(s));
  }

  /** Round trip: what the person copies from the device is the stored code. */
  lemma {:induction false} FormatRoundTrip(code: string)
    requires Generated(code)
    ensures Normalize(Format(code)) == code
  {
    var a, b := code[..4], code[4..];
    GeneratedIsCanonical(code);
    NormalizeIsOnePass(Format(code));
    OnePassConcat(a + "-", b);
    OnePassConcat(a, "-");
    assert Canonical(a) && Canonical(b);
    OnePassOfCanonical(a);
    OnePassOfCanonical(b);
    assert OnePass("-") == "" && a + "" == a && a + b == code;
  }

  /** What is shown: the first four letters, a hyphen, the other four. */
  lemma {:induction false} FormatShows(code: string)
    requires |code| == 8
    ensures |Format(code)| == 9 && Format(code)[4] == '-'
    ensures Format(code)[..4] == code[..4] && Format(code)[5..] == code[4..]
  {
  }

  /** The letters are consonants. */
  lemma {:induction false} Consonant(code: string, i: nat)
    requires Generated(code) && i < 8
    ensures 'B' <= code[i] <= 'Z' && code[i] !in {'A', 'E', 'I', 'O', 'U', 'Y'}
  {
  }

  function Lower(c: char): char {
    if 'A' <= c <= 'Z' then (c as int + 32) as char else c
  }

  /** A code typed in small letters, without the hyphen, is found. */
  lemma {:induction false} SmallLettersFind(code: string, typed: string)
    requires Generated(code) && |typed| == 8 && forall i :: 0 <= i < 8 ==> typed[i] == Lower(code[i])
    ensures Normalize(typed) == code
  {
    FormatRoundTrip(code);
    SameRowIffVariant(typed, code);
    GeneratedIsCanonical(code);
    NormalizeIsOnePass(code);
    OnePassOfCanonical(code);
    forall i | 0 <= i < 8 ensures !Filler(typed[i]) && Upper(typed[i]) == Upper(code[i]) && !Filler(code[i]) {
      assert code[i] in ALPHABET;
      LetterLower(code[i]);
    }
    NoFiller(typed);
    NoFiller(code);
  }

  lemma {:induction false} LetterLower(c: char)
    requires c in ALPHABET
    ensures !Filler(c) && !Filler(Lower(c)) && Upper(Lower(c)) == c == Upper(c)
  {
  }

  lemma {:induction false} NoFiller(s: string)
    requires forall i :: 0 <= i < |s| ==> !Filler(s[i])
    ensures Strip(s) == s
  {
    if s != "" {
      NoFiller(s[1..]);
    }
  }

  lemma {:induction false} GeneratedIsCanonical(code: string)
    requires Generated(code)
    ensures Canonical(code)
  {
    forall i | 0 <= i < 8 ensures !Filler(code[i]) && Upper(code[i]) == code[i] {
      assert code[i] in ALPHABET;
    }
  }

  /** `s` with its hyphens and spaces struck out. */
  function Strip(s: string): string {
    if s == "" then "" else (if Filler(s[0]) then "" else [s[0]]) + Strip(s[1..])
  }

  ghost predicate SameIgnoringCase(a: string, b: string) {
    |a| == |b| && forall i :: 0 <= i < |a| ==> Upper(a[i]) == Upper(b[i])
  }

  lemma {:induction false} OnePassIsUpperStrip(s: string)
    ensures OnePass(s) == ToUpper(Strip(s))
  {
    if s != "" {
      OnePassIsUpperStrip(s[1..]);
      if !Filler(s[0]) {
        assert ([s[0]] + Strip(s[1..]))[1..] == Strip(s[1..]);
      }
    }
  }

  /** Two inputs find the same row exactly when they differ only in hyphens, spaces and
      letter case. */
  lemma {:induction false} SameRowIffVariant(a: string, b: string)
    ensures Normalize(a) == Normalize(b) <==> SameIgnoringCase(Strip(a), Strip(b))
  {
    NormalizeIsOnePass(a);
    NormalizeIsOnePass(b);
    OnePassIsUpperStrip(a);
    OnePassIsUpperStrip(b);
    var ua, ub := ToUpper(Strip(a)), ToUpper(Strip(b));
    if ua == ub {
      forall i | 0 <= i < |Strip(a)| ensures Upper(Strip(a)[i]) == Upper(Strip(b)[i]) {
        assert ua[i] == ub[i];
      }
    }
  }

  /** Two generated codes are never confused: every variant of one's display form finds
      that code and no other. */
  lemma {:induction false} VariantFindsItsCodeOnly(code: string, other: string, typed: string)
    requires Generated(code) && Generated(other)
    requires SameIgnoringCase(Strip(typed), Strip(Format(code)))
    ensures Normalize(typed) == code
    ensures Normalize(typed) == Normalize(Format(other)) <==> other == code
  {
    SameRowIffVariant(typed, Format(code));
    FormatRoundTrip(code);
    FormatRoundTrip(other);
  }
}
