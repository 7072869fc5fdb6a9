/** The `cors_allowed_origins` block of `LoadIntoConfig` (`pkg/appsettings/load.go`). */
module Cors {
  import opened Common
  import opened Text

  /** The trimmed, non-empty pieces, in order. */
  function Clean(pieces: seq<string>): seq<string> {
    if pieces == [] then [] else Kept(pieces[0]) + Clean(pieces[1..])
  }

  function Kept(piece: string): seq<string> {
    if TrimSpace(piece) == "" then [] else [TrimSpace(piece)]
  }

  function Origins(v: string): seq<string> {
    Clean(Split(v, ','))
  }

  /** The two config fields are assigned from the setting alone: what they held before is
      reset first. */
  class CorsConfig {
    var allowedOrigins: seq<string>
    var allowAll: bool

    method Load(v: string)
      modifies this
      ensures allowedOrigins == Origins(v)
      ensures allowAll <==> "*" in Origins(v)
    {
      var origins: seq<string>, all := [], false;
      if v != "" {
        var pieces := Split(v, ',');
        for i := 0 to |pieces|
          invariant origins == Clean(pieces[..i])
          invariant all <==> "*" in origins
        {
          CleanPrefix(pieces, i);
          var o := TrimSpace(pieces[i]);
          if o == "" {
            continue;
          }
          if o == "*" {
            all := true;
          }
          origins := origins + [o];
        }
        assert pieces[..|pieces|] == pieces;
      } else {
        NoOrigins();
      }
      allowedOrigins, allowAll := origins, all;
    }
  }

  lemma {:induction false} NoOrigins()
    ensures Origins("") == []
  {
  }

  lemma {:induction false} CleanPrefix(pieces: seq<string>, i: nat)
    requires i < |pieces|
    ensures Clean(pieces[..i + 1]) == Clean(pieces[..i]) + Kept(pieces[i])
  {
    assert pieces[..i + 1] == pieces[..i] + [pieces[i]];
    CleanAppend(pieces[..i], pieces[i]);
  }

  lemma {:induction false} CleanAppend(a: seq<string>, piece: string)
    ensures Clean(a + [piece]) == Clean(a) + Kept(piece)
  {
    if a == [] {
      assert (a + [piece])[1..] == [];
    } else {
      assert (a + [piece])[0] == a[0] && (a + [piece])[1..] == a[1..] + [piece];
      CleanAppend(a[1..], piece);
      Assoc(Kept(a[0]), Clean(a[1..]), Kept(piece));
    }
  }

  /** A text is an origin exactly when it is the trimmed, non-empty form of a comma piece. */
  lemma {:induction false} CleanMembers(pieces: seq<string>, o: string)
    ensures o in Clean(pieces) <==> o != "" && exists i :: 0 <= i < |pieces| && TrimSpace(pieces[i]) == o
  {
    if pieces != [] {
      var first, rest := pieces[0], pieces[1..];
      CleanMembers(rest, o);
      assert o in Kept(first) <==> o != "" && TrimSpace(first) == o;
      if i :| 0 <= i < |pieces| && TrimSpace(pieces[i]) == o {
        assert i > 0 ==> TrimSpace(rest[i - 1]) == o;
      }
      if i :| 0 <= i < |rest| && TrimSpace(rest[i]) == o {
        assert TrimSpace(pieces[i + 1]) == o;
      }
    }
  }

  lemma {:induction false} TrimKeepsOut(s: string, c: char)
    requires c !in s
    ensures c !in TrimSpace(s)
  {
    var t := TrimSpace(s);
    var i := TrimSpaceShape(s);
    forall j | 0 <= j < |t| ensures t[j] != c {
      assert t[j] == s[i..i + |t|][j] == s[i + j];
    }
  }

  lemma {:induction false} CleanOfClean(os: seq<string>)
    requires forall i :: 0 <= i < |os| ==> os[i] != "" && Trimmed(os[i])
    ensures Clean(os) == os
  {
    if os != [] {
      TrimOfTrimmed(os[0]);
      CleanOfClean(os[1..]);
    }
  }

  lemma {:induction false} OriginPiece(pieces: seq<string>, i: nat) returns (k: nat)
    requires i < |Clean(pieces)|
    ensures k < |pieces| && TrimSpace(pieces[k]) == Clean(pieces)[i] != ""
  {
    var o := Clean(pieces)[i];
    CleanMembers(pieces, o);
    assert o in Clean(pieces);
    k :| 0 <= k < |pieces| && TrimSpace(pieces[k]) == o;
  }

  /** Round trip: the comma-joined list parses to the same list. */
  lemma {:induction false} OriginsRoundTrip(v: string)
    ensures Origins(Join(Origins(v), ",")) == Origins(v)
  {
    var os, pieces := Origins(v), Split(v, ',');
    if os == [] {
      assert Clean([""]) == [];
    } else {
      forall i | 0 <= i < |os| ensures ',' !in os[i] {
        var k := OriginPiece(pieces, i);
        TrimKeepsOut(pieces[k], ',');
      }
      forall i | 0 <= i < |os| ensures os[i] != "" && Trimmed(os[i]) {
        var k := OriginPiece(pieces, i);
        var _ := TrimSpaceShape(pieces[k]);
      }
      SplitOfJoin(os, ',');
      CleanOfClean(os);
    }
  }
}
