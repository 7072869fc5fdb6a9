/** Scope and consent decisions: `pkg/client/authenticate.go` (FilterScopes,
    ValidateScopes), `pkg/consent/model.go` and `pkg/consent/create.go`. A scope string
    is a list of space-separated words, section 3.3 of RFC 6749. */
module Scopes {
  import opened Common
  import opened Text

  /** The scopes named by a scope string, as a set. */
  function ScopeSet(scopes: string): set<string> {
    set w | w in Fields(scopes)
  }

  /** The words of `ws` that lie in `allowed`, in order, repeats kept. */
  function Keep(ws: seq<string>, allowed: set<string>): seq<string> {
    if ws == [] then [] else KeepOne(ws[0], allowed) + Keep(ws[1..], allowed)
  }

  function KeepOne(w: string, allowed: set<string>): seq<string> {
    if w in allowed then [w] else []
  }

  /** What `FilterScopes` returns for a client's scope string (`None`: nil client). */
  function Filtered(client: Option<string>, requested: string): string {
    if client.None? || client.value == "" then requested
    else Join(Keep(Fields(requested), ScopeSet(client.value)), " ")
  }

  lemma {:induction false} KeepAppend(ws: seq<string>, w: string, allowed: set<string>)
    ensures Keep(ws + [w], allowed) == Keep(ws, allowed) + KeepOne(w, allowed)
  {
    if ws == [] {
      assert (ws + [w])[1..] == [];
    } else {
      assert (ws + [w])[0] == ws[0] && (ws + [w])[1..] == ws[1..] + [w];
      KeepAppend(ws[1..], w, allowed);
      Assoc(KeepOne(ws[0], allowed), Keep(ws[1..], allowed), KeepOne(w, allowed));
    }
  }

  ghost predicate Valid(client: Option<string>, requested: string) {
    client.None? || client.value == "" || ScopeSet(requested) <= ScopeSet(client.value)
  }

  method FilterScopes(client: Option<string>, requested: string) returns (r: string)
    ensures r == Filtered(client, requested)
  {
    if client.None? || client.value == "" {
      return requested;
    }
    var allowed := SetOfFields(client.value);
    var words := Fields(requested);
    var kept: seq<string> := [];
    for i := 0 to |words|
      invariant kept == Keep(words[..i], allowed)
    {
      KeepAppend(words[..i], words[i], allowed);
      assert words[..i + 1] == words[..i] + [words[i]];
      if words[i] in allowed {
        kept := kept + [words[i]];
      }
    }
    assert words[..|words|] == words;
    r := Join(kept, " ");
  }

  method ValidateScopes(client: Option<string>, requested: string) returns (ok: bool)
    ensures ok <==> Valid(client, requested)
    ensures ok <==> client.None? || client.value == "" ||
                    forall w :: w in Fields(requested) ==> w in Fields(client.value)
  {
    if client.None? || client.value == "" || requested == "" {
      return true;
    }
    var allowed := SetOfFields(client.value);
    ok := AllIn(Fields(requested), allowed);
    assert ScopeSet(requested) <= allowed <==> forall w :: w in Fields(requested) ==> w in allowed;
  }

  /** The `allowed` and `granted` maps that the source fills in a loop. */
  method SetOfFields(scopes: string) returns (allowed: set<string>)
    ensures allowed == ScopeSet(scopes)
  {
    var words := Fields(scopes);
    allowed := {};
    for i := 0 to |words|
      invariant allowed == set w | w in words[..i]
    {
      allowed := allowed + {words[i]};
    }
    assert words[..|words|] == words;
  }

  method AllIn(words: seq<string>, allowed: set<string>) returns (ok: bool)
    ensures ok <==> forall w :: w in words ==> w in allowed
  {
    for i := 0 to |words|
      invariant forall j :: 0 <= j < i ==> words[j] in allowed
    {
      if words[i] !in allowed {
        return false;
      }
    }
    return true;
  }

  /** The positions from `i` on whose words are in `allowed`, in increasing order. */
  function Positions(ws: seq<string>, allowed: set<string>, i: nat): (at: seq<nat>)
    requires i <= |ws|
    ensures forall k :: 0 <= k < |at| ==> i <= at[k] < |ws| && ws[at[k]] in allowed
    ensures forall k, l :: 0 <= k < l < |at| ==> at[k] < at[l]
    ensures forall j :: i <= j < |ws| && ws[j] in allowed ==> j in at
    decreases |ws| - i
  {
    if i == |ws| then []
    else (if ws[i] in allowed then [i] else []) + Positions(ws, allowed, i + 1)
  }

  lemma {:induction false} KeepAtPositions(ws: seq<string>, allowed: set<string>, i: nat)
    requires i <= |ws|
    ensures |Keep(ws[i..], allowed)| == |Positions(ws, allowed, i)|
    ensures forall k :: 0 <= k < |Positions(ws, allowed, i)| ==>
      Keep(ws[i..], allowed)[k] == ws[Positions(ws, allowed, i)[k]]
    decreases |ws| - i
  {
    if i < |ws| {
      assert ws[i..][0] == ws[i] && ws[i..][1..] == ws[i + 1..];
      KeepAtPositions(ws, allowed, i + 1);
    }
  }

  lemma {:induction false} KeepMembers(ws: seq<string>, allowed: set<string>, w: string)
    ensures w in Keep(ws, allowed) <==> w in ws && w in allowed
  {
    if ws != [] {
      KeepMembers(ws[1..], allowed, w);
      assert w in ws <==> w == ws[0] || w in ws[1..];
    }
  }

  lemma {:induction false} KeepAllIn(ws: seq<string>, allowed: set<string>)
    requires forall i :: 0 <= i < |ws| ==> ws[i] in allowed
    ensures Keep(ws, allowed) == ws
  {
    if ws != [] {
      KeepAllIn(ws[1..], allowed);
    }
  }

  lemma {:induction false} KeepTwice(ws: seq<string>, allowed: set<string>)
    ensures forall w :: w in Keep(ws, allowed) <==> w in ws && w in allowed
    ensures Keep(Keep(ws, allowed), allowed) == Keep(ws, allowed)
  {
    forall w ensures w in Keep(ws, allowed) <==> w in ws && w in allowed {
      KeepMembers(ws, allowed, w);
    }
    KeepAllIn(Keep(ws, allowed), allowed);
  }

  /** The words of the filtered string are exactly the kept words of the request. */
  lemma {:induction false} FilteredWords(client: Option<string>, requested: string)
    ensures Fields(Filtered(client, requested)) ==
      if client.None? || client.value == "" then Fields(requested)
      else Keep(Fields(requested), ScopeSet(client.value))
  {
    if client.Some? && client.value != "" {
      var kept := Keep(Fields(requested), ScopeSet(client.value));
      KeepTwice(Fields(requested), ScopeSet(client.value));
      assert AreWords(kept) by {
        forall i | 0 <= i < |kept| ensures IsWord(kept[i]) {
          assert kept[i] in Fields(requested);
        }
      }
      FieldsOfJoin(kept);
    }
  }

  /** Whatever was requested, the filtered scope string passes `ValidateScopes`, grants
      every requested scope that the client allows and nothing else, and filtering it
      again changes nothing. */
  lemma {:induction false} FilteringIsSound(client: Option<string>, requested: string)
    ensures Valid(client, Filtered(client, requested))
    ensures client.Some? && client.value != "" ==>
      ScopeSet(Filtered(client, requested)) == ScopeSet(requested) * ScopeSet(client.value)
    ensures Filtered(client, Filtered(client, requested)) == Filtered(client, requested)
  {
    FilteredWords(client, requested);
    if client.Some? && client.value != "" {
      KeepTwice(Fields(requested), ScopeSet(client.value));
    }
  }

  /** The filtered scopes appear in the order of the request: the result's words are the
      request's words at increasing positions, exactly those that the client allows. */
  lemma {:induction false} FilteringKeepsOrder(client: string, requested: string)
    requires client != ""
    ensures
      var words, kept := Fields(requested), Fields(Filtered(Some(client), requested));
      var at := Positions(words, ScopeSet(client), 0);
      |kept| == |at| && forall k :: 0 <= k < |at| ==> kept[k] == words[at[k]]
  {
    FilteredWords(Some(client), requested);
    KeepAtPositions(Fields(requested), ScopeSet(client), 0);
    assert Fields(requested)[0..] == Fields(requested);
  }

  // -------------------------------------------------------------------- consent

  /** The user_consents table: the scopes last granted for a user and a client. */
  type Consents = map<(string, string), string>

  ghost predicate HasPrompt(prompt: string, value: string) {
    value in Fields(prompt)
  }

  /** `UpsertConsent`: the grant replaces the stored scopes, it is not merged in. */
  function Upsert(consents: Consents, user: string, client: string, scopes: string): Consents {
    consents[(user, client) := scopes]
  }

  ghost predicate NeedsConsent(required: Option<bool>, consents: Consents, user: string,
                               client: string, scopes: string, prompt: string) {
    && required == Some(true)
    && (|| HasPrompt(prompt, "consent")
        || (user, client) !in consents
        || !(ScopeSet(scopes) <= ScopeSet(consents[(user, client)])))
  }

  method ContainsPromptValue(prompt: string, value: string) returns (found: bool)
    ensures found <==> HasPrompt(prompt, value)
  {
    var words := Fields(prompt);
    for i := 0 to |words|
      invariant value !in words[..i]
    {
      if words[i] == value {
        return true;
      }
    }
    assert words[..|words|] == words;
    return false;
  }

  method ScopesCovered(granted: string, requested: string) returns (ok: bool)
    ensures ok <==> ScopeSet(requested) <= ScopeSet(granted)
    ensures ok <==> forall w :: w in Fields(requested) ==> w in Fields(granted)
  {
    var have := SetOfFields(granted);
    ok := AllIn(Fields(requested), have);
    assert ScopeSet(requested) <= have <==> forall w :: w in Fields(requested) ==> w in have;
  }

  /** The refresh grant's own copy of that test. */
  method IsScopeSubset(requested: string, original: string) returns (ok: bool)
    ensures ok <==> ScopeSet(requested) <= ScopeSet(original)
    ensures ok <==> forall w :: w in Fields(requested) ==> w in Fields(original)
  {
    var orig := SetOfFields(original);
    ok := AllIn(Fields(requested), orig);
    assert ScopeSet(requested) <= orig <==> forall w :: w in Fields(requested) ==> w in orig;
  }

  method DecideConsent(required: Option<bool>, consents: Consents, user: string, client: string,
                       scopes: string, prompt: string) returns (needed: bool)
    ensures needed <==> NeedsConsent(required, consents, user, client, scopes, prompt)
    ensures required != Some(true) ==> !needed
    ensures required == Some(true) && ("consent" in Fields(prompt) || (user, client) !in consents) ==> needed
    ensures required == Some(true) && "consent" !in Fields(prompt) && (user, client) in consents ==>
      (needed <==> exists w :: w in Fields(scopes) && w !in Fields(consents[(user, client)]))
  {
    if required.None? || !required.value {
      return false;
    }
    var reprompt := ContainsPromptValue(prompt, "consent");
    if reprompt || (user, client) !in consents {
      return true;
    }
    var covered := ScopesCovered(consents[(user, client)], scopes);
    return !covered;
  }

  /** The table after a history of grants, each by a user to a client. */
  function Granted(consents: Consents, grants: seq<((string, string), string)>): Consents
    decreases |grants|
  {
    if grants == [] then consents
    else Granted(Upsert(consents, grants[0].0.0, grants[0].0.1, grants[0].1), grants[1..])
  }

  lemma {:induction false} LastGrantStands(consents: Consents, grants: seq<((string, string), string)>, i: nat)
    requires i < |grants| && forall j :: i < j < |grants| ==> grants[j].0 != grants[i].0
    ensures grants[i].0 in Granted(consents, grants) && Granted(consents, grants)[grants[i].0] == grants[i].1
    decreases |grants|
  {
    var next, rest := Upsert(consents, grants[0].0.0, grants[0].0.1, grants[0].1), grants[1..];
    assert forall j :: 0 <= j < |rest| ==> rest[j] == grants[j + 1];
    if i > 0 {
      LastGrantStands(next, rest, i - 1);
    } else {
      OthersLeaveAlone(next, rest, grants[0].0);
    }
  }

  lemma {:induction false} OthersLeaveAlone(
    consents: Consents, grants: seq<((string, string), string)>, k: (string, string))
    requires k in consents && forall j :: 0 <= j < |grants| ==> grants[j].0 != k
    ensures k in Granted(consents, grants) && Granted(consents, grants)[k] == consents[k]
    decreases |grants|
  {
    if grants != [] {
      var rest := grants[1..];
      assert forall j :: 0 <= j < |rest| ==> rest[j] == grants[j + 1];
      OthersLeaveAlone(Upsert(consents, grants[0].0.0, grants[0].0.1, grants[0].1), rest, k);
    }
  }

  /** After any history of grants by anyone to anyone, consent is asked again exactly for the
      requests that the LAST grant of this user to this client does not cover: grants replace
      each other, they are not merged. */
  lemma {:induction false} ConsentFollowsLastGrant(consents: Consents, grants: seq<((string, string), string)>, i: nat,
                                                   requested: string, prompt: string)
    requires i < |grants| && forall j :: i < j < |grants| ==> grants[j].0 != grants[i].0
    requires !HasPrompt(prompt, "consent")
    ensures NeedsConsent(Some(true), Granted(consents, grants), grants[i].0.0, grants[i].0.1, requested, prompt) <==>
      !Covers(grants[i].1, requested)
  {
    LastGrantStands(consents, grants, i);
    CoversIff(grants[i].1, requested);
  }

  /** Every requested word was granted. */
  ghost predicate Covers(granted: string, requested: string) {
    forall i :: 0 <= i < |Fields(requested)| ==> Fields(requested)[i] in Fields(granted)
  }

  lemma {:induction false} CoversIff(granted: string, requested: string)
    ensures Covers(granted, requested) <==> ScopeSet(requested) <= ScopeSet(granted)
  {
    var asked := Fields(requested);
    if ScopeSet(requested) <= ScopeSet(granted) {
      forall i | 0 <= i < |asked| ensures asked[i] in Fields(granted) {
        assert asked[i] in ScopeSet(requested);
      }
    }
    if Covers(granted, requested) {
      forall w | w in ScopeSet(requested) ensures w in ScopeSet(granted) {
        var i :| 0 <= i < |asked| && asked[i] == w;
      }
    }
  }

  /** A consented grant covers what filtering lets through: a request cut down by the
      client's scopes never asks again for anything the user granted in full. */
  lemma {:induction false} FilteredRequestStaysConsented(consents: Consents, user: string, client: string,
                                      clientScopes: Option<string>, granted: string, prompt: string)
    requires !HasPrompt(prompt, "consent")
    ensures !NeedsConsent(Some(true), Upsert(consents, user, client, granted), user, client,
                          Filtered(clientScopes, granted), prompt)
  {
    FilteringIsSound(clientScopes, granted);
  }
}
