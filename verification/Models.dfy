/**
 Model names: the shell-style glob that routes match them with, and the weekly
 quota bucket a model family is metered by.
 */
module Models {
  import opened Options

  /** The weekly quota buckets: the one every model shares and the two family ones. */
  datatype Weekly = Shared | Fable | Sonnet

  /** ASCII lower case; every other character is left alone. */
  function Lower(c: char): char {
    if 'A' <= c <= 'Z' then c - 'A' + 'a' else c
  }

  /** `*` matches any text; every other character matches itself, ignoring ASCII case. */
  predicate GlobMatches(glob: string, model: string)
    decreases |glob|
  {
    if glob == [] then
      model == []
    else if glob[0] == '*' then
      exists i :: 0 <= i <= |model| && GlobMatches(glob[1..], model[i..])
    else
      model != [] && Lower(glob[0]) == Lower(model[0]) && GlobMatches(glob[1..], model[1..])
  }

  predicate AnyGlobMatches(globs: seq<string>, model: string) {
    exists i :: 0 <= i < |globs| && GlobMatches(globs[i], model)
  }

  // ── The language a glob declares ─────────────────────────

  function Stars(glob: string): nat {
    if glob == [] then 0 else (if glob[0] == '*' then 1 else 0) + Stars(glob[1..])
  }

  /** The text obtained by writing `parts[k]` in place of the k-th star. */
  function Fill(glob: string, parts: seq<string>): string
    requires |parts| == Stars(glob)
    decreases |glob|
  {
    if glob == [] then []
    else if glob[0] == '*' then parts[0] + Fill(glob[1..], parts[1..])
    else [glob[0]] + Fill(glob[1..], parts)
  }

  predicate SameText(a: string, b: string) {
    |a| == |b| && forall i :: 0 <= i < |a| ==> Lower(a[i]) == Lower(b[i])
  }

  ghost predicate InLanguage(glob: string, model: string) {
    exists parts: seq<string> :: |parts| == Stars(glob) && SameText(Fill(glob, parts), model)
  }

  /** Every match is a filling of the stars. */
  lemma {:induction false} MatchIsFilling(glob: string, model: string) returns (parts: seq<string>)
    requires GlobMatches(glob, model)
    ensures |parts| == Stars(glob) && SameText(Fill(glob, parts), model)
    decreases |glob|
  {
    if glob == [] {
      parts := [];
    } else if glob[0] == '*' {
      var i :| 0 <= i <= |model| && GlobMatches(glob[1..], model[i..]);
      var rest := MatchIsFilling(glob[1..], model[i..]);
      parts := [model[..i]] + rest;
      assert parts[1..] == rest;
      assert model == model[..i] + model[i..];
    } else {
      parts := MatchIsFilling(glob[1..], model[1..]);
    }
  }

  lemma {:induction false} SameTail(a: string, b: string, i: nat)
    requires SameText(a, b) && i <= |a|
    ensures SameText(a[i..], b[i..])
  {
    assert forall k :: 0 <= k < |a| - i ==> a[i..][k] == a[i + k] && b[i..][k] == b[i + k];
  }

  /** Every filling of the stars is matched. */
  lemma {:induction false} FillingMatches(glob: string, parts: seq<string>, model: string)
    requires |parts| == Stars(glob) && SameText(Fill(glob, parts), model)
    ensures GlobMatches(glob, model)
    decreases |glob|
  {
    if glob != [] {
      var text := Fill(glob, parts);
      if glob[0] == '*' {
        var i := |parts[0]|;
        assert Fill(glob[1..], parts[1..]) == text[i..];
        SameTail(text, model, i);
        FillingMatches(glob[1..], parts[1..], model[i..]);
      } else {
        assert Fill(glob[1..], parts) == text[1..];
        SameTail(text, model, 1);
        FillingMatches(glob[1..], parts, model[1..]);
      }
    }
  }

  /** The matcher decides exactly the declared language. */
  lemma {:induction false} GlobDecidesLanguage(glob: string, model: string)
    ensures GlobMatches(glob, model) <==> InLanguage(glob, model)
  {
    if GlobMatches(glob, model) {
      var parts := MatchIsFilling(glob, model);
    }
    if InLanguage(glob, model) {
      var parts: seq<string> :| |parts| == Stars(glob) && SameText(Fill(glob, parts), model);
      FillingMatches(glob, parts, model);
    }
  }

  /** Two globs in a row match exactly the texts that can be cut between them. */
  lemma {:induction false} GlobSplits(g1: string, g2: string, model: string)
    ensures GlobMatches(g1 + g2, model) <==>
            exists cut :: 0 <= cut <= |model| && GlobMatches(g1, model[..cut]) && GlobMatches(g2, model[cut..])
    decreases |g1|
  {
    if g1 == [] {
      assert g1 + g2 == g2;
      assert model[0..] == model && model[..0] == [];
    } else {
      assert (g1 + g2)[0] == g1[0];
      assert (g1 + g2)[1..] == g1[1..] + g2;
      if g1[0] == '*' {
        StarSplits(g1, g2, model);
      } else if model != [] {
        GlobSplits(g1[1..], g2, model[1..]);
        forall cut | 1 <= cut <= |model|
          ensures model[1..][..cut - 1] == model[..cut][1..] && model[1..][cut - 1..] == model[cut..]
        {
        }
        if GlobMatches(g1 + g2, model) {
          var c :| 0 <= c <= |model[1..]| && GlobMatches(g1[1..], model[1..][..c]) && GlobMatches(g2, model[1..][c..]);
          assert model[..c + 1][1..] == model[1..][..c];
          assert GlobMatches(g1, model[..c + 1]) && GlobMatches(g2, model[c + 1..]);
        }
        if cut :| 0 <= cut <= |model| && GlobMatches(g1, model[..cut]) && GlobMatches(g2, model[cut..]) {
          assert cut >= 1;
          assert GlobMatches(g1[1..], model[1..][..cut - 1]) && GlobMatches(g2, model[1..][cut - 1..]);
        }
      }
    }
  }

  /** A match of a glob that starts with a star, cut between its two parts. */
  lemma {:induction false} StarCut(g1: string, g2: string, model: string) returns (cut: nat)
    requires g1 != [] && g1[0] == '*'
    requires (g1 + g2)[0] == '*' && (g1 + g2)[1..] == g1[1..] + g2
    requires GlobMatches(g1 + g2, model)
    ensures cut <= |model| && GlobMatches(g1, model[..cut]) && GlobMatches(g2, model[cut..])
    decreases |g1|, 0
  {
    var i :| 0 <= i <= |model| && GlobMatches((g1 + g2)[1..], model[i..]);
    GlobSplits(g1[1..], g2, model[i..]);
    var c :| 0 <= c <= |model[i..]| && GlobMatches(g1[1..], model[i..][..c]) && GlobMatches(g2, model[i..][c..]);
    assert model[i..][..c] == model[..i + c][i..];
    assert model[i..][c..] == model[i + c..];
    cut := i + c;
  }

  /** The two parts of a cut, put back together. */
  lemma {:induction false} StarJoined(g1: string, g2: string, model: string, cut: nat)
    requires g1 != [] && g1[0] == '*'
    requires (g1 + g2)[0] == '*' && (g1 + g2)[1..] == g1[1..] + g2
    requires cut <= |model| && GlobMatches(g1, model[..cut]) && GlobMatches(g2, model[cut..])
    ensures GlobMatches(g1 + g2, model)
    decreases |g1|, 0
  {
    var i :| 0 <= i <= cut && GlobMatches(g1[1..], model[..cut][i..]);
    assert model[i..][..cut - i] == model[..cut][i..];
    assert model[i..][cut - i..] == model[cut..];
    GlobSplits(g1[1..], g2, model[i..]);
    assert GlobMatches((g1 + g2)[1..], model[i..]);
  }

  lemma {:induction false} StarSplits(g1: string, g2: string, model: string)
    requires g1 != [] && g1[0] == '*'
    requires (g1 + g2)[0] == '*' && (g1 + g2)[1..] == g1[1..] + g2
    ensures GlobMatches(g1 + g2, model) <==>
            exists cut :: 0 <= cut <= |model| && GlobMatches(g1, model[..cut]) && GlobMatches(g2, model[cut..])
    decreases |g1|, 1
  {
    hide GlobMatches;
    if GlobMatches(g1 + g2, model) {
      var cut := StarCut(g1, g2, model);
    }
    if cut :| 0 <= cut <= |model| && GlobMatches(g1, model[..cut]) && GlobMatches(g2, model[cut..]) {
      StarJoined(g1, g2, model, cut);
    }
    return;
  }

  // ── Families ─────────────────────────────────────────────

  function LowerAll(s: string): (r: string)
    ensures |r| == |s|
  {
    seq(|s|, i requires 0 <= i < |s| => Lower(s[i]))
  }

  predicate Contains(s: string, needle: string) {
    exists i :: 0 <= i <= |s| && needle <= s[i..]
  }

  /** The weekly bucket that governs a model; a request without one is on the shared bucket. */
  function WeeklyBucketFor(model: Option<string>): Weekly {
    if model.None? then Shared
    else if Contains(LowerAll(model.value), "fable") then Fable
    else if Contains(LowerAll(model.value), "sonnet") then Sonnet
    else Shared
  }
}
