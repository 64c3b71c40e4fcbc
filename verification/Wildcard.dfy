/** Wildcard matching by one in-place row. As in the code, `*` also matches the path separator. */
module Wildcard {
  predicate PieceFits(pc: char, piece: string) {
    pc == '*' || (|piece| == 1 && (pc == '?' || piece[0] == pc))
  }

  function Join(pieces: seq<string>): string {
    if |pieces| == 0 then "" else Join(pieces[..|pieces| - 1]) + pieces[|pieces| - 1]
  }

  /** `text` cut into one piece for each pattern character, every piece fitting its character. */
  ghost predicate CutBy(pattern: string, text: string, pieces: seq<string>) {
    && |pieces| == |pattern|
    && Join(pieces) == text
    && forall i :: 0 <= i < |pattern| ==> PieceFits(pattern[i], pieces[i])
  }

  /** The first `i` pattern characters match the first `j` characters of the text. */
  ghost predicate MatchesTo(pattern: string, text: string, i: nat, j: nat)
    requires i <= |pattern| && j <= |text|
  {
    if i == 0 then j == 0
    else if pattern[i - 1] == '*' then
      exists k {:trigger MatchesTo(pattern, text, i - 1, k)} :: 0 <= k <= j && MatchesTo(pattern, text, i - 1, k)
    else j > 0 && (pattern[i - 1] == '?' || pattern[i - 1] == text[j - 1]) && MatchesTo(pattern, text, i - 1, j - 1)
  }

  ghost predicate Matches(pattern: string, text: string) {
    MatchesTo(pattern, text, |pattern|, |text|)
  }

  lemma {:induction false} CutMatches(pattern: string, text: string, i: nat, j: nat, pieces: seq<string>)
    requires i <= |pattern| && j <= |text| && CutBy(pattern[..i], text[..j], pieces)
    ensures MatchesTo(pattern, text, i, j)
  {
    if i > 0 {
      var before := pieces[..i - 1];
      var k := |Join(before)|;
      assert text[..j] == Join(before) + pieces[i - 1];
      assert text[..k] == Join(before);
      assert PieceFits(pattern[..i][i - 1], pieces[i - 1]);
      forall m | 0 <= m < i - 1 ensures PieceFits(pattern[..i - 1][m], before[m]) {
        assert PieceFits(pattern[..i][m], pieces[m]);
      }
      CutMatches(pattern, text, i - 1, k, before);
      if pattern[i - 1] != '*' { assert text[j - 1] == pieces[i - 1][0]; }
    }
  }

  lemma {:induction false} MatchIsCut(pattern: string, text: string, i: nat, j: nat) returns (pieces: seq<string>)
    requires i <= |pattern| && j <= |text| && MatchesTo(pattern, text, i, j)
    ensures CutBy(pattern[..i], text[..j], pieces)
  {
    if i == 0 {
      pieces := [];
    } else {
      var k := j - 1;
      if pattern[i - 1] == '*' { k :| 0 <= k <= j && MatchesTo(pattern, text, i - 1, k); }
      var before := MatchIsCut(pattern, text, i - 1, k);
      pieces := before + [text[k..j]];
      assert pieces[..i - 1] == before && text[..j] == text[..k] + text[k..j];
      forall m | 0 <= m < i ensures PieceFits(pattern[..i][m], pieces[m]) {
        if m < i - 1 { assert PieceFits(pattern[..i - 1][m], before[m]); }
      }
    }
  }

  /** A pattern matches a text exactly when the text can be cut into fitting pieces. */
  lemma MatchesIsCutting(pattern: string, text: string)
    ensures Matches(pattern, text) <==> exists pieces :: CutBy(pattern, text, pieces)
  {
    assert pattern[..|pattern|] == pattern && text[..|text|] == text;
    if Matches(pattern, text) {
      var pieces := MatchIsCut(pattern, text, |pattern|, |text|);
    }
    if pieces :| CutBy(pattern, text, pieces) {
      CutMatches(pattern, text, |pattern|, |text|, pieces);
    }
  }

  /** A star either matches nothing more or stretches by one character. */
  lemma StarStretches(pattern: string, text: string, i: nat, j: nat)
    requires 0 < i <= |pattern| && pattern[i - 1] == '*' && j <= |text|
    ensures MatchesTo(pattern, text, i, j) <==>
      MatchesTo(pattern, text, i - 1, j) || (j > 0 && MatchesTo(pattern, text, i, j - 1))
  {
  }

  /** The row of the dynamic program, updated in place: `dp[j]` iff the processed prefix matches `text[..j]`. */
  method WildcardMatch(pattern: string, text: string) returns (matched: bool)
    ensures matched <==> Matches(pattern, text)
  {
    var tlen := |text|;
    var dp := new bool[tlen + 1](_ => false);
    dp[0] := true;
    for i := 0 to |pattern|
      invariant forall j :: 0 <= j <= tlen ==> (dp[j] <==> MatchesTo(pattern, text, i, j))
    {
      var pc := pattern[i];
      if pc == '*' {
        StarStretches(pattern, text, i + 1, 0);
        for j := 1 to tlen + 1
          invariant forall m :: 0 <= m < j ==> (dp[m] <==> MatchesTo(pattern, text, i + 1, m))
          invariant forall m :: j <= m <= tlen ==> (dp[m] <==> MatchesTo(pattern, text, i, m))
        {
          StarStretches(pattern, text, i + 1, j);
          dp[j] := dp[j] || dp[j - 1];
        }
      } else {
        for j := tlen downto 0
          invariant forall m :: 0 <= m <= j ==> (dp[m] <==> MatchesTo(pattern, text, i, m))
          invariant forall m :: j < m <= tlen ==> (dp[m] <==> MatchesTo(pattern, text, i + 1, m))
        {
          dp[j + 1] := dp[j] && (pc == '?' || pc == text[j]);
        }
        dp[0] := false;
      }
    }
    matched := dp[tlen];
  }

  /** The candidates that some pattern matches, in their order. */
  ghost function Filtered(candidates: seq<string>, patterns: seq<string>): seq<string> {
    if |candidates| == 0 then []
    else
      var init, last := candidates[..|candidates| - 1], candidates[|candidates| - 1];
      Filtered(init, patterns) + (if exists p :: p in patterns && Matches(p, last) then [last] else [])
  }

  /** The candidates at these positions, in this order, and no other position is one of a matching candidate. */
  ghost predicate Selects(at: seq<nat>, candidates: seq<string>, patterns: seq<string>, kept: seq<string>) {
    && |at| == |kept|
    && (forall m, n :: 0 <= m < n < |at| ==> at[m] < at[n])
    && (forall m :: 0 <= m < |at| ==> at[m] < |candidates| && kept[m] == candidates[at[m]])
    && (forall i :: 0 <= i < |candidates| ==>
          (i in at <==> exists p :: p in patterns && Matches(p, candidates[i])))
  }

  /** Every matching candidate is kept as often as it occurs, and in the order in which they occur. */
  lemma {:induction false} FilteredSelects(candidates: seq<string>, patterns: seq<string>) returns (at: seq<nat>)
    ensures Selects(at, candidates, patterns, Filtered(candidates, patterns))
    decreases |candidates|
  {
    hide Matches;
    at := [];
    if |candidates| > 0 {
      var n := |candidates| - 1;
      at := FilteredSelects(candidates[..n], patterns);
      if exists p :: p in patterns && Matches(p, candidates[n]) { at := at + [n]; }
    }
  }

  method WildcardFilter(candidates: seq<string>, patterns: seq<string>) returns (kept: seq<string>)
    ensures kept == Filtered(candidates, patterns)
    ensures forall c :: c in kept <==> c in candidates && exists p :: p in patterns && Matches(p, c)
  {
    kept := [];
    for i := 0 to |candidates|
      invariant kept == Filtered(candidates[..i], patterns)
      invariant forall c :: c in kept <==> c in candidates[..i] && exists p :: p in patterns && Matches(p, c)
    {
      var any := false;
      for j := 0 to |patterns|
        invariant any <==> exists p :: p in patterns[..j] && Matches(p, candidates[i])
      {
        var matched := WildcardMatch(patterns[j], candidates[i]);
        any := any || matched;
      }
      assert patterns[..|patterns|] == patterns;
      assert candidates[..i + 1][..i] == candidates[..i];
      if any { kept := kept + [candidates[i]]; }
    }
    assert candidates[..|candidates|] == candidates;
  }
}
