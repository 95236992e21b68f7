/** Selector matching in the configuration file: `strmatch` fills a table over all prefixes, and
    `matches` tries the selectors one by one. */
module Glob {

  // ---- what a pattern means ----------------------------------------------------------------------

  /** What one pattern character may stand for. */
  predicate Fits(c: char, piece: string) {
    c == '*' || (|piece| == 1 && (c == '?' || piece[0] == c))
  }

  function Concat(pieces: seq<string>): string {
    if pieces == [] then "" else Concat(pieces[..|pieces| - 1]) + pieces[|pieces| - 1]
  }

  /** `pieces` cuts `str` into one piece for each pattern character. */
  ghost predicate Cuts(str: string, pattern: string, pieces: seq<string>) {
    && |pieces| == |pattern| && Concat(pieces) == str
    && forall i :: 0 <= i < |pieces| ==> Fits(pattern[i], pieces[i])
  }

  ghost predicate Matches(str: string, pattern: string) {
    exists pieces :: Cuts(str, pattern, pieces)
  }

  // ---- how prefixes decide longer prefixes -------------------------------------------------------

  lemma ConcatSnoc(pieces: seq<string>, piece: string)
    ensures Concat(pieces + [piece]) == Concat(pieces) + piece
  {
  }

  lemma MatchesEmpty(str: string)
    ensures Matches(str, "") <==> str == ""
  {
    if str == "" {
      assert Cuts("", "", []);
    }
  }

  /** The last pattern character takes a last piece of the string. */
  lemma MatchesSnoc(str: string, pattern: string, c: char)
    ensures Matches(str, pattern + [c]) <==>
            exists k :: 0 <= k <= |str| && Fits(c, str[k..]) && Matches(str[..k], pattern)
  {
    if Matches(str, pattern + [c]) {
      var pieces :| Cuts(str, pattern + [c], pieces);
      var init, last := pieces[..|pieces| - 1], pieces[|pieces| - 1];
      var k := |Concat(init)|;
      assert str[..k] == Concat(init) && str[k..] == last;
      assert (pattern + [c])[|pattern|] == c;
      assert Cuts(str[..k], pattern, init);
    }
    if k :| 0 <= k <= |str| && Fits(c, str[k..]) && Matches(str[..k], pattern) {
      var init :| Cuts(str[..k], pattern, init);
      var pieces := init + [str[k..]];
      ConcatSnoc(init, str[k..]);
      assert str[..k] + str[k..] == str;
      assert Cuts(str, pattern + [c], pieces);
    }
  }

  lemma MatchesStar(str: string, pattern: string)
    ensures Matches(str, pattern + "*") <==>
            Matches(str, pattern) || (str != "" && Matches(str[..|str| - 1], pattern + "*"))
  {
    MatchesSnoc(str, pattern, '*');
    if str != "" {
      var init := str[..|str| - 1];
      MatchesSnoc(init, pattern, '*');
      if k :| 0 <= k <= |init| && Fits('*', init[k..]) && Matches(init[..k], pattern) {
        assert init[..k] == str[..k];
        assert Fits('*', str[k..]);
      }
      if k :| 0 <= k <= |str| && Fits('*', str[k..]) && Matches(str[..k], pattern) {
        if k < |str| {
          assert init[..k] == str[..k];
          assert Fits('*', init[k..]);
        } else {
          assert str[..k] == str;
        }
      }
    }
    if Matches(str, pattern) {
      assert str[..|str|] == str && Fits('*', str[|str|..]);
    }
  }

  lemma MatchesOne(str: string, pattern: string, c: char)
    requires c != '*'
    ensures Matches(str, pattern + [c]) <==>
            str != "" && (c == '?' || str[|str| - 1] == c) && Matches(str[..|str| - 1], pattern)
  {
    MatchesSnoc(str, pattern, c);
    if str != "" && (c == '?' || str[|str| - 1] == c) {
      assert Fits(c, str[|str| - 1..]);
    }
  }

  // ---- the table ---------------------------------------------------------------------------------

  /** Whether the first `i` characters match the first `j` pattern characters. */
  ghost predicate Prefixes(str: string, pattern: string, i: nat, j: nat)
    requires i <= |str| && j <= |pattern|
  {
    Matches(str[..i], pattern[..j])
  }

  ghost predicate TableFor(lookup: array2<bool>, str: string, pattern: string) {
    lookup.Length0 == |str| + 1 && lookup.Length1 == |pattern| + 1
  }

  /** What each table cell is computed from. */
  lemma NextCell(str: string, pattern: string, i: nat, j: nat)
    requires i <= |str| && 0 < j <= |pattern|
    ensures pattern[j - 1] == '*' ==>
              (Prefixes(str, pattern, i, j) <==>
               Prefixes(str, pattern, i, j - 1) || (i > 0 && Prefixes(str, pattern, i - 1, j)))
    ensures pattern[j - 1] != '*' ==>
              (Prefixes(str, pattern, i, j) <==>
               i > 0 && (pattern[j - 1] == '?' || str[i - 1] == pattern[j - 1]) && Prefixes(str, pattern, i - 1, j - 1))
  {
    assert pattern[..j] == pattern[..j - 1] + [pattern[j - 1]];
    if i > 0 {
      assert str[..i][..i - 1] == str[..i - 1];
    }
    if pattern[j - 1] == '*' {
      MatchesStar(str[..i], pattern[..j - 1]);
    } else {
      MatchesOne(str[..i], pattern[..j - 1], pattern[j - 1]);
    }
  }

  method FillFirstRow(lookup: array2<bool>, str: string, pattern: string)
    requires TableFor(lookup, str, pattern)
    requires forall i, j :: 0 <= i <= |str| && 0 <= j <= |pattern| ==> !lookup[i, j]
    modifies lookup
    ensures forall j :: 0 <= j <= |pattern| ==> (lookup[0, j] <==> Prefixes(str, pattern, 0, j))
    ensures forall i :: 1 <= i <= |str| ==> !lookup[i, 0]
  {
    lookup[0, 0] := true;
    MatchesEmpty("");
    assert str[..0] == "" && pattern[..0] == "";
    for j := 1 to |pattern| + 1
      invariant forall k :: 0 <= k < j ==> (lookup[0, k] <==> Prefixes(str, pattern, 0, k))
      invariant forall k :: j <= k <= |pattern| ==> !lookup[0, k]
      invariant forall i :: 1 <= i <= |str| ==> !lookup[i, 0]
    {
      NextCell(str, pattern, 0, j);
      if pattern[j - 1] == '*' {
        lookup[0, j] := lookup[0, j - 1];
      }
    }
  }

  method FillRow(lookup: array2<bool>, str: string, pattern: string, above: nat, i: nat)
    requires TableFor(lookup, str, pattern) && i == above + 1 && i <= |str| && !lookup[i, 0]
    requires forall j :: 0 <= j <= |pattern| ==> (lookup[above, j] <==> Prefixes(str, pattern, above, j))
    modifies lookup
    ensures forall j :: 0 <= j <= |pattern| ==> (lookup[i, j] <==> Prefixes(str, pattern, i, j))
    ensures forall r, j :: 0 <= r <= |str| && r != i && 0 <= j <= |pattern| ==> lookup[r, j] == old(lookup[r, j])
  {
    MatchesEmpty(str[..i]);
    assert pattern[..0] == "";
    for j := 1 to |pattern| + 1
      invariant forall k :: 0 <= k < j ==> (lookup[i, k] <==> Prefixes(str, pattern, i, k))
      invariant forall r, k :: 0 <= r <= |str| && r != i && 0 <= k <= |pattern| ==> lookup[r, k] == old(lookup[r, k])
    {
      NextCell(str, pattern, i, j);
      if pattern[j - 1] == '*' {
        lookup[i, j] := lookup[i, j - 1] || lookup[i - 1, j];
      } else if pattern[j - 1] == '?' || str[i - 1] == pattern[j - 1] {
        lookup[i, j] := lookup[i - 1, j - 1];
      } else {
        lookup[i, j] := false;
      }
    }
  }

  method StrMatch(str: string, pattern: string) returns (r: bool)
    ensures r <==> Matches(str, pattern)
  {
    if |pattern| == 0 {
      MatchesEmpty(str);
      return |str| == 0;
    }
    var lookup := new bool[|str| + 1, |pattern| + 1]((i, j) => false);
    FillFirstRow(lookup, str, pattern);
    for i := 1 to |str| + 1
      invariant forall r, j :: 0 <= r < i && 0 <= j <= |pattern| ==> (lookup[r, j] <==> Prefixes(str, pattern, r, j))
      invariant forall r :: i <= r <= |str| ==> !lookup[r, 0]
    {
      FillRow(lookup, str, pattern, i - 1, i);
    }
    assert str[..|str|] == str && pattern[..|pattern|] == pattern;
    return lookup[|str|, |pattern|];
  }

  // ---- selectors ---------------------------------------------------------------------------------

  function Flatten(pieces: seq<string>): string {
    if pieces == [] then "" else pieces[0] + Flatten(pieces[1..])
  }

  lemma {:induction false} ConcatIsFlatten(pieces: seq<string>)
    ensures Concat(pieces) == Flatten(pieces)
  {
    if pieces != [] {
      var n := |pieces| - 1;
      ConcatIsFlatten(pieces[..n]);
      if n > 0 {
        ConcatIsFlatten(pieces[1..]);
        ConcatIsFlatten(pieces[1..][..n - 1]);
        assert pieces[..n][1..] == pieces[1..][..n - 1];
        assert Flatten(pieces[..n]) == pieces[0] + Flatten(pieces[1..][..n - 1]);
      }
    }
  }

  /** A leading star makes the pattern match wherever the rest matches some suffix. */
  lemma LeadingStarMatchesSuffixes(str: string, pattern: string)
    ensures Matches(str, "*" + pattern) <==> exists k :: 0 <= k <= |str| && Matches(str[k..], pattern)
  {
    if Matches(str, "*" + pattern) {
      var pieces :| Cuts(str, "*" + pattern, pieces);
      ConcatIsFlatten(pieces);
      ConcatIsFlatten(pieces[1..]);
      var k := |pieces[0]|;
      assert str[k..] == Concat(pieces[1..]);
      assert ("*" + pattern)[1..] == pattern;
      forall i | 0 <= i < |pieces[1..]|
        ensures Fits(pattern[i], pieces[1..][i])
      {
        assert ("*" + pattern)[i + 1] == pattern[i];
        assert Fits(("*" + pattern)[i + 1], pieces[i + 1]);
      }
      assert Cuts(str[k..], pattern, pieces[1..]);
    }
    if k :| 0 <= k <= |str| && Matches(str[k..], pattern) {
      var rest :| Cuts(str[k..], pattern, rest);
      var pieces := [str[..k]] + rest;
      ConcatIsFlatten(pieces);
      ConcatIsFlatten(rest);
      assert pieces[1..] == rest;
      assert str[..k] + str[k..] == str;
      forall i | 0 <= i < |pieces|
        ensures Fits(("*" + pattern)[i], pieces[i])
      {
        if i > 0 {
          assert Fits(pattern[i - 1], rest[i - 1]);
        }
      }
      assert Cuts(str, "*" + pattern, pieces);
    }
  }

  /** A selector starting with '^' describes the whole file name, any other one an end of it. */
  ghost predicate Selects(selector: string, filename: string) {
    if selector != "" && selector[0] == '^' then Matches(filename, selector[1..])
    else exists k :: 0 <= k <= |filename| && Matches(filename[k..], selector)
  }

  method ContextMatches(selectors: seq<string>, filename: string) returns (r: bool)
    ensures r <==> exists i :: 0 <= i < |selectors| && Selects(selectors[i], filename)
  {
    for n := 0 to |selectors|
      invariant forall i :: 0 <= i < n ==> !Selects(selectors[i], filename)
    {
      var selector := selectors[n];
      LeadingStarMatchesSuffixes(filename, selector);
      var hit: bool;
      if |selector| != 0 && selector[0] == '^' {
        hit := StrMatch(filename, selector[1..]);
      } else {
        hit := StrMatch(filename, "*" + selector);
      }
      if hit {
        return true;
      }
    }
    return false;
  }
}
