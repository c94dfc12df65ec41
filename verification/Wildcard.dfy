/**
 * The glob matcher of the verbose-logging module list: '*' stands for any string, '?' for any one
 * character. It scans with two saved positions and only ever returns to the latest star.
 */
module Wildcard {
  /** A C string up to its terminator. */
  type CString = s: string | '\0' !in s witness ""

  /** What a pointer into a C string sees: the terminator at the end. */
  function Peek(s: CString, i: nat): (c: char)
    requires i <= |s|
    ensures c == '\0' <==> i == |s|
  {
    if i < |s| then assert s[i] in s; s[i] else '\0'
  }

  /** The pattern from position i on stands for the string from position j on. */
  ghost predicate Matches(wild: CString, i: nat, str: CString, j: nat)
    requires i <= |wild| && j <= |str|
    decreases |wild| - i, 0
  {
    if i == |wild| then j == |str|
    else if wild[i] == '*' then MatchesFrom(wild, i + 1, str, j)
    else j < |str| && (wild[i] == '?' || wild[i] == str[j]) && Matches(wild, i + 1, str, j + 1)
  }

  /** The pattern from i on matches some suffix of the string that starts at j or later. */
  ghost predicate MatchesFrom(wild: CString, i: nat, str: CString, j: nat)
    requires i <= |wild|
    decreases |wild| - i, 1
  {
    exists k: nat | j <= k <= |str| :: Matches(wild, i, str, k)
  }

  // ---- the language of a pattern

  /** A star stands for any string, a question mark for any one character, another character for itself. */
  predicate Stands(c: char, part: string) {
    c == '*' || (|part| == 1 && (c == '?' || part[0] == c))
  }

  function Joined(parts: seq<string>): string {
    if parts == [] then "" else parts[0] + Joined(parts[1..])
  }

  ghost predicate Spells(pattern: string, parts: seq<string>, text: string) {
    && |parts| == |pattern| && Joined(parts) == text
    && forall i | 0 <= i < |pattern| :: Stands(pattern[i], parts[i])
  }

  lemma SpellsMore(pattern: string, parts: seq<string>, text: string, c: char, part: string)
    requires Spells(pattern, parts, text) && Stands(c, part)
    ensures Spells([c] + pattern, [part] + parts, part + text)
  {
    assert ([part] + parts)[1..] == parts;
  }

  lemma {:induction false} MatchIsSpelt(wild: CString, i: nat, str: CString, j: nat) returns (parts: seq<string>)
    requires i <= |wild| && j <= |str| && Matches(wild, i, str, j)
    ensures Spells(wild[i..], parts, str[j..])
    decreases |wild| - i
  {
    if i == |wild| {
      parts := [];
    } else {
      assert wild[i..] == [wild[i]] + wild[i + 1..];
      var k := j + 1;
      if wild[i] == '*' {
        k :| j <= k <= |str| && Matches(wild, i + 1, str, k);
      }
      var rest := MatchIsSpelt(wild, i + 1, str, k);
      assert str[j..] == str[j..k] + str[k..];
      SpellsMore(wild[i + 1..], rest, str[k..], wild[i], str[j..k]);
      parts := [str[j..k]] + rest;
    }
  }

  lemma {:induction false} SpeltIsMatch(wild: CString, i: nat, str: CString, j: nat, parts: seq<string>)
    requires i <= |wild| && j <= |str| && Spells(wild[i..], parts, str[j..])
    ensures Matches(wild, i, str, j)
    decreases |wild| - i
  {
    if i < |wild| {
      var k := j + |parts[0]|;
      assert Stands(wild[i..][0], parts[0]);
      assert str[j..] == parts[0] + Joined(parts[1..]);
      assert str[k..] == Joined(parts[1..]);
      assert Spells(wild[i + 1..], parts[1..], str[k..]) by {
        forall x | 0 <= x < |wild| - i - 1 ensures Stands(wild[i + 1..][x], parts[1..][x]) {
          assert Stands(wild[i..][x + 1], parts[x + 1]);
        }
      }
      SpeltIsMatch(wild, i + 1, str, k, parts[1..]);
      assert |parts[0]| == 1 ==> str[j] == parts[0][0];
    }
  }

  /** A string matches exactly when it can be put together from what the pattern's characters stand for. */
  lemma MatchesExactly(wild: CString, str: CString)
    ensures Matches(wild, 0, str, 0) <==> exists parts :: Spells(wild, parts, str)
  {
    assert wild[0..] == wild && str[0..] == str;
    if Matches(wild, 0, str, 0) {
      var parts := MatchIsSpelt(wild, 0, str, 0);
    }
    if parts :| Spells(wild, parts, str) {
      SpeltIsMatch(wild, 0, str, 0, parts);
    }
  }

  // ---- the scan

  /** Between the two positions the pattern has no star and fits the string character by character. */
  ghost predicate Fits(wild: CString, mp: nat, i: nat, str: CString, from: nat, j: nat) {
    && mp <= i <= |wild| && from <= j <= |str| && i - mp == j - from
    && forall x | mp <= x < i :: wild[x] != '*'
  }

  /** A star takes in more of the string: where it matches late it matches early. */
  lemma StarAbsorbs(wild: CString, i: nat, str: CString, j: nat, k: nat)
    requires i < |wild| && wild[i] == '*' && j <= k <= |str|
    requires Matches(wild, i, str, k)
    ensures Matches(wild, i, str, j)
  {
    var m: nat :| k <= m <= |str| && Matches(wild, i + 1, str, m);
  }

  /** A part without stars takes exactly as many characters as it has. */
  lemma {:induction false} PartConsumes(wild: CString, mp: nat, i: nat, str: CString, k: nat)
    requires mp <= i <= |wild| && k <= |str|
    requires forall x | mp <= x < i :: wild[x] != '*'
    requires Matches(wild, mp, str, k)
    ensures k + (i - mp) <= |str| && Matches(wild, i, str, k + (i - mp))
    decreases i - mp
  {
    if mp < i {
      PartConsumes(wild, mp + 1, i, str, k + 1);
    }
  }

  /**
   * Meeting a new star, the earlier one may be forgotten: any match that starts the part after it
   * later also reaches the new star later, where the new star makes up the difference.
   */
  lemma LatestStarSuffices(wild: CString, mp: nat, i: nat, str: CString, from: nat, j: nat)
    requires Fits(wild, mp, i, str, from, j) && i < |wild| && wild[i] == '*'
    requires MatchesFrom(wild, mp, str, from)
    ensures Matches(wild, i, str, j)
  {
    var k: nat :| from <= k <= |str| && Matches(wild, mp, str, k);
    PartConsumes(wild, mp, i, str, k);
    StarAbsorbs(wild, i, str, j, k + (i - mp));
  }

  /** At the end of the string no later start of the part leaves enough characters for it. */
  lemma NoLaterStart(wild: CString, mp: nat, i: nat, str: CString, from: nat)
    requires Fits(wild, mp, i, str, from, |str|)
    ensures !MatchesFrom(wild, mp, str, from + 1)
  {
    forall k: nat | from + 1 <= k <= |str| ensures !Matches(wild, mp, str, k) {
      if Matches(wild, mp, str, k) {
        PartConsumes(wild, mp, i, str, k);
      }
    }
  }

  lemma FitsOneMore(wild: CString, mp: nat, i: nat, str: CString, from: nat, j: nat)
    requires Fits(wild, mp, i, str, from, j) && i < |wild| && j < |str| && wild[i] != '*'
    ensures Fits(wild, mp, i + 1, str, from, j + 1)
  {
  }

  lemma FromSplits(wild: CString, mp: nat, str: CString, j: nat)
    requires mp <= |wild| && j <= |str|
    ensures MatchesFrom(wild, mp, str, j) <==> Matches(wild, mp, str, j) || MatchesFrom(wild, mp, str, j + 1)
  {
  }

  /** The scan answers exactly whether the string is in the language of the pattern. */
  method Wildcmp(wild: CString, str: CString) returns (r: bool)
    ensures r <==> Matches(wild, 0, str, 0)
  {
    var w: nat, s: nat := 0, 0;
    while Peek(str, s) != '\0' && Peek(wild, w) != '*'
      invariant w <= |wild| && s <= |str|
      invariant Matches(wild, 0, str, 0) <==> Matches(wild, w, str, s)
      decreases |str| - s
    {
      if Peek(wild, w) != Peek(str, s) && Peek(wild, w) != '?' {
        return false;
      }
      w, s := w + 1, s + 1;
    }

    var saved, mp: nat, cp: nat := false, 0, 0;
    while Peek(str, s) != '\0'
      invariant w <= |wild| && s <= |str|
      invariant !saved ==> s == |str| || Peek(wild, w) == '*'
      invariant !saved ==> mp == 0 && (Matches(wild, 0, str, 0) <==> Matches(wild, w, str, s))
      invariant saved ==> 1 <= mp && 1 <= cp && Fits(wild, mp, w, str, cp - 1, s)
      invariant saved ==> (Matches(wild, 0, str, 0) <==> Matches(wild, w, str, s) || MatchesFrom(wild, mp, str, cp))
      decreases |wild| - mp, |str| + 1 - cp, |str| - s
    {
      if Peek(wild, w) == '*' {
        if saved && MatchesFrom(wild, mp, str, cp) {
          FromSplits(wild, mp, str, cp - 1);
          LatestStarSuffices(wild, mp, w, str, cp - 1, s);
        }
        w := w + 1;
        if Peek(wild, w) == '\0' {
          assert Matches(wild, w, str, |str|);
          return true;
        }
        FromSplits(wild, w, str, s);
        saved, mp, cp := true, w, s + 1;
      } else if Peek(wild, w) == Peek(str, s) || Peek(wild, w) == '?' {
        FitsOneMore(wild, mp, w, str, cp - 1, s);
        w, s := w + 1, s + 1;
      } else {
        FromSplits(wild, mp, str, cp);
        w, s, cp := mp, cp, cp + 1;
      }
    }

    if saved {
      NoLaterStart(wild, mp, w, str, cp - 1);
    }
    while Peek(wild, w) == '*'
      invariant w <= |wild|
      invariant Matches(wild, 0, str, 0) <==> Matches(wild, w, str, |str|)
      decreases |wild| - w
    {
      FromSplits(wild, w + 1, str, |str|);
      w := w + 1;
    }
    return Peek(wild, w) == '\0';
  }
}
