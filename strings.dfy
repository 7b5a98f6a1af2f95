/**
 * Substring search on strings, the unanchored test of a regular expression
 * made of literal alternatives (`/A|B|C/.test(s)`), and the facts used to
 * show that a piece of text does NOT contain a given string.
 */
module Strings {

  /** `p` occurs somewhere in `s`, as a contiguous, case-sensitive substring. */
  ghost predicate Contains(s: string, p: string)
  {
    exists i :: 0 <= i <= |s| && p <= s[i..]
  }

  /** `p` occurs in `s` exactly when it starts `s` or occurs in `s` after its first character. */
  lemma ContainsStep(s: string, p: string)
    ensures Contains(s, p) <==> p <= s || (s != [] && Contains(s[1..], p))
  {
    if Contains(s, p) && !(p <= s) {
      var i :| 0 <= i <= |s| && p <= s[i..];
      assert i > 0;
      assert s[1..][i - 1..] == s[i..];
    }
    if s != [] && Contains(s[1..], p) {
      var i :| 0 <= i <= |s[1..]| && p <= s[1..][i..];
      assert s[1..][i..] == s[i + 1..];
    }
    if p <= s {
      assert s[0..] == s;
    }
  }

  /** A string occurring in `x` or in `y` occurs in `x + y`. */
  lemma ContainsAppend(x: string, y: string, p: string)
    requires Contains(x, p) || Contains(y, p)
    ensures Contains(x + y, p)
  {
    var s := x + y;
    if Contains(x, p) {
      var i :| 0 <= i <= |x| && p <= x[i..];
      assert s[i..][..|p|] == x[i..][..|p|];
    } else {
      var i :| 0 <= i <= |y| && p <= y[i..];
      assert s[|x| + i..] == y[i..];
    }
  }

  /**
   * Alternation of literal strings anchored at the start of `s`: the regular
   * expression engine tries the alternatives from left to right and succeeds
   * on the first one that is a prefix of `s`.
   */
  function MatchesHere(alternatives: seq<string>, s: string): (r: bool)
    ensures r <==> exists k :: 0 <= k < |alternatives| && alternatives[k] <= s
  {
    if alternatives == [] then false
    else alternatives[0] <= s || MatchesHere(alternatives[1..], s)
  }

  /**
   * `/A|B|.../.test(s)` for literal alternatives and no flags: the engine
   * tries every start position of `s` in turn, including the end of the
   * string, and reports whether the anchored alternation matched at one.
   * The pattern is unanchored and case-sensitive, so the test holds exactly
   * when one alternative occurs somewhere in `s`.
   */
  function RegexTest(alternatives: seq<string>, s: string): (r: bool)
    decreases |s|
    ensures r <==> exists k :: 0 <= k < |alternatives| && Contains(s, alternatives[k])
  {
    var here := MatchesHere(alternatives, s);
    var later := s != [] && RegexTest(alternatives, s[1..]);
    forall k | 0 <= k < |alternatives|
      ensures Contains(s, alternatives[k]) <==> alternatives[k] <= s || (s != [] && Contains(s[1..], alternatives[k]))
    {
      ContainsStep(s, alternatives[k]);
    }
    here || later
  }

  /** The strings of `pieces`, joined in order with nothing between them. */
  function Concat(pieces: seq<string>): (r: string)
    ensures pieces != [] ==> pieces[0] <= r
    ensures |pieces| == 1 ==> r == pieces[0]
  {
    if pieces == [] then "" else pieces[0] + Concat(pieces[1..])
  }

  /** Joining two lists of pieces is joining their two joins. */
  lemma {:induction false} ConcatAppend(xs: seq<string>, ys: seq<string>)
    ensures Concat(xs + ys) == Concat(xs) + Concat(ys)
  {
    if xs == [] {
      assert xs + ys == ys;
    } else {
      assert (xs + ys)[0] == xs[0];
      assert (xs + ys)[1..] == xs[1..] + ys;
      ConcatAppend(xs[1..], ys);
    }
  }

  /** Joining with an empty string in the middle changes nothing. */
  lemma EmptyMiddle(x: string, y: string)
    ensures x + "" + y == x + y
  {
    assert x + "" == x;
  }

  /** The two halves of a join are recovered by slicing at the join point. */
  lemma SplitAt(x: string, y: string)
    ensures (x + y)[..|x|] == x && (x + y)[|x|..] == y
  {
  }

  /** A join of three strings is recovered piece by piece by slicing. */
  lemma Framed(x: string, m: string, y: string)
    ensures |x + m + y| == |x| + |m| + |y|
    ensures (x + m + y)[..|x|] == x
    ensures (x + m + y)[|x|..|x| + |m|] == m
    ensures (x + m + y)[|x| + |m|..] == y
  {
    var s := x + m + y;
    assert s[..|x|] == x;
    assert s[|x|..|x| + |m|] == m;
    assert s[|x| + |m|..] == y;
  }

  /** `p` occurs in any string that has it in the middle. */
  lemma ContainsMiddle(x: string, p: string, y: string)
    ensures Contains(x + p + y, p)
  {
    var s := x + p + y;
    assert s[|x|..] == p + y;
  }

  /** Every piece of a list occurs in the join of the list. */
  lemma {:induction false} ContainsPiece(pieces: seq<string>, k: nat)
    requires k < |pieces|
    ensures Contains(Concat(pieces), pieces[k])
  {
    if k == 0 {
      var s := Concat(pieces);
      assert s[0..] == s;
      assert pieces[0] <= s;
    } else {
      ContainsPiece(pieces[1..], k - 1);
      ContainsAppend(pieces[0], Concat(pieces[1..]), pieces[k]);
    }
  }

  /**
   * `s` has no character `a` immediately followed by `b`, and does not end
   * in `a` (so no such pair can straddle a join of `s` with a later string).
   */
  ghost predicate AvoidsPair(s: string, a: char, b: char)
  {
    (forall i :: 0 <= i < |s| - 1 ==> !(s[i] == a && s[i + 1] == b)) && (s == [] || s[|s| - 1] != a)
  }

  lemma AvoidsPairAppend(x: string, y: string, a: char, b: char)
    requires AvoidsPair(x, a, b) && AvoidsPair(y, a, b)
    ensures AvoidsPair(x + y, a, b)
  {
    var s := x + y;
    forall i | 0 <= i < |s| - 1
      ensures !(s[i] == a && s[i + 1] == b)
    {
      if i + 1 < |x| {
        assert s[i] == x[i] && s[i + 1] == x[i + 1];
      } else if i + 1 == |x| {
        assert s[i] == x[i];
      } else {
        assert s[i] == y[i - |x|] && s[i + 1] == y[i + 1 - |x|];
      }
    }
  }

  /** A join of pieces that each avoid the pair avoids it too. */
  lemma {:induction false} AvoidsPairConcat(pieces: seq<string>, a: char, b: char)
    requires forall c | c in pieces :: AvoidsPair(c, a, b)
    ensures AvoidsPair(Concat(pieces), a, b)
  {
    if pieces != [] {
      assert pieces[0] in pieces;
      assert forall c | c in pieces[1..] :: c in pieces;
      AvoidsPairConcat(pieces[1..], a, b);
      AvoidsPairAppend(pieces[0], Concat(pieces[1..]), a, b);
    }
  }

  /** A string whose first two characters neither half avoids is missing from the join. */
  lemma AvoidsPairExcludesJoin(x: string, y: string, p: string)
    requires 2 <= |p| && AvoidsPair(x, p[0], p[1]) && AvoidsPair(y, p[0], p[1])
    ensures !Contains(x + y, p)
  {
    AvoidsPairAppend(x, y, p[0], p[1]);
    AvoidsPairExcludes(x + y, p, 0);
  }

  /**
   * A text that avoids two adjacent characters of `p` cannot contain `p`:
   * this is how absence of a string from a fixed text is established.
   */
  lemma AvoidsPairExcludes(s: string, p: string, j: nat)
    requires j + 1 < |p| && AvoidsPair(s, p[j], p[j + 1])
    ensures !Contains(s, p)
  {
    forall i | 0 <= i <= |s|
      ensures !(p <= s[i..])
    {
      if i + j + 1 < |s| {
        assert !(s[i + j] == p[j] && s[i + j + 1] == p[j + 1]);
      }
    }
  }
}
