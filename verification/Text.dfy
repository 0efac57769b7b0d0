/** Strings as Python sees them: searching, cutting, stripping, and splitting into lines. */
module Text {
  predicate At(t: string, i: int, p: string) {
    0 <= i && i + |p| <= |t| && t[i..i+|p|] == p
  }

  /** The least of the n positions from i on at which p stands, or -1. */
  function FirstOf(t: string, p: string, i: nat, n: nat): (r: int)
    ensures r == -1 || i <= r < i + n
  {
    if n == 0 then -1 else
    var r := FirstOf(t, p, i, n - 1);
    if r != -1 then r else if At(t, i + n - 1, p) then i + n - 1 else -1
  }

  /** str.find(p, from). */
  function Find(t: string, p: string, from: nat): (r: int)
    ensures r == -1 || from <= r <= |t| - |p|
  {
    if from + |p| > |t| then -1 else FirstOf(t, p, from, |t| - |p| - from + 1)
  }

  lemma {:induction false} FirstOfIsFirst(t: string, p: string, i: nat, n: nat)
    ensures var r := FirstOf(t, p, i, n); r != -1 ==> At(t, r, p)
    ensures var r := FirstOf(t, p, i, n); forall j :: (i <= j < i + n && (r == -1 || j < r)) ==> !At(t, j, p)
  {
    if n > 0 {
      FirstOfIsFirst(t, p, i, n - 1);
    }
  }

  /** What find returns is the least position, and -1 says that there is none. */
  lemma FindIsFirst(t: string, p: string, from: nat)
    ensures var r := Find(t, p, from); r != -1 ==> At(t, r, p)
    ensures var r := Find(t, p, from); forall i :: (from <= i && (r == -1 || i < r)) ==> !At(t, i, p)
  {
    if from + |p| <= |t| {
      FirstOfIsFirst(t, p, from, |t| - |p| - from + 1);
    }
  }

  /** So a position with p, and none before it, is what find returns. */
  lemma FindIs(t: string, p: string, from: nat, r: nat)
    requires from <= r && At(t, r, p)
    requires forall i :: from <= i < r ==> !At(t, i, p)
    ensures Find(t, p, from) == r
  {
    FindIsFirst(t, p, from);
  }

  lemma FindNone(t: string, p: string, from: nat)
    requires forall i :: from <= i ==> !At(t, i, p)
    ensures Find(t, p, from) == -1
  {
    FindIsFirst(t, p, from);
  }

  lemma SliceOfSlice(t: string, i: nat, j: nat, a: nat, b: nat)
    requires i <= j <= |t| && a <= b <= j - i
    ensures t[i..j][a..b] == t[i+a..i+b]
  {
    forall x | 0 <= x < b - a ensures t[i..j][a..b][x] == t[i+a..i+b][x] {}
  }

  lemma AtWhole(t: string)
    ensures At(t, 0, t)
  {
    assert t[0..|t|] == t;
  }

  /** A piece that ends before the cut can be read off the cut text. */
  lemma CutPiece(t: string, k: nat, i: nat, j: nat, p: string)
    requires At(t, i, p) && j == i + |p| && j <= k <= |t|
    ensures t[..k][i..j] == p
  {
    SliceOfSlice(t, 0, k, i, j);
  }

  lemma AtCut(t: string, k: nat, i: int, p: string)
    requires k <= |t|
    ensures At(t[..k], i, p) <==> At(t, i, p) && i + |p| <= k
  {
    if 0 <= i && i + |p| <= k {
      assert t[..k][i..i+|p|] == t[i..i+|p|];
    }
  }

  /** In a text cut at k, a search finds what it finds in the whole text if that is intact, else nothing. */
  lemma FindCut(t: string, p: string, from: nat, k: nat)
    requires k <= |t|
    ensures Find(t[..k], p, from) ==
      (var r := Find(t, p, from); if r != -1 && r + |p| <= k then r else -1)
  {
    FindIsFirst(t, p, from);
    FindIsFirst(t[..k], p, from);
    forall i | from <= i ensures At(t[..k], i, p) <==> At(t, i, p) && i + |p| <= k {
      AtCut(t, k, i, p);
    }
  }

  /** A string that stands at i has its pieces one after the other. */
  lemma AtSplit(t: string, i: int, a: string, b: string)
    ensures At(t, i, a + b) <==> At(t, i, a) && At(t, i + |a|, b)
  {
    if 0 <= i && i + |a| + |b| <= |t| {
      var w := t[i..i+|a|+|b|];
      assert t[i..i+|a|] == w[..|a|] && t[i+|a|..i+|a|+|b|] == w[|a|..];
      assert w == w[..|a|] + w[|a|..];
      if w == a + b {
        assert w[..|a|] == a && w[|a|..] == b;
      }
    }
  }

  /** How many of the first n characters belong to a class, from the left on without a gap. */
  function Leading(s: string, cut: char -> bool, n: nat): (r: nat)
    requires n <= |s|
    ensures r <= n
  {
    if n == 0 then 0 else
    var r := Leading(s, cut, n - 1);
    if r == n - 1 && cut(s[n-1]) then n else r
  }

  /** The end of s[lo..n] without the characters of the class at its right edge. */
  function Trailing(s: string, cut: char -> bool, lo: nat, n: nat): (r: nat)
    requires lo <= n <= |s|
    ensures lo <= r <= n
  {
    if n == lo then lo else if !cut(s[n-1]) then n else Trailing(s, cut, lo, n - 1)
  }

  /** str.strip, for a class of characters. */
  function Strip(s: string, cut: char -> bool): string {
    var lo := Leading(s, cut, |s|);
    s[lo..Trailing(s, cut, lo, |s|)]
  }

  /** Only characters of the class are cut off, and all of them at either edge. */
  lemma StripCutsEdges(s: string, cut: char -> bool)
    ensures var r := Strip(s, cut); r == "" || (!cut(r[0]) && !cut(r[|r|-1]))
    ensures exists lo, hi | 0 <= lo <= hi <= |s| :: (
      s[lo..hi] == Strip(s, cut) && (forall i :: 0 <= i < lo ==> cut(s[i])) && (forall i :: hi <= i < |s| ==> cut(s[i])))
  {
    var lo := Leading(s, cut, |s|);
    LeadingIs(s, cut, |s|);
    TrailingIs(s, cut, lo, |s|);
    var hi := Trailing(s, cut, lo, |s|);
    assert s[lo..hi] == Strip(s, cut);
  }

  lemma {:induction false} LeadingIs(s: string, cut: char -> bool, n: nat)
    requires n <= |s|
    ensures var r := Leading(s, cut, n); (forall i :: 0 <= i < r ==> cut(s[i])) && (r < n ==> !cut(s[r]))
  {
    if n > 0 { LeadingIs(s, cut, n - 1); }
  }

  lemma {:induction false} TrailingIs(s: string, cut: char -> bool, lo: nat, n: nat)
    requires lo <= n <= |s|
    ensures var r := Trailing(s, cut, lo, n); (forall i :: r <= i < n ==> cut(s[i])) && (lo < r ==> !cut(s[r-1]))
  {
    if n > lo && cut(s[n-1]) { TrailingIs(s, cut, lo, n - 1); }
  }

  /** Where str.splitlines breaks a line. */
  predicate IsBreak(c: char) {
    c == '\n' || c == '\r' || c == '\U{0B}' || c == '\U{0C}' || '\U{1C}' <= c <= '\U{1E}' || c == '\U{85}'
    || c == '\U{2028}' || c == '\U{2029}'
  }

  predicate NoBreak(c: char) { !IsBreak(c) }

  function SplitLines(s: string): seq<string>
    decreases |s|
  {
    if s == "" then [] else
    var n := Leading(s, NoBreak, |s|);
    if n == |s| then [s] else
    var skip := if s[n] == '\r' && n + 1 < |s| && s[n+1] == '\n' then 2 else 1;
    [s[..n]] + SplitLines(s[n+skip..])
  }

  /** The characters that str.strip takes for blanks. */
  predicate IsSpace(c: char) {
    IsBreak(c) || c == ' ' || c == '\t' || c == '\U{1F}' || c == '\U{A0}' || c == '\U{1680}' || c == '\U{202F}'
    || '\U{2000}' <= c <= '\U{200A}' || c == '\U{205F}' || c == '\U{3000}'
  }

  /** By code point: the characters that Unicode calls white space, and the four separators of ASCII. */
  lemma BlanksByCodePoint(c: char)
    ensures var n := c as int; IsSpace(c) <==>
      9 <= n <= 13 || 28 <= n <= 32 || 8192 <= n <= 8202 || n in {133, 160, 5760, 8232, 8233, 8239, 8287, 12288}
    ensures var n := c as int; IsBreak(c) <==> 10 <= n <= 13 || 28 <= n <= 30 || n in {133, 8232, 8233}
  {
  }

  predicate OneLine(s: string) { forall i :: 0 <= i < |s| ==> NoBreak(s[i]) }

  /** The first line of a text is what stands before the first break. */
  lemma FirstLine(line: string, rest: string)
    requires OneLine(line)
    ensures SplitLines(line + ("\n" + rest)) == [line] + SplitLines(rest)
  {
    var s := line + ("\n" + rest);
    LeadingIs(s, NoBreak, |s|);
    var n := Leading(s, NoBreak, |s|);
    assert s[|line|] == '\n';
    assert forall i :: 0 <= i < |line| ==> s[i] == line[i];
    assert n == |line|;
    assert s[..n] == line && s[n+1..] == rest;
  }
}
