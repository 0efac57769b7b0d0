/**
 * Splitting the text between the parentheses of a call into its arguments (tools/prog2c_wrap.py,
 * split_args): commas inside brackets do not separate.
 */
module SplitArguments {
  import opened Prelude
  import opened Text

  predicate Opens(c: char) { c in {'(', '[', '{'} }

  predicate Closes(c: char) { c in {')', ']', '}'} }

  /** The scanner's state: pieces that are complete, the current piece, and how deep it is in brackets. */
  datatype Scan = Scan(pieces: seq<string>, current: string, depth: int)

  function Start(): Scan { Scan([], "", 0) }

  function Advance(s: Scan, c: char): Scan {
    if c == ',' && s.depth == 0 then Scan(s.pieces + [s.current], "", 0)
    else Scan(s.pieces, s.current + [c], s.depth + (if Opens(c) then 1 else if Closes(c) then -1 else 0))
  }

  function ScanFrom(s: Scan, text: string): Scan {
    if text == "" then s else Advance(ScanFrom(s, text[..|text|-1]), text[|text|-1])
  }

  function Stripped(pieces: seq<string>): seq<string> {
    seq(|pieces|, i requires 0 <= i < |pieces| => Strip(pieces[i], IsSpace))
  }

  /** The pieces between separating commas; an empty last piece is dropped. */
  function RawArgs(body: string): seq<string> {
    var s := ScanFrom(Start(), body);
    s.pieces + if s.current == "" then [] else [s.current]
  }

  method SplitArgs(body: string) returns (args: seq<string>)
    ensures args == Stripped(RawArgs(body))
  {
    hide Strip;
    args := [];
    var current, depth := "", 0;
    ghost var pieces: seq<string> := [];
    for i := 0 to |body|
      invariant ScanFrom(Start(), body[..i]) == Scan(pieces, current, depth) && args == Stripped(pieces)
    {
      assert body[..i+1][..i] == body[..i];
      var c := body[i];
      if c == ',' && depth == 0 {
        args := args + [Strip(current, IsSpace)];
        pieces := pieces + [current];
        current := "";
        continue;
      }
      if Opens(c) { depth := depth + 1; } else if Closes(c) { depth := depth - 1; }
      current := current + [c];
    }
    assert body[..|body|] == body;
    if current != "" { args := args + [Strip(current, IsSpace)]; }
  }

  // ---------------------------------------------------------------- the pieces rejoin to the body

  function Join(pieces: seq<string>): string
    requires pieces != []
  {
    if |pieces| == 1 then pieces[0] else Join(pieces[..|pieces|-1]) + "," + pieces[|pieces|-1]
  }

  /** A piece that has no separating comma, and closes as many brackets as it opens. */
  predicate IsPiece(p: string) {
    var s := ScanFrom(Start(), p);
    s.pieces == [] && s.depth == 0
  }

  /** How many brackets a text opens, less those that it closes. */
  function Brackets(p: string): int {
    if p == "" then 0
    else Brackets(p[..|p|-1]) + match p[|p|-1]
      case '(' => 1
      case '[' => 1
      case '{' => 1
      case ')' => -1
      case ']' => -1
      case '}' => -1
      case _ => 0
  }

  /** Every comma is inside brackets. */
  predicate NoSeparator(p: string) { forall i :: 0 <= i < |p| && p[i] == ',' ==> Brackets(p[..i]) != 0 }

  /** Said without the scanner: a piece has all its commas in brackets, and as many brackets open as close. */
  lemma {:induction false} PieceIff(p: string)
    ensures ScanFrom(Start(), p).pieces == [] <==> NoSeparator(p)
    ensures NoSeparator(p) ==> ScanFrom(Start(), p).depth == Brackets(p)
    ensures IsPiece(p) <==> NoSeparator(p) && Brackets(p) == 0
  {
    if p != "" {
      var n := |p| - 1;
      var q := p[..n];
      PieceIff(q);
      forall i | 0 <= i < n ensures p[..i] == q[..i] && p[i] == q[i] {}
      assert NoSeparator(p) <==> NoSeparator(q) && (p[n] == ',' ==> Brackets(q) != 0);
    }
  }

  /** The body ends in a comma that separates. */
  predicate EndsOpen(body: string) { body != "" && body[|body|-1] == ',' && Brackets(body) == 0 }

  /** Where the scanner is after a body, said without it. */
  lemma {:induction false} ScanIs(body: string)
    ensures var s := ScanFrom(Start(), body);
      s.depth == Brackets(body) && (s.current == "" <==> body == "" || EndsOpen(body))
  {
    if body != "" { ScanIs(body[..|body|-1]); }
  }

  lemma {:induction false} ScanKeeps(body: string)
    ensures var s := ScanFrom(Start(), body);
      && Join(s.pieces + [s.current]) == body
      && (forall i :: 0 <= i < |s.pieces| ==> IsPiece(s.pieces[i]))
      && ScanFrom(Start(), s.current) == Scan([], s.current, s.depth)
  {
    if body == "" {
    } else {
      hide Join, IsPiece, Advance;
      var n := |body| - 1;
      ScanKeeps(body[..n]);
      KeepsOne(ScanFrom(Start(), body[..n]), body[..n], body[n]);
      assert body == body[..n] + [body[n]];
    }
  }

  lemma KeepsOne(s: Scan, body: string, c: char)
    requires Join(s.pieces + [s.current]) == body && (forall i :: 0 <= i < |s.pieces| ==> IsPiece(s.pieces[i]))
    requires ScanFrom(Start(), s.current) == Scan([], s.current, s.depth)
    ensures var t := Advance(s, c);
      && Join(t.pieces + [t.current]) == body + [c]
      && (forall i :: 0 <= i < |t.pieces| ==> IsPiece(t.pieces[i]))
      && ScanFrom(Start(), t.current) == Scan([], t.current, t.depth)
  {
    hide Join, Opens, Closes;
    if c == ',' && s.depth == 0 {
      PieceAdded(s.pieces + [s.current], "");
      assert body + "," + "" == body + [c];
    } else {
      assert (s.current + [c])[..|s.current|] == s.current;
      LastPieceGrows(s.pieces, s.current, c);
    }
  }

  lemma PieceAdded(pieces: seq<string>, p: string)
    requires pieces != []
    ensures Join(pieces + [p]) == Join(pieces) + "," + p
  {
    assert (pieces + [p])[..|pieces|] == pieces;
  }

  lemma LastPieceGrows(pieces: seq<string>, current: string, c: char)
    ensures Join(pieces + [current + [c]]) == Join(pieces + [current]) + [c]
  {
    if pieces != [] {
      hide Join;
      PieceAdded(pieces, current);
      PieceAdded(pieces, current + [c]);
      assert Join(pieces) + "," + (current + [c]) == Join(pieces) + "," + current + [c];
    }
  }

  /**
   * For a body that closes as many brackets as it opens and does not end in a comma, the pieces are
   * balanced, have no separating comma, and rejoin to the body.
   */
  lemma PiecesRejoin(body: string)
    requires body != "" && Brackets(body) == 0 && !EndsOpen(body)
    ensures RawArgs(body) != [] && Join(RawArgs(body)) == body
    ensures forall i :: 0 <= i < |RawArgs(body)| ==> IsPiece(RawArgs(body)[i])
  {
    hide Join, ScanFrom, Brackets, EndsOpen;
    ScanKeeps(body);
    ScanIs(body);
  }

  // ---------------------------------------------------------------- properly nested bodies

  predicate Matches(open: char, close: char) {
    (open == '(' && close == ')') || (open == '[' && close == ']') || (open == '{' && close == '}')
  }

  /** The brackets that are open after a text, innermost last; None if a closing bracket does not match. */
  function OpenAfter(text: string): Option<seq<char>> {
    if text == "" then Some([]) else
    var before, c := OpenAfter(text[..|text|-1]), text[|text|-1];
    if before.None? then None
    else if c in {'(', '[', '{'} then Some(before.value + [c])
    else if c !in {')', ']', '}'} then before
    else if before.value != [] && Matches(before.value[|before.value|-1], c) then Some(before.value[..|before.value|-1])
    else None
  }

  /** Every bracket has its partner, of its kind, in the right order. */
  predicate IsNested(text: string) { OpenAfter(text) == Some([]) }

  lemma {:induction false} NestedScan(body: string)
    requires OpenAfter(body).Some?
    ensures var s := ScanFrom(Start(), body);
      && s.depth == |OpenAfter(body).value| && OpenAfter(s.current) == OpenAfter(body)
      && forall i :: 0 <= i < |s.pieces| ==> IsNested(s.pieces[i])
  {
    if body != "" {
      var n := |body| - 1;
      NestedScan(body[..n]);
      var s := ScanFrom(Start(), body[..n]);
      assert (s.current + [body[n]])[..|s.current|] == s.current;
    }
  }

  lemma {:induction false} NestedFirst(a: string, b: string)
    requires IsNested(a)
    ensures OpenAfter(a + b) == OpenAfter(b)
  {
    if b == "" {
      assert a + b == a;
    } else {
      var n := |b| - 1;
      NestedFirst(a, b[..n]);
      assert (a + b)[..|a| + n] == a + b[..n];
    }
  }

  lemma {:induction false} NestedJoin(pieces: seq<string>)
    requires pieces != [] && forall i :: 0 <= i < |pieces| ==> IsNested(pieces[i])
    ensures IsNested(Join(pieces))
  {
    var n := |pieces| - 1;
    if n > 0 {
      var before := Join(pieces[..n]);
      NestedJoin(pieces[..n]);
      CommaIsNested(before);
      NestedFirst(before + ",", pieces[n]);
    }
  }

  lemma CommaIsNested(a: string)
    requires IsNested(a)
    ensures IsNested(a + ",")
  {
    assert (a + ",")[..|a|] == a;
  }

  /** The brackets of a body match properly if and only if those of each argument do. */
  lemma NestedIffPiecesAre(body: string)
    ensures IsNested(body) <==> forall i :: 0 <= i < |RawArgs(body)| ==> IsNested(RawArgs(body)[i])
    ensures IsNested(body) ==> Brackets(body) == 0
  {
    hide Join, ScanFrom, OpenAfter, Brackets;
    ScanIs(body);
    var s, raw := ScanFrom(Start(), body), RawArgs(body);
    NothingIsNested();
    if IsNested(body) {
      NestedScan(body);
    } else if forall i :: 0 <= i < |raw| ==> IsNested(raw[i]) {
      var all := s.pieces + [s.current];
      ScanKeeps(body);
      assert s.current != "" ==> raw[|s.pieces|] == s.current;
      assert forall i :: 0 <= i < |s.pieces| ==> raw[i] == s.pieces[i];
      assert forall i :: 0 <= i < |all| ==> IsNested(all[i]);
      NestedJoin(all);
      assert false;
    }
  }

  lemma NothingIsNested()
    ensures IsNested("")
  {
  }

  /** A body that is empty or ends in a comma gives that comma away, and nothing else. */
  lemma TrailingCommaIsDropped(body: string)
    requires body == "" || EndsOpen(body)
    ensures body == if RawArgs(body) == [] then "" else Join(RawArgs(body)) + ","
  {
    hide ScanFrom, Brackets, EndsOpen;
    ScanKeeps(body);
    ScanIs(body);
    var s := ScanFrom(Start(), body);
    assert s.pieces + [] == s.pieces;
    if s.pieces == [] {
      assert [] + [s.current] == [s.current];
    } else {
      assert (s.pieces + [""])[..|s.pieces|] == s.pieces;
      assert Join(s.pieces) + "," + "" == Join(s.pieces) + ",";
    }
  }

  // ---------------------------------------------------------------- and nothing else rejoins to it

  lemma {:induction false} ScanAppend(s: Scan, a: string, b: string)
    ensures ScanFrom(s, a + b) == ScanFrom(ScanFrom(s, a), b)
  {
    if b == "" {
      assert a + b == a;
    } else {
      var n := |b| - 1;
      assert (a + b)[..|a| + n] == a + b[..n];
      ScanAppend(s, a, b[..n]);
    }
  }

  /** A text without separating commas just extends the current piece. */
  lemma {:induction false} ScanPiece(done: seq<string>, current: string, p: string)
    requires ScanFrom(Start(), p).pieces == []
    ensures ScanFrom(Start(), p).current == p
    ensures ScanFrom(Scan(done, current, 0), p) == Scan(done, current + p, ScanFrom(Start(), p).depth)
  {
    hide Advance;
    if p == "" {
      assert current + "" == current;
    } else {
      var n := |p| - 1;
      PiecesStay(ScanFrom(Start(), p[..n]), p[n]);
      ScanPiece(done, current, p[..n]);
      AdvanceAlike(ScanFrom(Start(), p[..n]), done, current, p[n]);
      assert p == p[..n] + [p[n]];
    }
  }

  lemma PiecesStay(s: Scan, c: char)
    ensures Advance(s, c).pieces == [] ==> s.pieces == []
  {
  }

  lemma AdvanceAlike(s: Scan, done: seq<string>, current: string, c: char)
    requires s.pieces == [] && Advance(s, c).pieces == []
    ensures Advance(s, c).current == s.current + [c]
    ensures Advance(Scan(done, current + s.current, s.depth), c) ==
      Scan(done, current + (s.current + [c]), Advance(s, c).depth)
  {
    assert current + s.current + [c] == current + (s.current + [c]);
  }

  /** A text without commas and brackets is a piece, and makes no difference before or after one. */
  predicate IsPlain(p: string) {
    forall i :: 0 <= i < |p| ==> p[i] != ',' && !Opens(p[i]) && !Closes(p[i])
  }

  lemma {:induction false} ScanPlain(s: Scan, p: string)
    requires IsPlain(p)
    ensures ScanFrom(s, p) == Scan(s.pieces, s.current + p, s.depth)
  {
    if p == "" {
      assert s.current + "" == s.current;
    } else {
      var n := |p| - 1;
      ScanPlain(s, p[..n]);
      assert s.current + p == s.current + p[..n] + [p[n]];
    }
  }

  /** How the scan of a text depends on what is already in the current piece. */
  lemma {:induction false} ScanShift(current: string, p: string)
    ensures var r, t := ScanFrom(Start(), p), ScanFrom(Scan([], current, 0), p);
      r.depth == t.depth && (r.pieces == [] <==> t.pieces == [])
  {
    if p != "" { ScanShift(current, p[..|p|-1]); }
  }

  lemma PlainAround(before: string, p: string, after: string)
    requires IsPlain(before) && IsPlain(after)
    ensures IsPiece(before + p + after) <==> IsPiece(p)
  {
    ScanAppend(Start(), before + p, after);
    ScanAppend(Start(), before, p);
    ScanPlain(Start(), before);
    assert "" + before == before;
    ScanShift(before, p);
    ScanPlain(ScanFrom(Start(), before + p), after);
  }

  lemma SpacesArePlain(p: string)
    requires forall i :: 0 <= i < |p| ==> IsSpace(p[i])
    ensures IsPlain(p)
  {
  }

  /** Stripping a piece leaves a piece. */
  lemma StrippedIsPiece(p: string)
    requires IsPiece(p)
    ensures IsPiece(Strip(p, IsSpace))
  {
    hide ScanFrom, Strip, IsPiece, IsPlain, IsSpace;
    StripCutsEdges(p, IsSpace);
    var lo, hi :| 0 <= lo <= hi <= |p| && p[lo..hi] == Strip(p, IsSpace)
      && (forall i :: 0 <= i < lo ==> IsSpace(p[i])) && (forall i :: hi <= i < |p| ==> IsSpace(p[i]));
    SpacesArePlain(p[..lo]);
    SpacesArePlain(p[hi..]);
    PlainAround(p[..lo], p[lo..hi], p[hi..]);
    assert p == p[..lo] + p[lo..hi] + p[hi..];
  }

  /** Splitting undoes joining, for pieces without separating commas. */
  lemma {:induction false} SplitUndoesJoin(pieces: seq<string>)
    requires pieces != [] && forall i :: 0 <= i < |pieces| ==> IsPiece(pieces[i])
    ensures ScanFrom(Start(), Join(pieces)) == Scan(pieces[..|pieces|-1], pieces[|pieces|-1], 0)
  {
    var n := |pieces| - 1;
    ScanPiece(pieces[..n], "", pieces[n]);
    assert "" + pieces[n] == pieces[n];
    if n > 0 {
      var before := Join(pieces[..n]);
      SplitUndoesJoin(pieces[..n]);
      ScanAppend(Start(), before + ",", pieces[n]);
      SeparatorEnds(before, pieces[..n]);
    }
  }

  lemma SeparatorEnds(before: string, pieces: seq<string>)
    requires pieces != []
    requires ScanFrom(Start(), before) == Scan(pieces[..|pieces|-1], pieces[|pieces|-1], 0)
    ensures ScanFrom(Start(), before + ",") == Scan(pieces, "", 0)
  {
    assert (before + ",")[..|before|] == before;
    assert pieces[..|pieces|-1] + [pieces[|pieces|-1]] == pieces;
  }

  // ---------------------------------------------------------------- lists written with ", "

  function Commas(items: seq<string>): string
    requires items != []
  {
    if |items| == 1 then items[0] else Commas(items[..|items|-1]) + ", " + items[|items|-1]
  }

  /** Texts that strip leaves alone. */
  predicate IsTrimmed(p: string) { p == "" || (!IsSpace(p[0]) && !IsSpace(p[|p|-1])) }

  function Spaced(items: seq<string>): seq<string> {
    seq(|items|, i requires 0 <= i < |items| => if i == 0 then items[i] else " " + items[i])
  }

  lemma {:induction false} CommasJoin(items: seq<string>)
    requires items != []
    ensures Commas(items) == Join(Spaced(items))
  {
    if |items| > 1 {
      var n := |items| - 1;
      CommasJoin(items[..n]);
      assert Spaced(items)[..n] == Spaced(items[..n]);
      assert Commas(items[..n]) + ", " + items[n] == Commas(items[..n]) + "," + (" " + items[n]);
    }
  }

  lemma StripSpaced(p: string, before: string)
    requires IsTrimmed(p) && (before == "" || before == " ")
    ensures Strip(before + p, IsSpace) == p
  {
    var s := before + p;
    LeadingIs(s, IsSpace, |s|);
    var lo := Leading(s, IsSpace, |s|);
    TrailingIs(s, IsSpace, lo, |s|);
    SpaceIsSpace();
    if p != "" {
      assert s[|before|] == p[0] && s[|s|-1] == p[|p|-1];
      assert lo == |before| by {
        if before == " " { assert s[0] == ' '; }
      }
      assert s[lo..|s|] == p;
    } else {
      assert lo == |s|;
    }
  }

  lemma SpaceIsSpace()
    ensures IsSpace(' ')
  {
  }

  /** A list of trimmed pieces, written with ", ", is read back by SplitArgs. */
  lemma CommasAreSplit(items: seq<string>)
    requires |items| > 1 && forall i :: 0 <= i < |items| ==> IsPiece(items[i]) && IsTrimmed(items[i])
    ensures Stripped(RawArgs(Commas(items))) == items
  {
    hide IsPiece, IsTrimmed, Strip, ScanFrom, Join, Commas;
    var spaced := Spaced(items);
    forall i | 0 <= i < |items| ensures IsPiece(spaced[i]) && Strip(spaced[i], IsSpace) == items[i] {
      SpacedPiece(items[i]);
    }
    CommasJoin(items);
    SplitUndoesJoin(spaced);
    RawArgsAre(Commas(items), spaced);
  }

  lemma RawArgsAre(body: string, pieces: seq<string>)
    requires pieces != [] && pieces[|pieces|-1] != ""
    requires ScanFrom(Start(), body) == Scan(pieces[..|pieces|-1], pieces[|pieces|-1], 0)
    ensures RawArgs(body) == pieces
  {
    hide ScanFrom;
    assert pieces[..|pieces|-1] + [pieces[|pieces|-1]] == pieces;
  }

  lemma SpacedPiece(p: string)
    requires IsPiece(p) && IsTrimmed(p)
    ensures IsPiece(" " + p) && Strip(" " + p, IsSpace) == p && Strip(p, IsSpace) == p
  {
    hide Strip, ScanFrom;
    PlainAround(" ", p, "");
    assert " " + p + "" == " " + p;
    StripSpaced(p, " ");
    StripSpaced(p, "");
    assert "" + p == p;
  }
}
