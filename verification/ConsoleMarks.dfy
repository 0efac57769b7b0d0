/** Where the marker of the batch console can occur in a text, and what a cut does to the search for blocks. */
module ConsoleMarks {
  import opened Prelude
  import opened Text
  import opened Console

  /** A payload that contains no marker. */
  ghost predicate Clean(s: string) {
    forall i :: !At(s, i, MARK)
  }

  // ---------------------------------------------------------------- occurrences of the marker

  lemma NoOverlap(t: string, i: int, j: int)
    requires At(t, i, MARK) && i < j < i + |MARK|
    ensures !At(t, j, MARK)
  {
    var m := t[i..i+|MARK|];
    assert t[i+1] == m[1] && t[i+2] == m[2] && t[i+3] == m[3] && t[i+4] == m[4];
    assert t[i+5] == m[5] && t[i+6] == m[6] && t[i+7] == m[7];
  }

  lemma MarkChar(t: string, j: int, x: int)
    requires At(t, j, MARK) && j <= x < j + |MARK|
    ensures t[x] != '\n'
    ensures x == j ==> t[x] == '_'
    ensures t[j + 4] == 'Z'
  {
    var m := t[j..j+|MARK|];
    assert t[x] == m[x-j] && t[j+4] == m[4];
  }

  lemma NoZIsClean(s: string)
    requires 'Z' !in s
    ensures Clean(s)
  {
    forall i ensures !At(s, i, MARK) {
      if At(s, i, MARK) { MarkChar(s, i, i); }
    }
  }

  lemma CleanJoin(a: string, b: string)
    requires Clean(a) && Clean(b)
    ensures Clean(a + "\n" + b)
  {
    var s := a + "\n" + b;
    forall i ensures !At(s, i, MARK) {
      if At(s, i, MARK) {
        if i + |MARK| <= |a| {
          assert s[i..i+|MARK|] == a[i..i+|MARK|];
          assert At(a, i, MARK);
        } else if i <= |a| {
          MarkChar(s, i, |a|);
        } else {
          assert s[i..i+|MARK|] == b[i-|a|-1..i-|a|-1+|MARK|];
          assert At(b, i - |a| - 1, MARK);
        }
      }
    }
  }

  /** After position i the text has ended, or starts a new line, or starts a marker. */
  predicate Edge(t: string, i: int) {
    i == |t| || (0 <= i < |t| && t[i] == '\n') || At(t, i, MARK)
  }

  lemma CleanInside(t: string, i: int, g: string, j: int)
    requires At(t, i, g) && Clean(g) && i <= j && j + |MARK| <= i + |g|
    ensures !At(t, j, MARK)
  {
    assert !At(g, j - i, MARK);
    SliceOfSlice(t, i, i + |g|, j - i, j - i + |MARK|);
  }

  lemma CleanStretch(t: string, i: int, g: string)
    requires At(t, i, g) && Clean(g) && Edge(t, i + |g|)
    ensures forall j :: i <= j < i + |g| ==> !At(t, j, MARK)
  {
    var x := i + |g|;
    forall j | i <= j < x ensures !At(t, j, MARK) {
      if j + |MARK| <= x {
        CleanInside(t, i, g, j);
      } else if At(t, j, MARK) {
        if At(t, x, MARK) {
          NoOverlap(t, j, x);
        } else {
          MarkChar(t, j, x);
        }
      }
    }
  }

  // ---------------------------------------------------------------- cutting the console

  /** The next complete block of a cut console is that of the whole one if it ends before the cut. */
  lemma NextBlockCut(t: string, from: nat, f: Frame, k: nat)
    requires k <= |t|
    ensures NextBlock(t[..k], from, f) ==
      (var b := NextBlock(t, from, f); if b.Some? && b.value.finish + |f.end| <= k then b else None)
  {
    hide Find;
    var start := Find(t, f.begin, from);
    FindCut(t, f.begin, from, k);
    if start >= 0 && start + |f.begin| <= k {
      var headerEnd := Find(t, "\n", start + |f.begin|);
      FindCut(t, "\n", start + |f.begin|, k);
      if headerEnd >= 0 && headerEnd + 1 <= k {
        FindCut(t, f.end, headerEnd + 1, k);
      }
    }
  }
}
