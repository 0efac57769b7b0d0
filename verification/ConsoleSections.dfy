/** Cutting one section out of the body of a case. */
module ConsoleSections {
  import opened Prelude
  import opened Text
  import opened Console
  import opened ConsoleMarks
  import opened ConsoleRecovery

  /** Two begin markers at one place are of the same section. */
  lemma BeginNames(t: string, i: int, a: string, b: string)
    requires At(t, i, BeginOf(a)) && At(t, i, BeginOf(b)) && '\n' !in a && '\n' !in b && |a| <= |b|
    ensures a == b
  {
    var u, v, h := BeginOf(a), BeginOf(b), |MARK| + |"_BEGIN_"|;
    var w := t[i..i+|u|];
    assert w == t[i..i+|v|][..|u|];
    assert u[h..h+|a|] == a && v[h..h+|b|] == b && u[h+|a|+2] == '\n' && u[h+|a|] == '_';
    if |a| == |b| {
      assert u == v;
    }
  }

  lemma NoBeginInSection(t: string, i: int, s: Section, name: string)
    requires GoodSection(s) && At(t, i, SectionText(s)) && Edge(t, i + |SectionText(s)|)
    requires name != s.name && '\n' !in name
    ensures forall j :: i <= j < i + |SectionText(s)| ==> !At(t, j, BeginOf(name))
  {
    hide At, BeginOf, Inner, SectionText, Edge, Clean;
    SectionParts(t, i, s);
    SectionPieces(t, i, s);
    SectionMarks(t, i, s);
    forall j | i <= j < i + |SectionText(s)| ensures !At(t, j, BeginOf(name)) {
      if At(t, j, BeginOf(name)) {
        BeginLetter(t, j, name);
        if j == i {
          if |name| <= |s.name| { BeginNames(t, i, name, s.name); } else { BeginNames(t, i, s.name, name); }
        } else {
          EndLetter(t, j + |MARK|, s.name + "__");
        }
      }
    }
  }

  /** The payload of a section ends at the section's own end marker. */
  lemma PayloadEnds(t: string, i: nat, s: Section)
    requires GoodSection(s) && At(t, i, SectionText(s)) && Edge(t, i + |SectionText(s)|)
    ensures Find(t, EndOf(s.name), i + |BeginOf(s.name)|) == i + |BeginOf(s.name)| + |s.payload|
  {
    var from := i + |BeginOf(s.name)|;
    SectionParts(t, i, s);
    SectionMarks(t, i, s);
    forall j | from <= j < from + |s.payload| ensures !At(t, j, EndOf(s.name)) {
      if At(t, j, EndOf(s.name)) {
        EndHasMark(t, j, s.name);
      }
    }
    FindIs(t, EndOf(s.name), from, from + |s.payload|);
  }

  lemma EndHasMark(t: string, j: int, name: string)
    requires At(t, j, EndOf(name))
    ensures At(t, j + 1, MARK)
  {
    assert EndOf(name) == ("\n" + MARK) + ("_END_" + name + "__");
    AtSplit(t, j, "\n" + MARK, "_END_" + name + "__");
    AtSplit(t, j, "\n", MARK);
  }

  ghost predicate DistinctNames(sections: seq<Section>) {
    forall a, b :: 0 <= a < b < |sections| ==> sections[a].name != sections[b].name
  }

  function Offset(sections: seq<Section>, n: nat): nat
    requires n < |sections|
  {
    if n == 0 then 0 else |SectionText(sections[0])| + 1 + Offset(sections[1..], n - 1)
  }

  /** A section of a body is found at its own place. */
  lemma {:induction false} SectionIsFound(t: string, i: nat, sections: seq<Section>, n: nat)
    requires GoodSections(sections) && DistinctNames(sections) && n < |sections|
    requires At(t, i, Body(sections)) && i + |Body(sections)| == |t|
    ensures var at := i + Offset(sections, n); var s := sections[n];
      && Find(t, BeginOf(s.name), i) == at && At(t, at, SectionText(s)) && Edge(t, at + |SectionText(s)|)
    decreases n
  {
    hide At, Body, SectionText, BeginOf, Edge, Find;
    if n == 0 {
      FirstIsFound(t, i, sections);
    } else {
      BodyBegins(t, i, sections);
      BodyLength(sections);
      LaterName(sections, n);
      SkipFirst(t, i, sections, sections[n].name);
      SectionIsFound(t, i + |SectionText(sections[0])| + 1, sections[1..], n - 1);
    }
  }

  lemma FirstIsFound(t: string, i: nat, sections: seq<Section>)
    requires sections != [] && At(t, i, Body(sections)) && i + |Body(sections)| == |t|
    ensures Find(t, BeginOf(sections[0].name), i) == i
    ensures At(t, i, SectionText(sections[0])) && Edge(t, i + |SectionText(sections[0])|)
  {
    BodyBegins(t, i, sections);
    BodyEdge(t, i, sections);
    SectionParts(t, i, sections[0]);
    FindIs(t, BeginOf(sections[0].name), i, i);
  }

  lemma SkipFirst(t: string, i: nat, sections: seq<Section>, name: string)
    requires |sections| > 1 && GoodSections(sections) && At(t, i, Body(sections)) && i + |Body(sections)| == |t|
    requires name != sections[0].name && '\n' !in name
    ensures var rest := i + |SectionText(sections[0])| + 1;
      Find(t, BeginOf(name), rest) >= 0 ==> Find(t, BeginOf(name), i) == Find(t, BeginOf(name), rest)
  {
    var rest := i + |SectionText(sections[0])| + 1;
    BodyBegins(t, i, sections);
    BodyEdge(t, i, sections);
    NoBeginInSection(t, i, sections[0], name);
    NoBeginAtNewline(t, rest - 1, name);
    if Find(t, BeginOf(name), rest) >= 0 {
      FindLater(t, BeginOf(name), i, rest);
    }
  }

  lemma NoBeginAtNewline(t: string, j: int, name: string)
    requires At(t, j, "\n")
    ensures !At(t, j, BeginOf(name))
  {
    assert t[j] == t[j..j+1][0];
    if At(t, j, BeginOf(name)) {
      BeginLetter(t, j, name);
      MarkChar(t, j, j);
    }
  }

  lemma BodyEdge(t: string, i: nat, sections: seq<Section>)
    requires sections != [] && At(t, i, Body(sections)) && i + |Body(sections)| == |t|
    ensures Edge(t, i + |SectionText(sections[0])|)
  {
    BodyBegins(t, i, sections);
    if |sections| > 1 {
      var x := i + |SectionText(sections[0])|;
      assert t[x] == t[x..x+1][0];
    }
  }

  /** Nothing before `rest` matches, so the search may as well start there. */
  lemma FindLater(t: string, p: string, i: nat, rest: nat)
    requires i < rest && forall j :: i <= j < rest - 1 ==> !At(t, j, p)
    requires !At(t, rest - 1, p) && Find(t, p, rest) >= 0
    ensures Find(t, p, i) == Find(t, p, rest)
  {
    FindIsFirst(t, p, rest);
    FindIs(t, p, i, Find(t, p, rest));
  }

  lemma {:induction false} LaterName(sections: seq<Section>, n: nat)
    requires GoodSections(sections) && DistinctNames(sections) && 0 < n < |sections|
    ensures sections[n].name != sections[0].name && '\n' !in sections[n].name
  {
    EachIsGood(sections, n);
  }

  lemma {:induction false} EachIsGood(sections: seq<Section>, n: nat)
    requires GoodSections(sections) && n < |sections|
    ensures GoodSection(sections[n])
  {
    if n > 0 { EachIsGood(sections[1..], n - 1); }
  }

  lemma ExtractIs(text: string, name: string, at: nat, finish: nat)
    requires Find(text, BeginOf(name), 0) == at && Find(text, EndOf(name), at + |BeginOf(name)|) == finish
    ensures ExtractSection(text, name) == Some(Strip(text[at+|BeginOf(name)|..finish], IsNewline))
  {
  }

  /** Each section's payload comes back, less newlines at its edges. */
  lemma SectionIsExtracted(sections: seq<Section>, n: nat)
    requires GoodSections(sections) && DistinctNames(sections) && n < |sections|
    ensures ExtractSection(Body(sections), sections[n].name) == Some(Strip(sections[n].payload, IsNewline))
  {
    AtWhole(Body(sections));
    ExtractedFrom(Body(sections), sections, n);
  }

  lemma ExtractedFrom(t: string, sections: seq<Section>, n: nat)
    requires GoodSections(sections) && DistinctNames(sections) && n < |sections|
    requires At(t, 0, Body(sections)) && |Body(sections)| == |t|
    ensures ExtractSection(t, sections[n].name) == Some(Strip(sections[n].payload, IsNewline))
  {
    SectionIsFound(t, 0, sections, n);
    EachIsGood(sections, n);
    PayloadIsExtracted(t, Offset(sections, n), sections[n]);
  }

  lemma PayloadIsExtracted(t: string, at: nat, s: Section)
    requires GoodSection(s) && At(t, at, SectionText(s)) && Edge(t, at + |SectionText(s)|)
    requires Find(t, BeginOf(s.name), 0) == at
    ensures ExtractSection(t, s.name) == Some(Strip(s.payload, IsNewline))
  {
    PayloadEnds(t, at, s);
    SectionParts(t, at, s);
    ExtractIs(t, s.name, at, at + |BeginOf(s.name)| + |s.payload|);
  }
}
