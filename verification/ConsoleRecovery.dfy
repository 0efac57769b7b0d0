/**
 * What the guest prints, case by case, and why the host recovers from any part of it exactly the
 * cases that were printed to the end.
 */
module ConsoleRecovery {
  import opened Prelude
  import opened Text
  import opened Console
  import opened ConsoleMarks

  // ---------------------------------------------------------------- what the guest prints

  datatype Section = Section(name: string, payload: string)

  function SectionText(s: Section): string { BeginOf(s.name) + s.payload + EndOf(s.name) }

  function Body(sections: seq<Section>): string {
    if sections == [] then ""
    else if |sections| == 1 then SectionText(sections[0])
    else SectionText(sections[0]) + "\n" + Body(sections[1..])
  }

  /** A case as the script prints it, and what follows on the console before the next one. */
  datatype Case = Case(programId: string, header: string, sections: seq<Section>, after: string)

  function CaseText(c: Case): string {
    BeginCase() + c.header + "\n" + Body(c.sections) + EndCase()
  }

  /** The console after the given cases: noise before the first, and after each one. */
  function ConsoleText(noise: string, cases: seq<Case>): string {
    if cases == [] then noise else
    var c := cases[|cases|-1];
    ConsoleText(noise, cases[..|cases|-1]) + CaseText(c) + ("\n" + c.after)
  }

  /** The lines of the script around a payload, letter by letter. */
  lemma SectionLines(s: Section)
    ensures SectionText(s) == "__SYZABI_BEGIN_" + s.name + "__\n" + s.payload + "\n__SYZABI_END_" + s.name + "__"
  {
    assert MARK + "_BEGIN_" == "__SYZABI_BEGIN_" && "\n" + MARK + "_END_" == "\n__SYZABI_END_";
  }

  /** The lines of the script around a case, letter by letter. */
  lemma CaseLines(c: Case)
    ensures CaseText(c) ==
      "__SYZABI_BEGIN_BATCH_CASE__\n" + c.header + "\n" + Body(c.sections) + "\n__SYZABI_END_BATCH_CASE__"
  {
    assert BeginCase() == "__SYZABI_BEGIN_BATCH_CASE__\n" && EndCase() == "\n__SYZABI_END_BATCH_CASE__";
  }

  /** Where the end marker of case i ends. */
  function EndOffset(noise: string, cases: seq<Case>, i: nat): nat
    requires i < |cases|
  {
    |ConsoleText(noise, cases[..i])| + |CaseText(cases[i])|
  }

  /** Section names are those of the script; a payload is anything without the marker. */
  ghost predicate GoodSection(s: Section) {
    && s.name != "" && s.name[0] != 'B' && 'Z' !in s.name && '\n' !in s.name
    && Clean(s.payload)
  }

  ghost predicate GoodSections(sections: seq<Section>) {
    sections == [] || (GoodSection(sections[0]) && GoodSections(sections[1..]))
  }

  ghost predicate GoodCase(c: Case, header: Header) {
    && '\n' !in c.header && header(c.header) == Some(c.programId)
    && c.sections != [] && GoodSections(c.sections) && Clean(c.after)
  }

  ghost predicate GoodCases(cases: seq<Case>, header: Header) {
    forall i :: 0 <= i < |cases| ==> GoodCase(cases[i], header)
  }

  function BlockOf(c: Case): Block { Block(c.programId, Body(c.sections), CaseText(c)) }

  function BlocksOf(cases: seq<Case>): seq<Block> { seq(|cases|, i requires 0 <= i < |cases| => BlockOf(cases[i])) }

  // ---------------------------------------------------------------- markers in a section

  /** The text between the first marker of a section and its second. */
  function Inner(s: Section): string { "_BEGIN_" + s.name + "__" + "\n" + s.payload + "\n" }

  lemma SectionParts(t: string, i: int, s: Section)
    requires At(t, i, SectionText(s))
    ensures At(t, i, BeginOf(s.name)) && At(t, i + |BeginOf(s.name)|, s.payload)
    ensures At(t, i + |BeginOf(s.name)| + |s.payload|, EndOf(s.name))
  {
    AtSplit(t, i, BeginOf(s.name) + s.payload, EndOf(s.name));
    AtSplit(t, i, BeginOf(s.name), s.payload);
  }

  lemma SectionTextIs(s: Section)
    ensures SectionText(s) == MARK + Inner(s) + MARK + ("_END_" + s.name + "__")
  {
  }

  lemma SectionPieces(t: string, i: int, s: Section)
    requires At(t, i, SectionText(s))
    ensures At(t, i, MARK) && At(t, i + |MARK|, Inner(s))
    ensures At(t, i + |MARK| + |Inner(s)|, MARK)
    ensures At(t, i + 2 * |MARK| + |Inner(s)|, "_END_" + s.name + "__")
  {
    SectionTextIs(s);
    AtSplit(t, i, MARK + Inner(s) + MARK, "_END_" + s.name + "__");
    AtSplit(t, i, MARK + Inner(s), MARK);
    AtSplit(t, i, MARK, Inner(s));
  }

  lemma InnerIsClean(s: Section)
    requires GoodSection(s)
    ensures Clean(Inner(s)) && Clean("_END_" + s.name + "__")
  {
    NoZIsClean("_BEGIN_" + s.name + "__");
    NoZIsClean("_END_" + s.name + "__");
    NoZIsClean("");
    CleanJoin("_BEGIN_" + s.name + "__", s.payload);
    CleanJoin("_BEGIN_" + s.name + "__" + "\n" + s.payload, "");
    assert Inner(s) == "_BEGIN_" + s.name + "__" + "\n" + s.payload + "\n" + "";
  }

  /** The marker occurs in a printed section at its two ends and nowhere else. */
  lemma SectionMarks(t: string, i: int, s: Section)
    requires GoodSection(s) && At(t, i, SectionText(s)) && Edge(t, i + |SectionText(s)|)
    ensures forall j :: i <= j < i + |SectionText(s)| && At(t, j, MARK) ==>
      j == i || j == i + |MARK| + |Inner(s)|
  {
    SectionPieces(t, i, s);
    InnerIsClean(s);
    var second := i + |MARK| + |Inner(s)|;
    CleanStretch(t, i + |MARK|, Inner(s));
    CleanStretch(t, second + |MARK|, "_END_" + s.name + "__");
    forall j | i <= j < i + |SectionText(s)| && At(t, j, MARK) ensures j == i || j == second {
      if i < j < i + |MARK| { NoOverlap(t, i, j); }
      if second < j < second + |MARK| { NoOverlap(t, second, j); }
    }
  }

  // ---------------------------------------------------------------- searching in a case

  /** No end of a case inside a section: its names do not begin like BATCH_CASE. */
  lemma NoEndCaseInSection(t: string, i: int, s: Section, end: int)
    requires GoodSection(s) && At(t, i, SectionText(s)) && end == i + |SectionText(s)| && At(t, end, "\n")
    ensures forall j :: i <= j < end ==> !At(t, j, EndCase())
  {
    SectionPieces(t, i, s);
    SectionMarks(t, i, s);
    var second := i + |MARK| + |Inner(s)|;
    forall j | i <= j < end ensures !At(t, j, EndCase()) {
      if At(t, j, EndCase()) {
        EndCaseHasMark(t, j);
        if j + 1 == end {
          MarkChar(t, j + 1, j + 1);
        } else {
          EndNames(t, second + |MARK|, s.name);
        }
      }
    }
  }

  lemma EndCaseHasMark(t: string, j: int)
    requires At(t, j, EndCase())
    ensures At(t, j + 1, MARK) && At(t, j + 1 + |MARK|, "_END_BATCH_CASE__")
  {
    AtSplit(t, j, "\n" + MARK, "_END_BATCH_CASE__");
    AtSplit(t, j, "\n", MARK);
  }

  /** Two end markers at one place: the first letters of their names agree. */
  lemma EndNames(t: string, i: int, name: string)
    requires name != "" && At(t, i, "_END_" + name + "__") && At(t, i, "_END_BATCH_CASE__")
    ensures name[0] == 'B'
  {
    var u, v := "_END_" + name + "__", "_END_BATCH_CASE__";
    assert t[i..i+|u|][5] == u[5] && t[i..i+|v|][5] == v[5];
  }

  /** Begin and end markers differ in the second character after the marker. */
  lemma BeginLetter(t: string, i: int, name: string)
    requires At(t, i, BeginOf(name))
    ensures At(t, i, MARK) && i + |MARK| + 1 < |t| && t[i+|MARK|+1] == 'B'
  {
    var u := BeginOf(name);
    assert u == MARK + ("_BEGIN_" + name + "__\n");
    AtSplit(t, i, MARK, "_BEGIN_" + name + "__\n");
    assert t[i+|MARK|+1] == t[i..i+|u|][|MARK|+1];
  }

  lemma EndLetter(t: string, i: int, name: string)
    requires At(t, i, "_END_" + name)
    ensures t[i+1] == 'E'
  {
    var u := "_END_" + name;
    assert t[i+1] == t[i..i+|u|][1];
  }

  lemma BodyBegins(t: string, i: int, sections: seq<Section>)
    requires sections != [] && At(t, i, Body(sections))
    ensures At(t, i, SectionText(sections[0]))
    ensures |sections| > 1 ==> At(t, i + |SectionText(sections[0])|, "\n")
    ensures |sections| > 1 ==> At(t, i + |SectionText(sections[0])| + 1, Body(sections[1..]))
  {
    if |sections| > 1 {
      AtSplit(t, i, SectionText(sections[0]) + "\n", Body(sections[1..]));
      AtSplit(t, i, SectionText(sections[0]), "\n");
    }
  }

  lemma BodyLength(sections: seq<Section>)
    requires sections != []
    ensures |Body(sections)| == |SectionText(sections[0])| + if |sections| > 1 then 1 + |Body(sections[1..])| else 0
  {
  }

  lemma {:induction false} NoEndCaseInBody(t: string, i: int, sections: seq<Section>, end: int)
    requires sections != [] && GoodSections(sections)
    requires At(t, i, Body(sections)) && end == i + |Body(sections)| && At(t, end, "\n")
    ensures forall j :: i <= j < end ==> !At(t, j, EndCase())
    decreases sections
  {
    hide SectionText, EndCase, At, Body;
    var mid := i + |SectionText(sections[0])|;
    BodyBegins(t, i, sections);
    BodyLength(sections);
    NoEndCaseInSection(t, i, sections[0], mid);
    if |sections| > 1 {
      NoEndCaseInBody(t, mid + 1, sections[1..], end);
      NoEndCaseBefore(t, mid + 1, sections[1..], mid);
    }
  }

  lemma NoEndCaseBefore(t: string, i: int, sections: seq<Section>, before: int)
    requires sections != [] && At(t, i, Body(sections)) && before == i - 1
    ensures !At(t, before, EndCase())
  {
    BodyLetter(t, i, sections);
    if At(t, before, EndCase()) {
      EndCaseLetter(t, before);
    }
  }

  lemma BodyLetter(t: string, i: int, sections: seq<Section>)
    requires sections != [] && At(t, i, Body(sections))
    ensures 0 <= i && i + |MARK| + 1 < |t| && t[i+|MARK|+1] == 'B'
  {
    BodyBegins(t, i, sections);
    SectionParts(t, i, sections[0]);
    BeginLetter(t, i, sections[0].name);
  }

  lemma EndCaseLetter(t: string, j: int)
    requires At(t, j, EndCase())
    ensures 0 <= j && j + |MARK| + 2 < |t| && t[j+|MARK|+2] == 'E'
  {
    EndCaseHasMark(t, j);
    EndLetter(t, j + 1 + |MARK|, "BATCH_CASE__");
  }

  /** On the whole console the next block is the next case, at its place. */
  lemma CaseIsFound(t: string, from: nat, noise: string, c: Case)
    requires At(t, from, noise) && Clean(noise) && At(t, from + |noise|, CaseText(c))
    requires '\n' !in c.header && c.sections != [] && GoodSections(c.sections)
    ensures NextBlock(t, from, CaseFrame()) == Some(SpanOf(from + |noise|, c))
  {
    hide At, Find, BeginCase, EndCase, CaseText, Body, Clean, GoodSections, NextBlock;
    CaseBegins(t, from, noise, c);
    CaseEnds(t, from + |noise|, c);
    BlockIs(t, from, CaseFrame(), SpanOf(from + |noise|, c));
  }

  lemma CaseBegins(t: string, from: nat, noise: string, c: Case)
    requires At(t, from, noise) && Clean(noise) && At(t, from + |noise|, CaseText(c))
    ensures Find(t, BeginCase(), from) == SpanOf(from + |noise|, c).start
  {
    CaseParts(t, from + |noise|, c);
    BeginIsFound(t, from, noise);
  }

  lemma CaseEnds(t: string, start: nat, c: Case)
    requires At(t, start, CaseText(c))
    requires '\n' !in c.header && c.sections != [] && GoodSections(c.sections)
    ensures Find(t, "\n", start + |BeginCase()|) == SpanOf(start, c).headerEnd
    ensures Find(t, EndCase(), SpanOf(start, c).headerEnd + 1) == SpanOf(start, c).finish
  {
    hide At, Find, BeginCase, EndCase, CaseText, Body, GoodSections;
    CaseParts(t, start, c);
    HeaderEndIsFound(t, start + |BeginCase()|, c.header);
    EndIsFound(t, SpanOf(start, c).headerEnd + 1, c.sections);
  }

  function SpanOf(start: nat, c: Case): Span {
    var headerEnd := start + |BeginCase()| + |c.header|;
    Span(start, headerEnd, headerEnd + 1 + |Body(c.sections)|)
  }

  lemma BlockIs(t: string, from: nat, f: Frame, b: Span)
    requires Find(t, f.begin, from) == b.start && Find(t, "\n", b.start + |f.begin|) == b.headerEnd
    requires Find(t, f.end, b.headerEnd + 1) == b.finish
    ensures NextBlock(t, from, f) == Some(b)
  {
  }

  lemma EndIsFound(t: string, i: nat, sections: seq<Section>)
    requires sections != [] && GoodSections(sections)
    requires At(t, i, Body(sections)) && At(t, i + |Body(sections)|, EndCase())
    ensures Find(t, EndCase(), i) == i + |Body(sections)|
  {
    var finish := i + |Body(sections)|;
    assert EndCase() == "\n" + (MARK + "_END_BATCH_CASE__");
    AtSplit(t, finish, "\n", MARK + "_END_BATCH_CASE__");
    NoEndCaseInBody(t, i, sections, finish);
    FindIs(t, EndCase(), i, finish);
  }

  lemma CaseParts(t: string, start: int, c: Case)
    requires At(t, start, CaseText(c))
    ensures At(t, start, BeginCase()) && At(t, start + |BeginCase()|, c.header)
    ensures var headerEnd := start + |BeginCase()| + |c.header|;
      At(t, headerEnd, "\n") && At(t, headerEnd + 1, Body(c.sections))
        && At(t, headerEnd + 1 + |Body(c.sections)|, EndCase())
  {
    hide At, Body, BeginCase, EndCase;
    AtSplit(t, start, BeginCase() + c.header + "\n" + Body(c.sections), EndCase());
    AtSplit(t, start, BeginCase() + c.header + "\n", Body(c.sections));
    AtSplit(t, start, BeginCase() + c.header, "\n");
    AtSplit(t, start, BeginCase(), c.header);
  }

  lemma BeginIsFound(t: string, from: nat, noise: string)
    requires At(t, from, noise) && Clean(noise) && At(t, from + |noise|, BeginCase())
    ensures Find(t, BeginCase(), from) == from + |noise|
  {
    BeginCaseHasMark(t, from + |noise|);
    CleanStretch(t, from, noise);
    forall j | from <= j < from + |noise| ensures !At(t, j, BeginCase()) {
      if At(t, j, BeginCase()) { BeginCaseHasMark(t, j); }
    }
    FindIs(t, BeginCase(), from, from + |noise|);
  }

  lemma BeginCaseHasMark(t: string, j: int)
    requires At(t, j, BeginCase())
    ensures At(t, j, MARK)
  {
    AtSplit(t, j, MARK, "_BEGIN_BATCH_CASE__\n");
  }

  lemma HeaderEndIsFound(t: string, i: nat, header: string)
    requires At(t, i, header) && '\n' !in header && At(t, i + |header|, "\n")
    ensures Find(t, "\n", i) == i + |header|
  {
    forall j | i <= j < i + |header| ensures !At(t, j, "\n") {
      assert t[j] == t[i..i+|header|][j-i];
    }
    FindIs(t, "\n", i, i + |header|);
  }

  // ---------------------------------------------------------------- recovery of the blocks

  lemma NothingMore(t: string, from: nat, noise: string, k: nat)
    requires At(t, from, noise) && |t| == from + |noise| && Clean(noise) && k <= |t|
    ensures NextBlock(t[..k], from, CaseFrame()) == None
  {
    CleanStretch(t, from, noise);
    forall j | from <= j ensures !At(t, j, BeginCase()) {
      if At(t, j, BeginCase()) { BeginCaseHasMark(t, j); }
    }
    FindNone(t, BeginCase(), from);
    NextBlockCut(t, from, CaseFrame(), k);
  }

  lemma CaseLength(start: nat, c: Case)
    ensures SpanOf(start, c).finish + |EndCase()| == start + |CaseText(c)|
  {
  }

  lemma SpanText(t: string, start: nat, c: Case, k: nat, b: Span)
    requires At(t, start, CaseText(c)) && start + |CaseText(c)| <= k <= |t| && b == SpanOf(start, c)
    ensures b.finish + |EndCase()| == start + |CaseText(c)|
    ensures t[..k][b.start+|BeginCase()|..b.headerEnd] == c.header
    ensures t[..k][b.headerEnd+1..b.finish] == Body(c.sections)
    ensures t[..k][b.start..b.finish+|EndCase()|] == CaseText(c)
  {
    CaseLength(start, c);
    CaseParts(t, start, c);
    CutPiece(t, k, b.start + |BeginCase()|, b.headerEnd, c.header);
    CutPiece(t, k, b.headerEnd + 1, b.finish, Body(c.sections));
    CutPiece(t, k, b.start, b.finish + |EndCase()|, CaseText(c));
  }

  lemma CutBlock(t: string, from: nat, noise: string, c: Case, k: nat)
    requires At(t, from, noise) && Clean(noise) && At(t, from + |noise|, CaseText(c)) && k <= |t|
    requires '\n' !in c.header && c.sections != [] && GoodSections(c.sections)
    ensures NextBlock(t[..k], from, CaseFrame()) ==
      if from + |noise| + |CaseText(c)| <= k then Some(SpanOf(from + |noise|, c)) else None
  {
    CaseIsFound(t, from, noise, c);
    NextBlockCut(t, from, CaseFrame(), k);
    CaseLength(from + |noise|, c);
  }

  lemma BlocksStep(text: string, from: nat, f: Frame, header: Header, found: seq<Block>, b: Span, block: Block,
      next: nat)
    requires NextBlock(text, from, f) == Some(b) && next == b.finish + |f.end|
    requires header(text[b.start+|f.begin|..b.headerEnd]) == Some(block.programId)
    requires text[b.headerEnd+1..b.finish] == block.body && text[b.start..next] == block.consoleLog
    ensures Blocks(text, from, f, header, found) == Blocks(text, next, f, header, found + [block])
  {
    hide NextBlock;
  }

  lemma OneCase(t: string, from: nat, gap: string, c: Case, header: Header, k: nat, found: seq<Block>, next: nat)
    requires At(t, from, gap) && Clean(gap) && At(t, from + |gap|, CaseText(c)) && GoodCase(c, header)
    requires from + |gap| + |CaseText(c)| == next <= k <= |t|
    ensures Blocks(t[..k], from, CaseFrame(), header, found) ==
      Blocks(t[..k], next, CaseFrame(), header, found + [BlockOf(c)])
  {
    hide At, CaseText, SpanOf, NextBlock, Blocks, Clean, GoodSections, Body, BeginCase, EndCase;
    CutBlock(t, from, gap, c, k);
    var b := SpanOf(from + |gap|, c);
    SpanText(t, from + |gap|, c, k, b);
    BlocksStep(t[..k], from, CaseFrame(), header, found, b, BlockOf(c), next);
  }

  lemma NoMoreBlocks(text: string, from: nat, f: Frame, header: Header, found: seq<Block>)
    requires NextBlock(text, from, f) == None
    ensures Blocks(text, from, f, header, found) == Ok(found)
  {
  }

  lemma AfterIsClean(c: Case)
    requires Clean(c.after)
    ensures Clean("\n" + c.after)
  {
    NoZIsClean("");
    CleanJoin("", c.after);
    assert "" + "\n" + c.after == "\n" + c.after;
  }

  /** What is on the console between the end of the case before and the begin of case i. */
  function Gap(noise: string, cases: seq<Case>, i: nat): string
    requires i <= |cases|
  {
    if i == 0 then noise else "\n" + cases[i-1].after
  }

  /** Where the host goes on searching once it has i cases. */
  function ScanFrom(noise: string, cases: seq<Case>, i: nat): nat
    requires i <= |cases|
  {
    if i == 0 then 0 else EndOffset(noise, cases, i - 1)
  }

  /** The console after i cases is a prefix of the console after all. */
  lemma {:induction false} ConsoleGrows(noise: string, cases: seq<Case>, i: nat)
    requires i <= |cases|
    ensures At(ConsoleText(noise, cases), 0, ConsoleText(noise, cases[..i]))
  {
    var t, last := ConsoleText(noise, cases), |cases| - 1;
    if i == |cases| {
      assert cases[..i] == cases;
      AtWhole(t);
    } else {
      ConsoleGrows(noise, cases[..last], i);
      assert cases[..last][..i] == cases[..i];
      AtWhole(t);
      AtSplit(t, 0, ConsoleText(noise, cases[..last]) + CaseText(cases[last]), "\n" + cases[last].after);
      AtSplit(t, 0, ConsoleText(noise, cases[..last]), CaseText(cases[last]));
      AtPrefix(t, ConsoleText(noise, cases[..last]), ConsoleText(noise, cases[..i]));
    }
  }

  lemma AtPrefix(t: string, p: string, q: string)
    requires At(t, 0, p) && At(p, 0, q)
    ensures At(t, 0, q)
  {
    SliceOfSlice(t, 0, |p|, 0, |q|);
  }

  lemma GapPlace(noise: string, cases: seq<Case>, i: nat)
    requires i <= |cases|
    ensures At(ConsoleText(noise, cases), ScanFrom(noise, cases, i), Gap(noise, cases, i))
    ensures ScanFrom(noise, cases, i) + |Gap(noise, cases, i)| == |ConsoleText(noise, cases[..i])|
  {
    hide At, CaseText;
    var t := ConsoleText(noise, cases);
    ConsoleGrows(noise, cases, i);
    if i > 0 {
      assert cases[..i][..i-1] == cases[..i-1];
      AtSplit(t, 0, ConsoleText(noise, cases[..i-1]) + CaseText(cases[i-1]), Gap(noise, cases, i));
    }
  }

  lemma CasePlace(noise: string, cases: seq<Case>, i: nat)
    requires i < |cases|
    ensures At(ConsoleText(noise, cases), |ConsoleText(noise, cases[..i])|, CaseText(cases[i]))
  {
    hide At, CaseText;
    var t := ConsoleText(noise, cases);
    ConsoleGrows(noise, cases, i + 1);
    assert cases[..i+1][..i] == cases[..i];
    AtSplit(t, 0, ConsoleText(noise, cases[..i]) + CaseText(cases[i]), "\n" + cases[i].after);
    AtSplit(t, 0, ConsoleText(noise, cases[..i]), CaseText(cases[i]));
  }

  lemma GapIsClean(noise: string, cases: seq<Case>, header: Header, i: nat)
    requires Clean(noise) && GoodCases(cases, header) && i <= |cases|
    ensures Clean(Gap(noise, cases, i))
  {
    if i > 0 {
      assert GoodCase(cases[i-1], header);
      AfterIsClean(cases[i-1]);
    }
  }

  /** Gap and case i stand on the console one after the other. */
  lemma Places(noise: string, cases: seq<Case>, header: Header, i: nat, t: string, from: nat, gap: string)
    requires Clean(noise) && GoodCases(cases, header) && i < |cases|
    requires t == ConsoleText(noise, cases) && from == ScanFrom(noise, cases, i) && gap == Gap(noise, cases, i)
    ensures At(t, from, gap) && Clean(gap) && At(t, from + |gap|, CaseText(cases[i])) && GoodCase(cases[i], header)
    ensures from + |gap| + |CaseText(cases[i])| == EndOffset(noise, cases, i)
  {
    hide ConsoleText, CaseText, At;
    GapPlace(noise, cases, i);
    CasePlace(noise, cases, i);
    GapIsClean(noise, cases, header, i);
  }

  /** As long as case i ended before the cut, the host's scan goes on after it with one block more. */
  lemma ScanCase(noise: string, cases: seq<Case>, header: Header, k: nat, i: nat, found: seq<Block>,
      t: string, from: nat, gap: string)
    requires Clean(noise) && GoodCases(cases, header) && i < |cases| && EndOffset(noise, cases, i) <= k <= |t|
    requires t == ConsoleText(noise, cases) && from == ScanFrom(noise, cases, i) && gap == Gap(noise, cases, i)
    ensures Blocks(t[..k], from, CaseFrame(), header, found) ==
      Blocks(t[..k], EndOffset(noise, cases, i), CaseFrame(), header, found + [BlockOf(cases[i])])
  {
    Places(noise, cases, header, i, t, from, gap);
    OneCase(t, from, gap, cases[i], header, k, found, EndOffset(noise, cases, i));
  }

  /** At the first case that the cut destroyed, or after the last case, the scan stops. */
  lemma ScanStops(noise: string, cases: seq<Case>, header: Header, k: nat, n: nat, t: string, from: nat, gap: string)
    requires Clean(noise) && GoodCases(cases, header) && k <= |t|
    requires n <= |cases| && (n < |cases| ==> k < EndOffset(noise, cases, n))
    requires t == ConsoleText(noise, cases) && from == ScanFrom(noise, cases, n) && gap == Gap(noise, cases, n)
    ensures NextBlock(t[..k], from, CaseFrame()) == None
  {
    if n < |cases| {
      Places(noise, cases, header, n, t, from, gap);
      CutBlock(t, from, gap, cases[n], k);
    } else {
      GapPlace(noise, cases, n);
      GapIsClean(noise, cases, header, n);
      assert cases[..n] == cases;
      NothingMore(t, from, gap, k);
    }
  }

  lemma {:induction false} EndsIncrease(noise: string, cases: seq<Case>, i: nat, j: nat)
    requires i < j < |cases|
    ensures EndOffset(noise, cases, i) < EndOffset(noise, cases, j)
  {
    hide CaseText;
    assert cases[..j][..j-1] == cases[..j-1];
    if i < j - 1 {
      EndsIncrease(noise, cases, i, j - 1);
    }
  }

  lemma {:induction false} ScanTo(noise: string, cases: seq<Case>, header: Header, k: nat, n: nat)
    requires Clean(noise) && GoodCases(cases, header) && k <= |ConsoleText(noise, cases)|
    requires n <= |cases| && (n > 0 ==> EndOffset(noise, cases, n - 1) <= k)
    ensures var cut := ConsoleText(noise, cases)[..k];
      Blocks(cut, 0, CaseFrame(), header, []) ==
      Blocks(cut, ScanFrom(noise, cases, n), CaseFrame(), header, BlocksOf(cases[..n]))
  {
    if n == 0 {
      assert BlocksOf(cases[..0]) == [];
    } else {
      if n > 1 { EndsIncrease(noise, cases, n - 2, n - 1); }
      ScanTo(noise, cases, header, k, n - 1);
      ScanCase(noise, cases, header, k, n - 1, BlocksOf(cases[..n-1]),
        ConsoleText(noise, cases), ScanFrom(noise, cases, n - 1), Gap(noise, cases, n - 1));
      BlocksOfNext(cases, n - 1);
    }
  }

  lemma BlocksOfNext(cases: seq<Case>, n: nat)
    requires n < |cases|
    ensures BlocksOf(cases[..n]) + [BlockOf(cases[n])] == BlocksOf(cases[..n+1])
  {
  }

  /** How many of the cases end within the first k characters. */
  function CompleteCases(noise: string, cases: seq<Case>, k: int, n: nat): (r: nat)
    requires n <= |cases|
    ensures r <= n
  {
    if n == 0 || EndOffset(noise, cases, n - 1) <= k then n else CompleteCases(noise, cases, k, n - 1)
  }

  lemma {:induction false} CompleteCasesEndInTime(noise: string, cases: seq<Case>, k: int, n: nat, i: nat)
    requires i < n <= |cases|
    ensures i < CompleteCases(noise, cases, k, n) <==> EndOffset(noise, cases, i) <= k
  {
    hide EndOffset;
    if EndOffset(noise, cases, n - 1) <= k {
      if i < n - 1 { EndsIncrease(noise, cases, i, n - 1); }
    } else if i < n - 1 {
      CompleteCasesEndInTime(noise, cases, k, n - 1, i);
    }
  }

  /**
   * Crash-prefix recovery: of a console cut at any byte the host extracts exactly the cases whose
   * end marker was printed, in order, each with its program, its body and its own log.
   */
  lemma CutConsoleGivesCompleteCases(noise: string, cases: seq<Case>, header: Header, k: nat)
    requires Clean(noise) && GoodCases(cases, header) && k <= |ConsoleText(noise, cases)|
    ensures var n := CompleteCases(noise, cases, k, |cases|);
      Blocks(ConsoleText(noise, cases)[..k], 0, CaseFrame(), header, []) == Ok(BlocksOf(cases[..n]))
    ensures forall i :: 0 <= i < |cases| ==>
      (i < CompleteCases(noise, cases, k, |cases|) <==> EndOffset(noise, cases, i) <= k)
  {
    var n := CompleteCases(noise, cases, k, |cases|);
    forall i | 0 <= i < |cases| ensures i < n <==> EndOffset(noise, cases, i) <= k {
      CompleteCasesEndInTime(noise, cases, k, |cases|, i);
    }
    ScanTo(noise, cases, header, k, n);
    ScanStops(noise, cases, header, k, n, ConsoleText(noise, cases), ScanFrom(noise, cases, n), Gap(noise, cases, n));
    NoMoreBlocks(ConsoleText(noise, cases)[..k], ScanFrom(noise, cases, n), CaseFrame(), header, BlocksOf(cases[..n]));
  }
}
