/**
 * A console of framed events that was cut off somewhere, as a crash leaves it: what the host still
 * finds (orchestrator/vm_runner.py, extract_framed_events).
 */
module TraceCut {
  import opened Prelude
  import opened Text
  import opened Json
  import opened TraceEvent
  import opened TraceFrames

  // ---------------------------------------------------------------- JSON texts are prefix-free

  /** What was parsed from a text is parsed from every continuation of it, which is left over. */
  lemma {:induction false} CharsGrow(s: string, t: string)
    requires ParseChars(s).Some?
    ensures ParseChars(s + t) == Some(Parsed(ParseChars(s).value.value, ParseChars(s).value.rest + t))
  {
    var u := s + t;
    if s[0] == '"' {
      assert u[1..] == s[1..] + t;
    } else if s[0] == '\\' {
      CharsGrow(s[2..], t);
      assert u[2..] == s[2..] + t && u[1] == s[1];
    } else {
      CharsGrow(s[1..], t);
      assert u[1..] == s[1..] + t;
    }
  }

  lemma DigitsGrow(s: string, t: string)
    requires ParseDigits(s).Some? && ParseDigits(s).value.rest != ""
    ensures ParseDigits(s + t) == Some(Parsed(ParseDigits(s).value.value, ParseDigits(s).value.rest + t))
  {
    var u, n := s + t, Leading(s, IsDigit, |s|);
    LeadingIs(s, IsDigit, |s|);
    LeadingIs(u, IsDigit, |u|);
    assert u[n] == s[n] && forall i :: 0 <= i < n ==> u[i] == s[i];
    assert Leading(u, IsDigit, |u|) == n;
    assert u[..n] == s[..n] && u[n..] == s[n..] + t;
  }

  lemma NumberGrows(s: string, t: string)
    requires ParseNumber(s).Some? && ParseNumber(s).value.rest != ""
    ensures ParseNumber(s + t) == Some(Parsed(ParseNumber(s).value.value, ParseNumber(s).value.rest + t))
  {
    if s[0] == '-' {
      DigitsGrow(s[1..], t);
      assert (s + t)[1..] == s[1..] + t;
    } else {
      DigitsGrow(s, t);
    }
  }

  /** Only a number at the very end could go on. */
  predicate Closed(s: string) {
    ParseValue(s).Some? && s != "" && (ParseValue(s).value.rest != "" || s[0] in {'"', '{', '[', 't', 'f'})
  }

  lemma {:induction false} ValueGrows(s: string, t: string)
    requires Closed(s)
    ensures ParseValue(s + t) == Some(Parsed(ParseValue(s).value.value, ParseValue(s).value.rest + t))
    decreases |s|, 0
  {
    var u := s + t;
    assert u[0] == s[0];
    if s[0] == '"' {
      CharsGrow(s[1..], t);
      assert u[1..] == s[1..] + t;
    } else if s[0] in {'t', 'f'} {
      LiteralGrows(s, t);
    } else if s[0] == '[' {
      ArrayGrows(s, t);
    } else if s[0] == '{' {
      ObjectGrows(s, t);
    } else {
      NumberGrows(s, t);
    }
  }

  lemma LiteralGrows(s: string, t: string)
    requires s != "" && s[0] in {'t', 'f'} && ParseValue(s).Some?
    ensures ParseValue(s + t) == Some(Parsed(ParseValue(s).value.value, ParseValue(s).value.rest + t))
  {
    var u := s + t;
    if "true" <= s {
      assert u[4..] == s[4..] + t && u[..4] == s[..4];
    } else {
      NoNumber(s);
      assert "false" <= s;
      assert u[5..] == s[5..] + t && u[..5] == s[..5];
    }
  }

  lemma NoNumber(s: string)
    requires s != "" && s[0] in {'t', 'f'}
    ensures ParseNumber(s) == None
  {
    LeadingIs(s, IsDigit, |s|);
  }

  lemma {:induction false} ArrayGrows(s: string, t: string)
    requires s != "" && s[0] == '[' && ParseValue(s).Some?
    ensures ParseValue(s + t) == Some(Parsed(ParseValue(s).value.value, ParseValue(s).value.rest + t))
    decreases |s|, 0, 0
  {
    hide ParseNumber, ParseChars, ParseFields;
    var u := s + t;
    if |s| >= 2 && s[1] == ']' {
      assert s[..2] == "[]" && u[..2] == "[]" && u[2..] == s[2..] + t;
    } else {
      assert |s| >= 2 && u[1] == s[1];
      ItemsGrow(s[1..], t);
      assert u[1..] == s[1..] + t;
    }
  }

  lemma {:induction false} ObjectGrows(s: string, t: string)
    requires s != "" && s[0] == '{' && ParseValue(s).Some?
    ensures ParseValue(s + t) == Some(Parsed(ParseValue(s).value.value, ParseValue(s).value.rest + t))
    decreases |s|, 0, 0
  {
    hide ParseNumber, ParseChars, ParseItems;
    var u := s + t;
    if |s| >= 2 && s[1] == '}' {
      assert s[..2] == "{}" && u[..2] == "{}" && u[2..] == s[2..] + t;
    } else {
      assert |s| >= 2 && u[1] == s[1];
      FieldsGrow(s[1..], t);
      assert u[1..] == s[1..] + t;
    }
  }

  lemma {:induction false} ItemsGrow(s: string, t: string)
    requires ParseItems(s).Some?
    ensures ParseItems(s + t) == Some(Parsed(ParseItems(s).value.value, ParseItems(s).value.rest + t))
    decreases |s|, 1
  {
    var rest := ParseValue(s).value.rest;
    ValueGrows(s, t);
    assert (rest + t)[0] == rest[0] && (rest + t)[1..] == rest[1..] + t;
    if rest[0] == ',' { ItemsGrow(rest[1..], t); }
  }

  lemma {:induction false} FieldGrows(s: string, t: string)
    requires ParseField(s).Some? && ParseField(s).value.rest != ""
    ensures ParseField(s + t) == Some(Parsed(ParseField(s).value.value, ParseField(s).value.rest + t))
    decreases |s|, 0
  {
    CharsGrow(s[1..], t);
    var rest := ParseChars(s[1..]).value.rest;
    assert (s + t)[1..] == s[1..] + t && (rest + t)[1..] == rest[1..] + t;
    ValueGrows(rest[1..], t);
  }

  lemma {:induction false} FieldsGrow(s: string, t: string)
    requires ParseFields(s).Some?
    ensures ParseFields(s + t) == Some(Parsed(ParseFields(s).value.value, ParseFields(s).value.rest + t))
    decreases |s|, 1
  {
    var rest := ParseField(s).value.rest;
    FieldGrows(s, t);
    assert (rest + t)[0] == rest[0] && (rest + t)[1..] == rest[1..] + t;
    if rest[0] == ',' { FieldsGrow(rest[1..], t); }
  }

  /** No part of an object's text, from its beginning, can be loaded. */
  lemma PartIsNotLoaded(j: Json, n: nat)
    requires j.Obj? && n < |Render(j)|
    ensures Loads(Render(j)[..n]) == None
  {
    hide ParseValue, ParseFields, RenderFields;
    var s, t := Render(j)[..n], Render(j)[n..];
    RenderingIsRead(j);
    assert s + t == Render(j);
    if Loads(s).Some? {
      NothingIsNoValue();
      assert s[0] == '{';
      ValueGrows(s, t);
    }
  }

  lemma NothingIsNoValue()
    ensures ParseValue("") == None
  {
  }

  // ---------------------------------------------------------------- a line that was cut

  /** If a cut line still shows a frame, it lacks at its end what was cut off, and nothing else. */
  lemma {:induction false} StripOfCut(s: string, p: nat)
    requires p <= |s| && PREFIX <= StripAnsi(s[..p])
    ensures |s| - p <= |StripAnsi(s)| && StripAnsi(s[..p]) == StripAnsi(s)[..|StripAnsi(s)| - (|s| - p)]
    decreases |s|
  {
    var cut := s[..p];
    if ANSI <= cut {
      assert cut[..2] == s[..2];
      FindCut(s, "m", 2, p);
      var end := Find(cut, "m", 2);
      if end == -1 {
        NoPrefixInAnsi(cut);
      } else {
        assert cut[end+1..] == s[end+1..][..p-end-1];
        StripOfCut(s[end+1..], p - end - 1);
      }
    } else {
      PrefixIsNotAnsi(cut, s);
    }
  }

  lemma NoPrefixInAnsi(s: string)
    requires ANSI <= s
    ensures !(PREFIX <= s)
  {
    assert ANSI[0] != PREFIX[0];
    assert s[0] == ANSI[0];
  }

  lemma PrefixIsNotAnsi(cut: string, s: string)
    requires PREFIX <= cut <= s
    ensures !(ANSI <= s)
  {
    assert ANSI[0] != PREFIX[0];
    assert s[0] == cut[0] == PREFIX[0];
  }

  lemma StripIsEmpty(s: string, cut: char -> bool)
    ensures Strip(s, cut) == "" <==> forall i :: 0 <= i < |s| ==> cut(s[i])
  {
    StripCutsEdges(s, cut);
    var lo, hi :| 0 <= lo <= hi <= |s| && s[lo..hi] == Strip(s, cut)
      && (forall i :: 0 <= i < lo ==> cut(s[i])) && (forall i :: hi <= i < |s| ==> cut(s[i]));
    if lo < hi {
      assert !cut(s[lo..hi][0]);
      assert s[lo] == s[lo..hi][0];
    }
  }

  /** Where nothing else looks like a frame, no beginning of it does. */
  lemma OtherCut(text: string, p: nat)
    requires Payload(text) == None && p <= |text|
    ensures Payload(text[..p]) == None
  {
    hide StripAnsi, Strip;
    var cut := StripAnsi(text[..p]);
    if PREFIX <= cut {
      StripOfCut(text, p);
      var whole := StripAnsi(text);
      assert whole[..|PREFIX|] == cut[..|PREFIX|];
      var a, b := cut[|PREFIX|..], whole[|PREFIX|..];
      assert a <= b;
      StripIsEmpty(b, IsSpace);
      StripIsEmpty(a, IsSpace);
    }
  }

  /** Stripping a part of a text that begins with no blank leaves a part of it. */
  lemma StripOfPart(json: string, n: nat)
    requires n <= |json| && json != "" && !IsSpace(json[0])
    ensures exists m :: 0 <= m <= n && Strip(json[..n], IsSpace) == json[..m]
  {
    var s := json[..n];
    LeadingIs(s, IsSpace, |s|);
    assert Leading(s, IsSpace, |s|) == 0;
    var m := Trailing(s, IsSpace, 0, |s|);
    assert s[0..m] == json[..m];
  }

  /** A frame that was cut shows nothing, or something that cannot be loaded. */
  lemma FrameCut(l: ConsoleLine, p: nat)
    requires l.Frame? && GoodLine(l) && p < |LineText(l)|
    ensures var payload := Payload(LineText(l)[..p]); payload.Some? ==> Loads(payload.value) == None
  {
    hide StripAnsi, Strip, Loads, EventJson, Render, LineText, GoodLine;
    var text, json := LineText(l), Render(EventJson(l.event));
    var cut := StripAnsi(text[..p]);
    if PREFIX <= cut {
      StripOfCut(text, p);
      FrameStripped(l);
      var n := |json| - (|text| - p);
      assert (PREFIX + json)[..|PREFIX| + n][|PREFIX|..] == json[..n];
      Braces(l.event);
      StripOfPart(json, n);
      var m :| 0 <= m <= n && Strip(json[..n], IsSpace) == json[..m];
      ObjectPart(l.event, m);
    }
  }

  lemma FrameStripped(l: ConsoleLine)
    requires l.Frame? && GoodLine(l)
    ensures StripAnsi(LineText(l)) == PREFIX + Render(EventJson(l.event))
  {
    hide StripAnsi, EventJson, Render, Codes;
    EventIsPrintable(l.event);
    RenderIsPrintable(EventJson(l.event));
    PrefixIsPrintable();
    PrintableJoin(PREFIX, Render(EventJson(l.event)));
    NotAnsi(PREFIX + Render(EventJson(l.event)));
    CodesAreStripped(l.codes, PREFIX + Render(EventJson(l.event)));
  }

  lemma ObjectPart(e: Event, m: nat)
    requires m < |Render(EventJson(e))|
    ensures Loads(Render(EventJson(e))[..m]) == None
  {
    PartIsNotLoaded(EventJson(e), m);
  }

  // ---------------------------------------------------------------- a console that was cut

  /** How many lines are complete, with their newlines, in the first k characters. */
  function LinesBefore(ls: seq<ConsoleLine>, k: nat): (n: nat)
    ensures n <= |ls|
  {
    if ls == [] || k <= |LineText(ls[0])| then 0 else 1 + LinesBefore(ls[1..], k - |LineText(ls[0])| - 1)
  }

  /** What is there of the line after them. */
  function LastLine(ls: seq<ConsoleLine>, k: nat): string {
    if ls == [] then "" else if k <= |LineText(ls[0])| then LineText(ls[0])[..k]
    else LastLine(ls[1..], k - |LineText(ls[0])| - 1)
  }

  /** The line after the complete ones is there in full, but for its newline. */
  predicate WholeLine(ls: seq<ConsoleLine>, k: nat) {
    LinesBefore(ls, k) < |ls| && LastLine(ls, k) == LineText(ls[LinesBefore(ls, k)])
  }

  /** What the host makes of the cut console, after the events found before. */
  function FoundInCut(ls: seq<ConsoleLine>, k: nat, found: seq<Json>): Result<seq<Json>> {
    var n := LinesBefore(ls, k);
    if Payload(LastLine(ls, k)) == None then Ok(found + EventsOf(ls[..n]))
    else if WholeLine(ls, k) then Ok(found + EventsOf(ls[..n+1]))
    else Err("JSONDecodeError")
  }

  lemma OneLineAlone(s: string)
    requires OneLine(s)
    ensures SplitLines(s) == if s == "" then [] else [s]
  {
    LeadingIs(s, NoBreak, |s|);
  }

  lemma NoPayloadInNothing()
    ensures Payload("") == None
  {
  }

  /** The last line on its own. */
  lemma LastOfCut(ls: seq<ConsoleLine>, k: nat, found: seq<Json>)
    requires ls != [] && GoodLine(ls[0]) && k <= |LineText(ls[0])|
    ensures ExtractFrom(SplitLines(LineText(ls[0])[..k]), found) == FoundInCut(ls, k, found)
  {
    hide Payload, Loads, LineText, SplitLines, GoodLine, EventJson, Render;
    var l := ls[0];
    var text := LineText(l);
    var part := text[..k];
    GoodLineIsRead(l);
    OneLineAlone(part);
    NoPayloadInNothing();
    EventsOfOne(ls, found);
    if l.Frame? {
      if k < |text| {
        FrameCut(l, k);
      } else {
        assert part == text;
      }
    } else {
      OtherHasNone(l);
      OtherCut(text, k);
    }
  }

  lemma OtherHasNone(l: ConsoleLine)
    requires l.Other? && GoodLine(l)
    ensures Payload(LineText(l)) == None
  {
  }

  lemma EventsOfOne(ls: seq<ConsoleLine>, found: seq<Json>)
    requires ls != []
    ensures found + EventsOf(ls[..0]) == found
    ensures found + EventsOf(ls[..1]) == found + if ls[0].Frame? then [EventJson(ls[0].event)] else []
  {
    hide EventJson;
    assert ls[..1][1..] == [];
  }

  lemma {:induction false} CutLinesAreRead(ls: seq<ConsoleLine>, k: nat, found: seq<Json>)
    requires (forall i :: 0 <= i < |ls| ==> GoodLine(ls[i])) && k <= |Lines(ls)|
    ensures ExtractFrom(SplitLines(Lines(ls)[..k]), found) == FoundInCut(ls, k, found)
    decreases ls
  {
    hide Payload, Loads, LineText, SplitLines, GoodLine, EventJson, Render;
    if ls == [] {
      OneLineAlone("");
      NoPayloadInNothing();
      assert found + EventsOf([]) == found;
    } else if k <= |LineText(ls[0])| {
      assert Lines(ls)[..k] == LineText(ls[0])[..k];
      LastOfCut(ls, k, found);
    } else {
      var line, rest := LineText(ls[0]), Lines(ls[1..]);
      var n := k - |line| - 1;
      assert Lines(ls)[..k] == line + ("\n" + rest[..n]);
      GoodLineIsRead(ls[0]);
      FirstLine(line, rest[..n]);
      FirstOfLines(line, SplitLines(rest[..n]));
      var event := if ls[0].Frame? then [EventJson(ls[0].event)] else [];
      CutLinesAreRead(ls[1..], n, found + event);
      LaterEvents(ls, LinesBefore(ls[1..], n), found, event);
      assert found + [] == found;
    }
  }

  lemma LaterEvents(ls: seq<ConsoleLine>, n: nat, found: seq<Json>, event: seq<Json>)
    requires ls != [] && n <= |ls| - 1 && event == if ls[0].Frame? then [EventJson(ls[0].event)] else []
    ensures found + event + EventsOf(ls[1..][..n]) == found + EventsOf(ls[..n+1])
    ensures n + 1 < |ls| ==> found + event + EventsOf(ls[1..][..n+1]) == found + EventsOf(ls[..n+2])
  {
    hide EventJson;
    assert ls[..n+1][1..] == ls[1..][..n];
    if n + 1 < |ls| { assert ls[..n+2][1..] == ls[1..][..n+1]; }
  }

  lemma {:induction false} EventsOfNext(ls: seq<ConsoleLine>, n: nat)
    requires n < |ls|
    ensures EventsOf(ls[..n+1]) == EventsOf(ls[..n]) + if ls[n].Frame? then [EventJson(ls[n].event)] else []
    decreases n
  {
    hide EventJson;
    if n == 0 {
      EventsOfOne(ls, []);
    } else {
      EventsOfNext(ls[1..], n - 1);
      assert ls[..n+1][1..] == ls[1..][..n] && ls[..n][1..] == ls[1..][..n-1];
    }
  }

  /** The complete lines and what is there of the next are the cut console. */
  lemma {:induction false} CutText(ls: seq<ConsoleLine>, k: nat)
    requires k <= |Lines(ls)|
    ensures Lines(ls)[..k] == Lines(ls[..LinesBefore(ls, k)]) + LastLine(ls, k)
    decreases ls
  {
    hide LineText;
    if ls != [] && k > |LineText(ls[0])| {
      var n := k - |LineText(ls[0])| - 1;
      CutText(ls[1..], n);
      var m := LinesBefore(ls[1..], n);
      assert ls[..m+1][1..] == ls[1..][..m];
      assert Lines(ls)[..k] == LineText(ls[0]) + ("\n" + Lines(ls[1..])[..n]);
    } else if ls != [] {
      assert Lines(ls)[..k] == LineText(ls[0])[..k];
    }
  }

  lemma WholeLineMeans(ls: seq<ConsoleLine>, k: nat)
    requires (forall i :: 0 <= i < |ls| ==> GoodLine(ls[i])) && WholeLine(ls, k)
    ensures Payload(LastLine(ls, k)) == None <==> EventsOf(ls[..LinesBefore(ls, k)+1]) == EventsOf(ls[..LinesBefore(ls, k)])
  {
    hide Payload, LineText, GoodLine, EventJson, Render;
    EventsOfNext(ls, LinesBefore(ls, k));
    GoodLineIsRead(ls[LinesBefore(ls, k)]);
  }

  /**
   * Crash-prefix recovery of framed events: of a console cut anywhere the host finds the events of the
   * complete lines if and only if the line that was cut shows no payload. If that line lacks only its
   * newline its event is found as well; in every other case the host raises, and all events are lost.
   */
  lemma CutConsoleGivesCompleteEvents(ls: seq<ConsoleLine>, k: nat)
    requires (forall i :: 0 <= i < |ls| ==> GoodLine(ls[i])) && k <= |Lines(ls)|
    ensures var n, r := LinesBefore(ls, k), ExtractFrom(SplitLines(Lines(ls)[..k]), []);
      && (r == Ok(EventsOf(ls[..n])) <==> Payload(LastLine(ls, k)) == None)
      && (r.Err? <==> Payload(LastLine(ls, k)) != None && !WholeLine(ls, k))
      && (WholeLine(ls, k) ==> n < |ls| && r == Ok(EventsOf(ls[..n+1])))
    ensures LinesBefore(ls, k) <= |ls| && Lines(ls)[..k] == Lines(ls[..LinesBefore(ls, k)]) + LastLine(ls, k)
  {
    hide Payload, Loads, LineText, SplitLines, GoodLine, EventJson, Render, LinesBefore, LastLine, WholeLine, EventsOf, ExtractFrom;
    CutText(ls, k);
    CutLinesAreRead(ls, k, []);
    NothingFound(ls, LinesBefore(ls, k));
    if WholeLine(ls, k) {
      WholeLineIsThere(ls, k);
      NothingFound(ls, LinesBefore(ls, k) + 1);
      WholeLineMeans(ls, k);
    }
  }

  lemma NothingFound(ls: seq<ConsoleLine>, n: nat)
    requires n <= |ls|
    ensures [] + EventsOf(ls[..n]) == EventsOf(ls[..n])
  {
  }

  lemma WholeLineIsThere(ls: seq<ConsoleLine>, k: nat)
    requires WholeLine(ls, k)
    ensures LinesBefore(ls, k) < |ls|
  {
  }
}
