/** The event file: what the tracer appended to it is what the host takes from it, whatever the streams say. */
module TraceFile {
  import opened Prelude
  import opened Text
  import opened Json
  import opened LoadedJson
  import opened PyValues
  import opened TraceEvent
  import opened TraceFrames

  /** The lines of several events, one after the other. */
  function FileText(es: seq<Event>): string {
    if es == [] then "" else EventLine(es[0]) + FileText(es[1..])
  }

  function AsJson(es: seq<Event>): seq<Json> { seq(|es|, i requires 0 <= i < |es| => EventJson(es[i])) }

  lemma LineIsRead(e: Event)
    requires PrintableEvent(e)
    ensures var json := Render(EventJson(e));
      OneLine(json) && Strip(json, IsSpace) == json && json != "" && Loads(json) == Some(EventJson(e))
  {
    hide EventJson, Render, Loads;
    EventIsPrintable(e);
    RenderIsPrintable(EventJson(e));
    RenderingIsRead(EventJson(e));
    PrintableIsOneLine(Render(EventJson(e)));
    Braces(e);
    StripNothing(Render(EventJson(e)));
  }

  lemma FileLines(e: Event, rest: string)
    requires PrintableEvent(e)
    ensures SplitLines(EventLine(e) + rest) == [Render(EventJson(e))] + SplitLines(rest)
  {
    hide EventJson, Render, Loads, Strip, OneLine, SplitLines, PrintableEvent;
    var json := Render(EventJson(e));
    LineIsRead(e);
    assert EventLine(e) + rest == json + ("\n" + rest);
    FirstLine(json, rest);
  }

  lemma LineIsParsed(e: Event, lines: seq<string>, found: seq<PyValue>)
    requires PrintableEvent(e)
    ensures ParseFrom([Render(EventJson(e))] + lines, found) == ParseFrom(lines, found + [PyOf(EventJson(e))])
  {
    hide EventJson, Render, Loads, Strip, OneLine, PyOf, PrintableEvent;
    LineIsRead(e);
    FirstOfLines(Render(EventJson(e)), lines);
  }

  lemma AsJsonStep(es: seq<Event>, found: seq<PyValue>)
    requires es != []
    ensures found + Loaded(AsJson(es)) == found + [PyOf(EventJson(es[0]))] + Loaded(AsJson(es[1..]))
  {
    hide EventJson, PyOf;
    assert AsJson(es)[1..] == AsJson(es[1..]);
    assert Loaded(AsJson(es)) == [PyOf(EventJson(es[0]))] + Loaded(AsJson(es[1..]));
  }

  lemma {:induction false} LinesAreParsed(es: seq<Event>, found: seq<PyValue>)
    requires forall i :: 0 <= i < |es| ==> PrintableEvent(es[i])
    ensures ParseFrom(SplitLines(FileText(es)), found) == Ok(found + Loaded(AsJson(es)))
    decreases es
  {
    hide EventLine, EventJson, Render, PyOf, PrintableEvent, Loaded, AsJson;
    if es == [] {
      assert |Loaded(AsJson(es))| == 0 by { NoEvents(); }
      assert found + Loaded(AsJson(es)) == found;
    } else {
      hide SplitLines, ParseFrom;
      FileLines(es[0], FileText(es[1..]));
      LineIsParsed(es[0], SplitLines(FileText(es[1..])), found);
      LinesAreParsed(es[1..], found + [PyOf(EventJson(es[0]))]);
      AsJsonStep(es, found);
    }
  }

  lemma NoEvents()
    ensures Loaded(AsJson([])) == []
  {
  }

  lemma NothingBefore(values: seq<PyValue>)
    ensures [] + values == values
  {
  }

  /** All events come back from the file, in order, and no stream is looked at if there are any. */
  lemma FileComesBack(es: seq<Event>, viaStdout: bool, texts: seq<string>)
    requires forall i :: 0 <= i < |es| ==> PrintableEvent(es[i])
    ensures FileEvents(Some(FileText(es))) == Loaded(AsJson(es))
    ensures es != [] ==> Persisted(Some(FileText(es)), viaStdout, texts) == Ok(Loaded(AsJson(es)))
  {
    hide ParseFrom, MergeTexts, FileText, PrintableEvent, SplitLines, Loaded, EventJson;
    LinesAreParsed(es, []);
    NothingBefore(Loaded(AsJson(es)));
    assert |Loaded(AsJson(es))| == |es|;
  }

  predicate IsBroken(line: string) { Strip(line, IsSpace) != "" && Loads(Strip(line, IsSpace)) == None }

  lemma {:induction false} BrokenLineStops(lines: seq<string>, found: seq<PyValue>)
    ensures ParseFrom(lines, found).Err? <==> exists i :: 0 <= i < |lines| && IsBroken(lines[i])
    decreases lines
  {
    hide Loads, Strip;
    if lines != [] {
      assert lines == [lines[0]] + lines[1..];
      var line := Strip(lines[0], IsSpace);
      if line == "" {
        BrokenLineStops(lines[1..], found);
      } else if Loads(line).Some? {
        BrokenLineStops(lines[1..], found + [PyOf(Loads(line).value)]);
      }
    }
  }

  /** One line that does not load makes the whole file worthless, and the streams are read instead. */
  lemma BrokenFileIsIgnored(text: string, texts: seq<string>)
    requires exists i :: 0 <= i < |SplitLines(text)| && IsBroken(SplitLines(text)[i])
    ensures FileEvents(Some(text)) == []
    ensures Persisted(Some(text), true, texts) == Persisted(None, true, texts)
  {
    hide ParseFrom, SplitLines, MergeTexts;
    BrokenLineStops(SplitLines(text), []);
  }

  predicate IsBadFrame(line: string) { Payload(line).Some? && Loads(Payload(line).value) == None }

  /** A stream is refused exactly if one of its frames does not load. */
  lemma {:induction false} BadFrameStops(lines: seq<string>, found: seq<Json>)
    ensures ExtractFrom(lines, found).Err? <==> exists i :: 0 <= i < |lines| && IsBadFrame(lines[i])
    decreases lines
  {
    hide Loads, Payload;
    if lines != [] {
      assert lines == [lines[0]] + lines[1..];
      var payload := Payload(lines[0]);
      if payload.None? {
        BadFrameStops(lines[1..], found);
      } else if Loads(payload.value).Some? {
        BadFrameStops(lines[1..], found + [Loads(payload.value).value]);
      }
    }
  }
}
