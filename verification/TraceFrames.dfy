/**
 * Events that travel on the console: the tracer frames each line (agent/linux/trace.c,
 * emit_trace_line) and the host finds the frames again (orchestrator/vm_runner.py,
 * extract_framed_events).
 */
module TraceFrames {
  import opened Prelude
  import opened Text
  import opened Json
  import opened LoadedJson
  import opened PyValues
  import opened TraceEvent

  const PREFIX := "__SYZABI_TRACE_EVENT__ "

  const FRAME_SIZE: nat := 33024

  // ---------------------------------------------------------------- the tracer

  /** write() until everything is out; the kernel takes at most what it is offered, and may fail. */
  method WriteAll(payload: string, kernel: nat -> int) returns (out: string)
    ensures out <= payload
    ensures out == payload || exists i :: kernel(i) <= 0
  {
    var written := 0;
    var calls := 0;
    while written < |payload|
      invariant 0 <= written <= |payload|
    {
      var ret := Min(kernel(calls), |payload| - written);
      if ret <= 0 { return payload[..written]; }
      written := written + ret;
      calls := calls + 1;
    }
    return payload[..written];
  }

  /** What a line becomes on its way out: for the console it is framed, unless the frame would be too long. */
  function Framed(line: string, toConsole: bool): string {
    if !toConsole then line else if |PREFIX| + |line| >= FRAME_SIZE then "" else PREFIX + line
  }

  /** The descriptor is negative if the trace file could not be opened, and then nothing is written. */
  method EmitTraceLine(line: string, fd: int, toConsole: bool, kernel: nat -> int) returns (out: string)
    ensures fd < 0 ==> out == ""
    ensures fd >= 0 ==> out <= Framed(line, toConsole)
    ensures fd >= 0 ==> out == Framed(line, toConsole) || exists i :: kernel(i) <= 0
    ensures fd >= 0 && (forall i :: kernel(i) > 0) ==>
      out == if !toConsole then line else if |line| > 33000 then "" else "__SYZABI_TRACE_EVENT__ " + line
  {
    if fd < 0 { return ""; }
    var payload := line;
    if toConsole {
      if |PREFIX| + |line| >= FRAME_SIZE { return ""; }
      payload := PREFIX + line;
    }
    out := WriteAll(payload, kernel);
  }

  /** The frame's own bound drops no line that came out of the line buffer. */
  lemma NoFrameIsDropped(line: string)
    requires |line| < LINE_SIZE
    ensures |PREFIX| + |line| < FRAME_SIZE
  {
  }

  // ---------------------------------------------------------------- the host

  const ANSI := "\U{1B}["

  /** A line without the escape sequences at its front. */
  function StripAnsi(s: string): string
    decreases |s|
  {
    if !(ANSI <= s) then s else
    var end := Find(s, "m", 2);
    if end == -1 then s else StripAnsi(s[end+1..])
  }

  /** The JSON text that a line carries, if it is a frame. */
  function Payload(line: string): Option<string> {
    var cleaned := StripAnsi(line);
    if !(PREFIX <= cleaned) then None else
    var payload := Strip(cleaned[|PREFIX|..], IsSpace);
    if payload == "" then None else Some(payload)
  }

  function ExtractFrom(lines: seq<string>, found: seq<Json>): Result<seq<Json>> {
    if lines == [] then Ok(found) else
    match Payload(lines[0])
    case None => ExtractFrom(lines[1..], found)
    case Some(payload) =>
      match Loads(payload)
      case None => Err("JSONDecodeError")
      case Some(event) => ExtractFrom(lines[1..], found + [event])
  }

  method ExtractFramedEvents(text: string) returns (r: Result<seq<Json>>)
    ensures r == ExtractFrom(SplitLines(text), [])
  {
    hide Payload, Loads;
    var lines := SplitLines(text);
    var events: seq<Json> := [];
    for i := 0 to |lines|
      invariant ExtractFrom(lines, []) == ExtractFrom(lines[i..], events)
    {
      assert lines[i..][0] == lines[i] && lines[i..][1..] == lines[i+1..];
      var payload := Payload(lines[i]);
      if payload.Some? {
        var event := Loads(payload.value);
        if event.None? { return Err("JSONDecodeError"); }
        events := events + [event.value];
      }
    }
    return Ok(events);
  }

  // ---------------------------------------------------------------- printable JSON

  predicate Printable(s: string) { forall i :: 0 <= i < |s| ==> ' ' <= s[i] <= '~' }

  predicate PrintableJson(j: Json) {
    match j
    case Num(_) => true
    case Str(s) => Printable(s)
    case Bool(_) => true
    case Arr(items) => PrintableItems(items)
    case Obj(fields) => PrintableFields(fields)
  }

  predicate PrintableItems(items: seq<Json>) {
    items == [] || (PrintableJson(items[0]) && PrintableItems(items[1..]))
  }

  predicate PrintableFields(fields: seq<Field>) {
    fields == [] || (Printable(fields[0].name) && PrintableJson(fields[0].value) && PrintableFields(fields[1..]))
  }

  lemma PrintableJoin(a: string, b: string)
    ensures Printable(a + b) <==> Printable(a) && Printable(b)
  {
    if Printable(a + b) {
      assert forall i :: 0 <= i < |a| ==> a[i] == (a + b)[i];
      assert forall i :: 0 <= i < |b| ==> b[i] == (a + b)[|a| + i];
    }
  }

  lemma {:induction false} QuotedIsPrintable(s: string)
    requires Printable(s)
    ensures Printable(Quoted(s)) && Printable(Escape(s)) && KeptText(s) == s
  {
    if s != "" {
      QuotedIsPrintable(s[1..]);
      PrintableJoin(EscapeChar(s[0]), Escape(s[1..]));
    }
    PrintableJoin("\"" + Escape(s), "\"");
    PrintableJoin("\"", Escape(s));
  }

  lemma {:induction false} DecimalIsPrintable(n: int)
    ensures Printable(SignedDecimal(n))
  {
    if n < 0 { DecimalIsRead(-n); } else { DecimalIsRead(n); }
  }

  /** A printable value is rendered in printable characters, and read back unchanged. */
  lemma {:induction false} RenderIsPrintable(j: Json)
    requires PrintableJson(j)
    ensures Printable(Render(j)) && KeptJson(j) == j
    decreases j
  {
    hide Printable;
    match j {
      case Num(n) => DecimalIsPrintable(n);
      case Str(s) => QuotedIsPrintable(s);
      case Bool(_) => Letters();
      case Arr(items) =>
        ItemsArePrintable(items);
        Brackets();
        PrintableJoin("[" + RenderItems(items), "]");
        PrintableJoin("[", RenderItems(items));
      case Obj(fields) =>
        FieldsArePrintable(fields);
        Brackets();
        PrintableJoin("{" + RenderFields(fields), "}");
        PrintableJoin("{", RenderFields(fields));
    }
  }

  lemma Letters()
    ensures Printable("true") && Printable("false")
  {
  }

  lemma Brackets()
    ensures Printable("[") && Printable("]") && Printable("{") && Printable("}") && Printable(",") && Printable(":")
    ensures Printable("")
  {
  }

  lemma {:induction false} ItemsArePrintable(items: seq<Json>)
    requires PrintableItems(items)
    ensures Printable(RenderItems(items)) && KeptItems(items) == items
    decreases items
  {
    hide Printable, PrintableJson, Render, KeptJson;
    Brackets();
    if items != [] {
      RenderIsPrintable(items[0]);
      ItemsArePrintable(items[1..]);
      PrintableJoin(",", RenderItems(items[1..]));
      PrintableJoin(Render(items[0]), if |items| == 1 then "" else "," + RenderItems(items[1..]));
    }
  }

  lemma {:induction false} FieldsArePrintable(fields: seq<Field>)
    requires PrintableFields(fields)
    ensures Printable(RenderFields(fields)) && KeptFields(fields) == fields
    decreases fields
  {
    hide Printable, PrintableJson, Render, RenderField, KeptJson, KeptText;
    Brackets();
    if fields != [] {
      RenderIsPrintable(fields[0].value);
      FieldIsPrintable(fields[0]);
      FieldsArePrintable(fields[1..]);
      PrintableJoin(",", RenderFields(fields[1..]));
      PrintableJoin(RenderField(fields[0]), if |fields| == 1 then "" else "," + RenderFields(fields[1..]));
    }
  }

  lemma FieldIsPrintable(f: Field)
    requires Printable(f.name) && Printable(Render(f.value))
    ensures Printable(RenderField(f)) && KeptText(f.name) == f.name
  {
    hide Printable, Render, Quoted;
    Brackets();
    QuotedIsPrintable(f.name);
    PrintableJoin(Quoted(f.name), ":");
    PrintableJoin(Quoted(f.name) + ":", Render(f.value));
  }

  // ---------------------------------------------------------------- printable events

  /** Names and hex texts in printable ASCII. */
  predicate PrintableEvent(e: Event) {
    && Printable(e.side) && Printable(e.syscallName)
    && forall i :: 0 <= i < |e.probes| ==> PrintableProbe(e.probes[i])
  }

  predicate PrintableProbe(p: Probe) {
    Printable(p.tag) && Printable(p.preview) && Printable(p.digest)
  }

  lemma PrintableProbeNames()
    ensures Printable("label") && Printable("arg_index") && Printable("length") && Printable("preview_hex")
    ensures Printable("sha256")
  {
  }

  lemma PrintableResourceNames()
    ensures Printable("resource_kind") && Printable("resource_values") && Printable("fd")
  {
  }

  lemma PrintableCallNames()
    ensures Printable("event_index") && Printable("side") && Printable("syscall_name") && Printable("syscall_number")
    ensures Printable("args")
  {
  }

  lemma PrintableResultNames()
    ensures Printable("return_value") && Printable("errno") && Printable("start_ns") && Printable("end_ns")
    ensures Printable("timed_out") && Printable("outputs")
  {
  }

  lemma {:induction false} PrintableMore(fields: seq<Field>, f: Field)
    requires PrintableFields(fields) && Printable(f.name) && PrintableJson(f.value)
    ensures PrintableFields(fields + [f])
  {
    hide Printable, PrintableJson;
    if fields != [] {
      PrintableMore(fields[1..], f);
      assert (fields + [f])[1..] == fields[1..] + [f];
    } else {
      assert [f][1..] == [];
    }
  }

  lemma {:induction false} NumsArePrintable(ns: seq<int>)
    ensures PrintableItems(Nums(ns))
  {
    if ns != [] {
      NumsArePrintable(ns[1..]);
      assert Nums(ns)[1..] == Nums(ns[1..]);
    }
  }

  lemma ProbeIsPrintable(p: Probe)
    requires PrintableProbe(p)
    ensures PrintableFields(ProbeFields(p))
  {
    hide Printable, PrintableFields;
    PrintableProbeNames();
    PrintableResourceNames();
    NoneIsPrintable();
    var f1 := [Field("label", Str(p.tag))];
    var f2 := f1 + [Field("arg_index", Num(p.argIndex))];
    var f3 := f2 + [Field("length", Num(p.length))];
    var f4 := f3 + [Field("preview_hex", Str(p.preview))];
    PrintableMore([], Field("label", Str(p.tag)));
    PrintableMore(f1, Field("arg_index", Num(p.argIndex)));
    PrintableMore(f2, Field("length", Num(p.length)));
    PrintableMore(f3, Field("preview_hex", Str(p.preview)));
    PrintableMore(f4, Field("sha256", Str(p.digest)));
    if p.fds.Some? {
      NumsArePrintable(p.fds.value);
      PrintableMore(ProbeBase(p), Field("resource_kind", Str("fd")));
      PrintableMore(ProbeBase(p) + [Field("resource_kind", Str("fd"))], Field("resource_values", Arr(Nums(p.fds.value))));
    }
  }

  lemma NoneIsPrintable()
    ensures PrintableFields([])
    ensures forall f: Field :: [] + [f] == [f]
  {
  }

  lemma {:induction false} ProbesArePrintable(ps: seq<Probe>)
    requires forall i :: 0 <= i < |ps| ==> PrintableProbe(ps[i])
    ensures PrintableItems(ProbeItems(ps))
  {
    hide PrintableProbe, ProbeFields, PrintableFields;
    if ps != [] {
      ProbeIsPrintable(ps[0]);
      ProbesArePrintable(ps[1..]);
      assert ProbeItems(ps)[1..] == ProbeItems(ps[1..]);
    }
  }

  lemma CallIsPrintable(e: Event)
    requires PrintableEvent(e)
    ensures PrintableFields(CallFields(e))
  {
    hide Printable, PrintableFields;
    PrintableCallNames();
    NoneIsPrintable();
    NumsArePrintable(e.args);
    var f1 := [Field("event_index", Num(e.callIndex))];
    var f2 := f1 + [Field("side", Str(e.side))];
    var f3 := f2 + [Field("syscall_name", Str(e.syscallName))];
    var f4 := f3 + [Field("syscall_number", Num(e.syscallNumber))];
    PrintableMore([], Field("event_index", Num(e.callIndex)));
    PrintableMore(f1, Field("side", Str(e.side)));
    PrintableMore(f2, Field("syscall_name", Str(e.syscallName)));
    PrintableMore(f3, Field("syscall_number", Num(e.syscallNumber)));
    PrintableMore(f4, Field("args", Arr(Nums(e.args))));
  }

  lemma EventIsPrintable(e: Event)
    requires PrintableEvent(e)
    ensures PrintableJson(EventJson(e))
  {
    hide Printable, PrintableFields;
    PrintableResultNames();
    CallIsPrintable(e);
    ProbesArePrintable(e.probes);
    var f1 := CallFields(e) + [Field("return_value", Num(e.returnValue))];
    var f2 := f1 + [Field("errno", Num(e.errno))];
    var f3 := f2 + [Field("start_ns", Num(e.startNs))];
    var f4 := f3 + [Field("end_ns", Num(e.endNs))];
    PrintableMore(CallFields(e), Field("return_value", Num(e.returnValue)));
    PrintableMore(f1, Field("errno", Num(e.errno)));
    PrintableMore(f2, Field("start_ns", Num(e.startNs)));
    PrintableMore(f3, Field("end_ns", Num(e.endNs)));
    PrintableMore(f4, Field("timed_out", Bool(false)));
    PrintableMore(ResultFields(e), Field("outputs", Arr(ProbeItems(e.probes))));
  }

  // ---------------------------------------------------------------- from the console back to the events

  /** A line of the console: something else, or a frame, perhaps after terminal escape sequences. */
  datatype ConsoleLine = Other(text: string) | Frame(codes: seq<string>, event: Event)

  function Codes(codes: seq<string>): string {
    if codes == [] then "" else ANSI + codes[0] + "m" + Codes(codes[1..])
  }

  function LineText(l: ConsoleLine): string {
    match l
    case Other(text) => text
    case Frame(codes, e) => Codes(codes) + (PREFIX + Render(EventJson(e)))
  }

  function Lines(ls: seq<ConsoleLine>): string {
    if ls == [] then "" else LineText(ls[0]) + ("\n" + Lines(ls[1..]))
  }

  /** Other lines do not look like frames; escape sequences are of the form that ends in m. */
  predicate GoodLine(l: ConsoleLine) {
    match l
    case Other(text) => OneLine(text) && Payload(text) == None
    case Frame(codes, e) => PrintableEvent(e) && (forall i :: 0 <= i < |codes| ==> GoodCode(codes[i]))
  }

  predicate GoodCode(code: string) { OneLine(code) && 'm' !in code }

  function EventsOf(ls: seq<ConsoleLine>): seq<Json> {
    if ls == [] then [] else (if ls[0].Frame? then [EventJson(ls[0].event)] else []) + EventsOf(ls[1..])
  }

  lemma OneLineJoin(a: string, b: string)
    requires OneLine(a) && OneLine(b)
    ensures OneLine(a + b)
  {
  }

  lemma {:induction false} CodesAreStripped(codes: seq<string>, tail: string)
    requires (forall i :: 0 <= i < |codes| ==> GoodCode(codes[i])) && !(ANSI <= tail)
    ensures StripAnsi(Codes(codes) + tail) == tail
    ensures OneLine(Codes(codes))
  {
    if codes == [] {
      assert "" + tail == tail;
    } else {
      CodesAreStripped(codes[1..], tail);
      FirstCode(codes[0], Codes(codes[1..]) + tail);
      assert Codes(codes) + tail == ANSI + codes[0] + "m" + (Codes(codes[1..]) + tail);
      CodeIsOneLine(codes[0]);
      OneLineJoin(ANSI + codes[0] + "m", Codes(codes[1..]));
    }
  }

  lemma CodeIsOneLine(code: string)
    requires GoodCode(code)
    ensures OneLine(ANSI + code + "m")
  {
  }

  lemma FirstCode(code: string, rest: string)
    requires GoodCode(code)
    ensures StripAnsi(ANSI + code + "m" + rest) == StripAnsi(rest)
  {
    var s := ANSI + code + "m" + rest;
    assert s[..2] == ANSI;
    assert At(s, 2 + |code|, "m");
    forall j | 2 <= j < 2 + |code| ensures !At(s, j, "m") {
      assert s[j] == code[j-2];
    }
    FindIs(s, "m", 2, 2 + |code|);
    assert s[2+|code|+1..] == rest;
  }

  lemma StripNothing(s: string)
    requires s != "" && !IsSpace(s[0]) && !IsSpace(s[|s|-1])
    ensures Strip(s, IsSpace) == s
  {
    LeadingIs(s, IsSpace, |s|);
    TrailingIs(s, IsSpace, 0, |s|);
  }

  /** The frame of a printable event is one line, and its payload is read as that event. */
  lemma FrameIsRead(codes: seq<string>, e: Event)
    requires GoodLine(Frame(codes, e))
    ensures OneLine(LineText(Frame(codes, e)))
    ensures Payload(LineText(Frame(codes, e))) == Some(Render(EventJson(e)))
    ensures Loads(Render(EventJson(e))) == Some(EventJson(e))
  {
    hide EventJson, Render, Codes, StripAnsi, Loads;
    var json := Render(EventJson(e));
    EventIsPrintable(e);
    RenderIsPrintable(EventJson(e));
    RenderingIsRead(EventJson(e));
    PrefixIsPrintable();
    PrintableJoin(PREFIX, json);
    NotAnsi(PREFIX + json);
    CodesAreStripped(codes, PREFIX + json);
    PrintableIsOneLine(PREFIX + json);
    OneLineJoin(Codes(codes), PREFIX + json);
    Braces(e);
    StripNothing(json);
    PayloadIs(LineText(Frame(codes, e)), json);
  }

  lemma PrefixIsPrintable()
    ensures Printable(PREFIX)
  {
  }

  lemma NotAnsi(s: string)
    requires Printable(s)
    ensures !(ANSI <= s)
  {
    assert s != "" ==> s[0] != ANSI[0];
  }

  lemma PrintableIsOneLine(s: string)
    requires Printable(s)
    ensures OneLine(s)
  {
  }

  lemma Braces(e: Event)
    ensures var json := Render(EventJson(e)); json != "" && json[0] == '{' && json[|json|-1] == '}'
  {
    hide RenderFields;
  }

  lemma PayloadIs(line: string, json: string)
    requires StripAnsi(line) == PREFIX + json && Strip(json, IsSpace) == json && json != ""
    ensures Payload(line) == Some(json)
  {
    assert (PREFIX + json)[|PREFIX|..] == json;
    assert (PREFIX + json)[..|PREFIX|] == PREFIX;
  }

  lemma {:induction false} LinesAreRead(ls: seq<ConsoleLine>, found: seq<Json>)
    requires forall i :: 0 <= i < |ls| ==> GoodLine(ls[i])
    ensures ExtractFrom(SplitLines(Lines(ls)), found) == Ok(found + EventsOf(ls))
    decreases ls
  {
    hide EventJson, Render, Payload, Loads, LineText, OneLine;
    if ls != [] {
      var line := LineText(ls[0]);
      GoodLineIsRead(ls[0]);
      FirstLine(line, Lines(ls[1..]));
      FirstOfLines(line, SplitLines(Lines(ls[1..])));
      if ls[0].Frame? {
        var event := EventJson(ls[0].event);
        LinesAreRead(ls[1..], found + [event]);
        assert found + [event] + EventsOf(ls[1..]) == found + ([event] + EventsOf(ls[1..]));
      } else {
        LinesAreRead(ls[1..], found);
        assert [] + EventsOf(ls[1..]) == EventsOf(ls[1..]);
      }
    } else {
      assert found + [] == found;
    }
  }

  lemma GoodLineIsRead(l: ConsoleLine)
    requires GoodLine(l)
    ensures OneLine(LineText(l))
    ensures Payload(LineText(l)) == if l.Frame? then Some(Render(EventJson(l.event))) else None
    ensures l.Frame? ==> Loads(Render(EventJson(l.event))) == Some(EventJson(l.event))
  {
    if l.Frame? { FrameIsRead(l.codes, l.event); }
  }

  lemma FirstOfLines(line: string, rest: seq<string>)
    ensures ([line] + rest)[0] == line && ([line] + rest)[1..] == rest
  {
  }

  /**
   * Every framed event on a console comes back, in order and with every field, whatever other lines
   * and escape sequences stand between the frames.
   */
  lemma FramesAreExtracted(ls: seq<ConsoleLine>)
    requires forall i :: 0 <= i < |ls| ==> GoodLine(ls[i])
    ensures ExtractFrom(SplitLines(Lines(ls)), []) == Ok(EventsOf(ls))
  {
    hide ExtractFrom, SplitLines, Lines, EventsOf, GoodLine;
    LinesAreRead(ls, []);
    assert [] + EventsOf(ls) == EventsOf(ls);
  }

  /** What the tracer writes to the console for an event is one frame and its newline. */
  lemma FrameText(e: Event)
    ensures PREFIX + EventLine(e) == Lines([Frame([], e)])
  {
    hide EventJson, Render;
    var l := Frame([], e);
    assert [l][1..] == [];
    assert LineText(l) == PREFIX + Render(EventJson(e));
    assert Lines([]) == "";
  }

  /**
   * Printer and parser undo each other: for printable names of at most 1000 characters the line is
   * neither cut nor dropped, and what the host reads from the frame is the event.
   */
  lemma EventComesBack(e: Event)
    requires EventFits(e) && Usual(e) && PrintableEvent(e)
    ensures EventLine(e)[..Min(|EventLine(e)|, 32767)] == EventLine(e)
    ensures |"__SYZABI_TRACE_EVENT__ "| + |EventLine(e)| < 33024
    ensures ExtractFrom(SplitLines("__SYZABI_TRACE_EVENT__ " + EventLine(e)), []) == Ok([EventJson(e)])
  {
    hide EventJson, EventLine, Usual, EventFits, PrintableEvent;
    var ls := [Frame([], e)];
    LineFits(e);
    NoFrameIsDropped(EventLine(e));
    FrameText(e);
    FrameIsGood(e);
    FramesAreExtracted(ls);
    assert ls[1..] == [];
    assert EventsOf(ls) == [EventJson(e)];
  }

  lemma FrameIsGood(e: Event)
    requires PrintableEvent(e)
    ensures GoodLine(Frame([], e))
  {
  }

  lemma NumsAreInjective(a: seq<int>, b: seq<int>)
    requires Nums(a) == Nums(b)
    ensures a == b
  {
    assert |Nums(a)| == |a| && |Nums(b)| == |b|;
    forall i | 0 <= i < |a| ensures a[i] == b[i] {
      assert Nums(a)[i] == Nums(b)[i];
    }
  }

  lemma ProbeFieldsAreInjective(a: Probe, b: Probe)
    requires ProbeFields(a) == ProbeFields(b)
    ensures a == b
  {
    var s, t := ProbeFields(a), ProbeFields(b);
    assert s[0] == t[0] && s[1] == t[1] && s[2] == t[2] && s[3] == t[3] && s[4] == t[4];
    if a.fds.Some? {
      assert |t| == 7;
      assert s[6] == t[6];
      NumsAreInjective(a.fds.value, b.fds.value);
    }
  }

  /** The JSON text of an event determines every field of the event. */
  lemma EventJsonIsInjective(a: Event, b: Event)
    requires EventJson(a) == EventJson(b)
    ensures a == b
  {
    var s, t := EventJson(a).fields, EventJson(b).fields;
    assert s[0] == t[0] && s[1] == t[1] && s[2] == t[2] && s[3] == t[3] && s[4] == t[4] && s[5] == t[5];
    assert s[6] == t[6] && s[7] == t[7] && s[8] == t[8] && s[10] == t[10];
    NumsAreInjective(a.args, b.args);
    ProbesAreInjective(a.probes, b.probes);
  }

  lemma ProbesAreInjective(a: seq<Probe>, b: seq<Probe>)
    requires ProbeItems(a) == ProbeItems(b)
    ensures a == b
  {
    hide ProbeFields;
    assert |ProbeItems(a)| == |a| && |ProbeItems(b)| == |b|;
    forall i | 0 <= i < |a| ensures a[i] == b[i] {
      assert ProbeItems(a)[i] == ProbeItems(b)[i];
      ProbeFieldsAreInjective(a[i], b[i]);
    }
  }

  // ---------------------------------------------------------------- events seen on several streams

  /**
   * The events found so far, and those of a stream that are not among them. Two are the same if they
   * are loaded as the same value, whatever the order of their entries.
   */
  function Merge(found: seq<PyValue>, events: seq<PyValue>): seq<PyValue>
    decreases events
  {
    if events == [] then found
    else Merge(if events[0] in found then found else found + [events[0]], events[1..])
  }

  function MergeAll(found: seq<PyValue>, streams: seq<seq<PyValue>>): seq<PyValue>
    decreases streams
  {
    if streams == [] then found else MergeAll(Merge(found, streams[0]), streams[1..])
  }

  /** The events of several texts; a frame that cannot be parsed stops everything. */
  function MergeTexts(found: seq<PyValue>, texts: seq<string>): Result<seq<PyValue>>
    decreases texts
  {
    if texts == [] then Ok(found) else
    match ExtractFrom(SplitLines(texts[0]), [])
    case Err(message) => Err(message)
    case Ok(events) => MergeTexts(Merge(found, Loaded(events)), texts[1..])
  }

  /** The events in the event file, one JSON value per line that is not blank. */
  function ParseFrom(lines: seq<string>, found: seq<PyValue>): Result<seq<PyValue>> {
    if lines == [] then Ok(found) else
    var line := Strip(lines[0], IsSpace);
    if line == "" then ParseFrom(lines[1..], found) else
    match Loads(line)
    case None => Err("JSONDecodeError")
    case Some(event) => ParseFrom(lines[1..], found + [PyOf(event)])
  }

  /** What is taken from the event file: nothing if there is none, or if some line of it cannot be parsed. */
  function FileEvents(file: Option<string>): seq<PyValue> {
    if file.None? then [] else
    match ParseFrom(SplitLines(file.value), []) case Err(_) => [] case Ok(events) => events
  }

  function Persisted(file: Option<string>, viaStdout: bool, texts: seq<string>): Result<seq<PyValue>> {
    if FileEvents(file) != [] then Ok(FileEvents(file))
    else if !viaStdout then Ok([])
    else MergeTexts([], texts)
  }

  method ParseEvents(file: Option<string>) returns (r: Result<seq<PyValue>>)
    ensures r == if file.None? then Ok([]) else ParseFrom(SplitLines(file.value), [])
  {
    hide Loads, Strip;
    if file.None? { return Ok([]); }
    var lines := SplitLines(file.value);
    var events: seq<PyValue> := [];
    for i := 0 to |lines|
      invariant ParseFrom(lines, []) == ParseFrom(lines[i..], events)
    {
      assert lines[i..][0] == lines[i] && lines[i..][1..] == lines[i+1..];
      var line := Strip(lines[i], IsSpace);
      if line == "" { continue; }
      var event := Loads(line);
      if event.None? { return Err("JSONDecodeError"); }
      events := events + [PyOf(event.value)];
    }
    return Ok(events);
  }

  /**
   * The event file first; else the same event can stand on stdout and on the console, and is kept once.
   * What was found is saved as the event file if there was none.
   */
  method PersistedTraceEvents(file: Option<string>, viaStdout: bool, texts: seq<string>)
    returns (r: Result<seq<PyValue>>, saved: Option<seq<PyValue>>)
    ensures r == Persisted(file, viaStdout, texts)
    ensures saved == if file.None? && viaStdout && r.Ok? && r.value != [] then Some(r.value) else None
  {
    hide ExtractFrom, SplitLines, ParseFrom;
    var parsed := ParseEvents(file);
    var fileEvents := if parsed.Ok? then parsed.value else [];
    if fileEvents != [] { return Ok(fileEvents), None; }
    if !viaStdout { return Ok([]), None; }
    var extracted: seq<PyValue> := [];
    for i := 0 to |texts|
      invariant MergeTexts([], texts) == MergeTexts(extracted, texts[i..])
    {
      assert texts[i..][0] == texts[i] && texts[i..][1..] == texts[i+1..];
      var events := ExtractFramedEvents(texts[i]);
      if events.Err? { return Err(events.message), None; }
      extracted := MergeInto(extracted, Loaded(events.value));
    }
    return Ok(extracted), if extracted != [] && file.None? then Some(extracted) else None;
  }

  /** The inner loop: an event that was seen is passed over. */
  method MergeInto(found: seq<PyValue>, events: seq<PyValue>) returns (extracted: seq<PyValue>)
    ensures extracted == Merge(found, events)
  {
    extracted := found;
    for k := 0 to |events|
      invariant Merge(found, events) == Merge(extracted, events[k..])
    {
      assert events[k..][0] == events[k] && events[k..][1..] == events[k+1..];
      if events[k] !in extracted { extracted := extracted + [events[k]]; }
    }
  }

  /**
   * With the event file usable, or without the stdout transport, nothing is raised. Else an error is
   * raised exactly if a frame of some stream cannot be parsed, and otherwise the streams are merged.
   */
  lemma PersistedMeans(file: Option<string>, viaStdout: bool, texts: seq<string>)
    ensures FileEvents(file) != [] ==> Persisted(file, viaStdout, texts) == Ok(FileEvents(file))
    ensures FileEvents(file) == [] && !viaStdout ==> Persisted(file, viaStdout, texts) == Ok([])
    ensures FileEvents(file) == [] && viaStdout ==> (
      Persisted(file, viaStdout, texts).Err? <==> exists i :: 0 <= i < |texts| && StreamOf(texts[i]).Err?)
    ensures FileEvents(file) == [] && viaStdout && (forall i :: 0 <= i < |texts| ==> StreamOf(texts[i]).Ok?) ==>
      Persisted(file, viaStdout, texts) == Ok(MergeAll([], Streams(texts)))
  {
    MergeTextsMeans([], texts);
  }

  function StreamOf(text: string): Result<seq<Json>> { ExtractFrom(SplitLines(text), []) }

  function Streams(texts: seq<string>): seq<seq<PyValue>> {
    seq(|texts|, i requires 0 <= i < |texts| => if StreamOf(texts[i]).Ok? then Loaded(StreamOf(texts[i]).value) else [])
  }

  lemma {:induction false} MergeTextsMeans(found: seq<PyValue>, texts: seq<string>)
    ensures MergeTexts(found, texts).Err? <==> exists i :: 0 <= i < |texts| && StreamOf(texts[i]).Err?
    ensures (forall i :: 0 <= i < |texts| ==> StreamOf(texts[i]).Ok?) ==>
      MergeTexts(found, texts) == Ok(MergeAll(found, Streams(texts)))
    decreases texts
  {
    hide ExtractFrom, SplitLines;
    if texts != [] && StreamOf(texts[0]).Ok? {
      var rest := texts[1..];
      MergeTextsMeans(Merge(found, Loaded(StreamOf(texts[0]).value)), rest);
      assert forall i :: 0 <= i < |rest| ==> texts[i+1] == rest[i];
      assert Streams(texts)[1..] == Streams(rest);
    }
  }

  predicate Distinct(events: seq<PyValue>) {
    forall i, j :: 0 <= i < j < |events| ==> events[i] != events[j]
  }

  /** Nothing is lost, invented or kept twice, and what was found stays in front. */
  lemma {:induction false} MergeMeans(found: seq<PyValue>, events: seq<PyValue>)
    requires Distinct(found)
    ensures Distinct(Merge(found, events)) && found <= Merge(found, events)
    ensures forall e :: e in Merge(found, events) <==> e in found || e in events
    decreases events
  {
    if events != [] {
      MergeMeans(if events[0] in found then found else found + [events[0]], events[1..]);
      assert events == [events[0]] + events[1..];
    }
  }

  /** Where an event stands for the first time. */
  function FirstAt(events: seq<PyValue>, e: PyValue): (i: nat)
    requires e in events
    ensures i < |events| && events[i] == e
  {
    if events[0] == e then 0 else 1 + FirstAt(events[1..], e)
  }

  lemma BeyondIsNew(m: seq<PyValue>, front: seq<PyValue>, i: nat)
    requires Distinct(m) && front <= m && |front| <= i < |m|
    ensures m[i] !in front
  {
    assert forall k :: 0 <= k < |front| ==> m[k] == front[k] && m[k] != m[i];
  }

  /** The new events stand in the order in which the stream first shows them. */
  lemma {:induction false} MergeKeepsOrder(found: seq<PyValue>, events: seq<PyValue>, i: nat, j: nat)
    requires Distinct(found) && |found| <= i < j < |Merge(found, events)|
    ensures var m := Merge(found, events);
      m[i] in events && m[j] in events && FirstAt(events, m[i]) < FirstAt(events, m[j])
    decreases events
  {
    var m := Merge(found, events);
    var grown := if events[0] in found then found else found + [events[0]];
    MergeMeans(found, events);
    MergeMeans(grown, events[1..]);
    assert m == Merge(grown, events[1..]);
    BeyondIsNew(m, found, i);
    BeyondIsNew(m, found, j);
    if i >= |grown| {
      MergeKeepsOrder(grown, events[1..], i, j);
      BeyondIsNew(m, grown, i);
      BeyondIsNew(m, grown, j);
    }
  }

  lemma {:induction false} MergeOfNew(found: seq<PyValue>, events: seq<PyValue>)
    requires Distinct(found + events)
    ensures Merge(found, events) == found + events
    decreases events
  {
    if events == [] {
      assert found + [] == found;
    } else {
      assert (found + events)[|found|] == events[0];
      assert found + events == (found + [events[0]]) + events[1..];
      assert forall i :: 0 <= i < |found| ==> (found + events)[i] == found[i] != events[0];
      MergeOfNew(found + [events[0]], events[1..]);
    }
  }

  lemma {:induction false} MergeOfOld(found: seq<PyValue>, events: seq<PyValue>)
    requires forall e :: e in events ==> e in found
    ensures Merge(found, events) == found
  {
    if events != [] { MergeOfOld(found, events[1..]); }
  }

  /** Distinct events that are on stdout, and once more on the console, are collected once each, in order. */
  lemma RepeatedStreamAddsNothing(events: seq<PyValue>)
    requires Distinct(events)
    ensures MergeAll([], [events, [], events]) == events
  {
    var streams := [events, [], events];
    assert [] + events == events;
    MergeOfNew([], events);
    MergeOfOld(events, events);
    assert streams[1..][1..] == [events] && streams[1..] == [[], events];
    assert MergeAll(events, [events]) == MergeAll(Merge(events, events), [events][1..]);
  }
}
