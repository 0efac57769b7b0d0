/**
 * One trace event on its way from the tracer to its file or to the console (agent/linux/trace.c,
 * hex_preview, emit_event and emit_trace_line).
 */
module TraceEvent {
  import opened Prelude
  import opened Json
  import opened ProbeBytes
  import opened Sha256Spec
  import opened TraceLine

  /** What is printed about an output: what is shown of it, and its digest. */
  datatype Probe = Probe(tag: string, argIndex: int, length: nat, preview: string, digest: string, fds: Option<seq<int>>)

  datatype Record<+P> = Record(
    callIndex: int, side: string, syscallName: string, syscallNumber: int, args: seq<int>,
    returnValue: int, errno: int, startNs: nat, endNs: nat, probes: seq<P>)

  /** A traced call with the memory its outputs are in, and the event that is printed about it. */
  type Call = Record<Output>
  type Event = Record<Probe>

  function ProbeOf(o: Output, s: Setting): Probe
    requires OutputFits(o)
  {
    Probe(o.tag, o.argIndex, |o.bytes|, PreviewText(o, s), DigestText(o, s), o.fds)
  }

  function ProbesOf(outputs: seq<Output>, s: Setting): seq<Probe>
    requires forall i :: 0 <= i < |outputs| ==> OutputFits(outputs[i])
  {
    seq(|outputs|, i requires 0 <= i < |outputs| => ProbeOf(outputs[i], s))
  }

  /** What is printed about a call. */
  function Printed(c: Call, s: Setting): Event
    requires CallFits(c)
  {
    Record(c.callIndex, c.side, c.syscallName, c.syscallNumber, c.args, c.returnValue, c.errno, c.startNs, c.endNs,
           ProbesOf(c.probes, s))
  }

  predicate Long(n: int) { -0x8000_0000_0000_0000 <= n < 0x8000_0000_0000_0000 }

  predicate ULong(n: nat) { n < 0x1_0000_0000_0000_0000 }

  predicate Longs(ns: seq<int>) { forall i :: 0 <= i < |ns| ==> Long(ns[i]) }

  /** The fields have the widths of their C types. */
  predicate ProbeFits(p: Probe) {
    Long(p.argIndex) && ULong(p.length) && (p.fds.Some? ==> Longs(p.fds.value))
  }

  predicate HeadFits<P>(e: Record<P>) {
    && Long(e.callIndex) && Long(e.syscallNumber) && |e.args| == 6 && Longs(e.args)
    && Long(e.returnValue) && Long(e.errno) && ULong(e.startNs) && ULong(e.endNs)
  }

  predicate EventFits(e: Event) { HeadFits(e) && forall i :: 0 <= i < |e.probes| ==> ProbeFits(e.probes[i]) }

  predicate OutputFits(o: Output) {
    Long(o.argIndex) && Hashable(o.bytes) && (o.fds.Some? ==> Longs(o.fds.value))
  }

  predicate CallFits(c: Call) { HeadFits(c) && forall i :: 0 <= i < |c.probes| ==> OutputFits(c.probes[i]) }

  // ---------------------------------------------------------------- what an event says, as JSON

  function Nums(ns: seq<int>): seq<Json> { seq(|ns|, i requires 0 <= i < |ns| => Num(ns[i])) }

  function ProbeBase(p: Probe): seq<Field> {
    [Field("label", Str(p.tag))] + [Field("arg_index", Num(p.argIndex))] + [Field("length", Num(p.length))]
      + [Field("preview_hex", Str(p.preview))] + [Field("sha256", Str(p.digest))]
  }

  function ProbeFields(p: Probe): seq<Field> {
    if p.fds.None? then ProbeBase(p)
    else ProbeBase(p) + [Field("resource_kind", Str("fd"))] + [Field("resource_values", Arr(Nums(p.fds.value)))]
  }

  function ProbeItems(ps: seq<Probe>): seq<Json> { seq(|ps|, i requires 0 <= i < |ps| => Obj(ProbeFields(ps[i]))) }

  function CallFields<P>(e: Record<P>): seq<Field> {
    [Field("event_index", Num(e.callIndex))] + [Field("side", Str(e.side))] + [Field("syscall_name", Str(e.syscallName))]
      + [Field("syscall_number", Num(e.syscallNumber))] + [Field("args", Arr(Nums(e.args)))]
  }

  function ResultFields<P>(e: Record<P>): seq<Field> {
    CallFields(e) + [Field("return_value", Num(e.returnValue))] + [Field("errno", Num(e.errno))]
      + [Field("start_ns", Num(e.startNs))] + [Field("end_ns", Num(e.endNs))] + [Field("timed_out", Bool(false))]
  }

  function EventJson(e: Event): Json {
    Obj(ResultFields(e) + [Field("outputs", Arr(ProbeItems(e.probes)))])
  }

  // ---------------------------------------------------------------- how it is written

  /** An object that is being written: its members so far, without the closing bracket. */
  function OpenObject(fields: seq<Field>): string { if fields == [] then "" else "{" + RenderFields(fields) }

  /** A string that is printed as it is. */
  predicate Plain(s: string) { forall i :: 0 <= i < |s| ==> s[i] >= ' ' && s[i] != '"' && s[i] != '\\' }

  /** What stands before a member's value: brace or comma, name and colon. */
  function Key(name: string, first: bool): string { (if first then "{\"" else ",\"") + name + "\":" }

  lemma {:induction false} PlainEscape(s: string)
    requires Plain(s)
    ensures Escape(s) == s
  {
    if s != "" {
      PlainEscape(s[1..]);
      assert EscapeChar(s[0]) == [s[0]];
    }
  }

  lemma {:induction false} FieldsGrow(fields: seq<Field>, f: Field)
    ensures RenderFields(fields + [f]) == RenderFields(fields) + (if fields == [] then "" else ",") + RenderField(f)
  {
    hide RenderField;
    if fields != [] {
      var all := fields + [f];
      assert all[1..] == fields[1..] + [f];
      FieldsGrow(fields[1..], f);
    }
  }

  lemma {:induction false} ItemsGrow(items: seq<Json>, j: Json)
    ensures RenderItems(items + [j]) == RenderItems(items) + (if items == [] then "" else ",") + Render(j)
  {
    hide Render;
    if items != [] {
      var all := items + [j];
      assert all[1..] == items[1..] + [j];
      ItemsGrow(items[1..], j);
    }
  }

  lemma MemberAdded(fields: seq<Field>, name: string, value: Json)
    requires Plain(name)
    ensures OpenObject(fields + [Field(name, value)]) == OpenObject(fields) + Key(name, fields == []) + Render(value)
  {
    hide Render, Escape, Plain, RenderFields;
    FieldText(name, value);
    FieldsGrow(fields, Field(name, value));
    if fields == [] {
      NoFields();
      FirstMember(name, Render(value));
    } else {
      NextMember(RenderFields(fields), name, Render(value));
    }
  }

  lemma NoFields()
    ensures RenderFields([]) == ""
  {
  }

  lemma FieldText(name: string, value: Json)
    requires Plain(name)
    ensures RenderField(Field(name, value)) == "\"" + name + "\":" + Render(value)
  {
    hide Render, Plain, Escape;
    PlainEscape(name);
    assert "\"" + name + "\"" + ":" == "\"" + name + "\":";
  }

  lemma FirstMember(name: string, v: string)
    ensures "{" + ("" + "" + ("\"" + name + "\":" + v)) == "" + Key(name, true) + v
  {
  }

  lemma NextMember(before: string, name: string, v: string)
    ensures "{" + (before + "," + ("\"" + name + "\":" + v)) == "{" + before + Key(name, false) + v
  {
  }

  /** One member of an object: the text so far is `start` and the open object with the given fields. */
  method IntMember(line: Line, name: string, v: int, first: bool, ghost start: string, ghost fields: seq<Field>)
    requires line.Valid() && Plain(name) && Long(v) && first == (fields == []) && line.text == start + OpenObject(fields)
    modifies line, line.buf
    ensures line.Valid() && line.text == start + OpenObject(fields + [Field(name, Num(v))])
  {
    hide OpenObject, Key, Decimal, SignedDecimal;
    MemberAdded(fields, name, Num(v));
    line.AppendRaw(Key(name, first));
    line.AppendI64(v);
    Regroup(start, OpenObject(fields), Key(name, first), Render(Num(v)));
  }

  method UIntMember(line: Line, name: string, v: nat, first: bool, ghost start: string, ghost fields: seq<Field>)
    requires line.Valid() && Plain(name) && ULong(v) && first == (fields == []) && line.text == start + OpenObject(fields)
    modifies line, line.buf
    ensures line.Valid() && line.text == start + OpenObject(fields + [Field(name, Num(v))])
  {
    hide OpenObject, Key, Decimal;
    MemberAdded(fields, name, Num(v));
    line.AppendRaw(Key(name, first));
    line.AppendU64(v);
    Regroup(start, OpenObject(fields), Key(name, first), Render(Num(v)));
  }

  method StrMember(line: Line, name: string, v: string, first: bool, ghost start: string, ghost fields: seq<Field>)
    requires line.Valid() && Plain(name) && first == (fields == []) && line.text == start + OpenObject(fields)
    modifies line, line.buf
    ensures line.Valid() && line.text == start + OpenObject(fields + [Field(name, Str(v))])
  {
    hide OpenObject, Key, Quoted;
    MemberAdded(fields, name, Str(v));
    line.AppendRaw(Key(name, first));
    line.AppendJsonString(Some(v));
    Regroup(start, OpenObject(fields), Key(name, first), Render(Str(v)));
  }

  lemma Regroup(a: string, b: string, c: string, d: string)
    ensures a + b + c + d == a + (b + c + d)
  {
  }

  /** An array member; the numbers between the brackets are separated by commas. */
  method NumbersMember(line: Line, name: string, ns: seq<int>, ghost start: string, ghost fields: seq<Field>)
    requires line.Valid() && Plain(name) && Longs(ns) && fields != [] && line.text == start + OpenObject(fields)
    modifies line, line.buf
    ensures line.Valid() && line.text == start + OpenObject(fields + [Field(name, Arr(Nums(ns)))])
  {
    hide OpenObject, Key, Decimal;
    MemberAdded(fields, name, Arr(Nums(ns)));
    line.AppendRaw(Key(name, false) + "[");
    WriteNumbers(line, ns);
    line.AppendChar(']');
    ArrayText(start + OpenObject(fields), Key(name, false), RenderItems(Nums(ns)));
    Regroup(start, OpenObject(fields), Key(name, false), Render(Arr(Nums(ns))));
  }

  lemma ArrayText(a: string, key: string, items: string)
    ensures a + (key + "[") + items + "]" == a + key + ("[" + items + "]")
  {
  }

  method WriteNumbers(line: Line, ns: seq<int>)
    requires line.Valid() && Longs(ns)
    modifies line, line.buf
    ensures line.Valid() && line.text == old(line.text) + RenderItems(Nums(ns))
  {
    hide Decimal, SignedDecimal, RenderItems;
    NoItems(line.text);
    for i := 0 to |ns|
      invariant line.Valid() && line.text == old(line.text) + RenderItems(Nums(ns[..i]))
    {
      ghost var before := line.text;
      if i != 0 { line.AppendChar(','); }
      line.AppendI64(ns[i]);
      assert Nums(ns[..i+1]) == Nums(ns[..i]) + [Num(ns[i])];
      ItemAdded(Nums(ns[..i]), Num(ns[i]), old(line.text));
    }
    assert ns[..|ns|] == ns;
  }

  lemma NoItems(text: string)
    ensures text == text + RenderItems([]) && Nums([]) == [] && ProbeItems([]) == []
  {
  }

  lemma ItemAdded(items: seq<Json>, j: Json, start: string)
    ensures start + RenderItems(items + [j]) ==
      (if items == [] then start + RenderItems(items) else start + RenderItems(items) + [',']) + Render(j)
  {
    ItemsGrow(items, j);
    AddItem(start, RenderItems(items), Render(j));
    if items == [] {
      assert RenderItems(items) + "" == RenderItems(items);
    }
  }

  lemma AddItem(start: string, items: string, item: string)
    ensures start + (items + "" + item) == start + items + item
    ensures start + (items + "," + item) == start + items + [','] + item
  {
  }

  lemma PlainProbeNames()
    ensures Plain("label") && Plain("arg_index") && Plain("length") && Plain("preview_hex") && Plain("sha256")
  {
  }

  lemma PlainResourceNames()
    ensures Plain("resource_kind") && Plain("resource_values")
  {
  }

  lemma PlainCallNames()
    ensures Plain("event_index") && Plain("side") && Plain("syscall_name") && Plain("syscall_number") && Plain("args")
  {
  }

  lemma PlainResultNames()
    ensures Plain("return_value") && Plain("errno") && Plain("start_ns") && Plain("end_ns")
  {
  }

  lemma PlainLastNames()
    ensures Plain("timed_out") && Plain("outputs")
  {
  }

  method WriteProbe(line: Line, p: Probe)
    requires line.Valid() && ProbeFits(p)
    modifies line, line.buf
    ensures line.Valid() && line.text == old(line.text) + Render(Obj(ProbeFields(p)))
  {
    hide OpenObject, Plain, RenderFields;
    PlainProbeNames();
    PlainResourceNames();
    ghost var start := line.text;
    ghost var f1 := [Field("label", Str(p.tag))];
    ghost var f2 := f1 + [Field("arg_index", Num(p.argIndex))];
    ghost var f3 := f2 + [Field("length", Num(p.length))];
    ghost var f4 := f3 + [Field("preview_hex", Str(p.preview))];
    NothingOpen(start);
    StrMember(line, "label", p.tag, true, start, []);
    IntMember(line, "arg_index", p.argIndex, false, start, f1);
    UIntMember(line, "length", p.length, false, start, f2);
    StrMember(line, "preview_hex", p.preview, false, start, f3);
    StrMember(line, "sha256", p.digest, false, start, f4);
    if p.fds.Some? {
      StrMember(line, "resource_kind", "fd", false, start, ProbeBase(p));
      NumbersMember(line, "resource_values", p.fds.value, start, ProbeBase(p) + [Field("resource_kind", Str("fd"))]);
    }
    line.AppendChar('}');
    ObjectCloses(start, ProbeFields(p));
  }

  lemma NothingOpen(start: string)
    ensures start == start + OpenObject([])
    ensures forall f: Field :: [] + [f] == [f]
  {
  }

  lemma ObjectCloses(start: string, fields: seq<Field>)
    requires fields != []
    ensures start + OpenObject(fields) + ['}'] == start + Render(Obj(fields))
  {
    assert Render(Obj(fields)) == OpenObject(fields) + "}";
  }

  method WriteCall<P>(line: Line, e: Record<P>)
    requires line.Valid() && HeadFits(e)
    modifies line, line.buf
    ensures line.Valid() && line.text == old(line.text) + OpenObject(CallFields(e))
  {
    hide OpenObject, Plain, RenderFields;
    PlainCallNames();
    ghost var start := line.text;
    ghost var f1 := [Field("event_index", Num(e.callIndex))];
    ghost var f2 := f1 + [Field("side", Str(e.side))];
    ghost var f3 := f2 + [Field("syscall_name", Str(e.syscallName))];
    ghost var f4 := f3 + [Field("syscall_number", Num(e.syscallNumber))];
    NothingOpen(start);
    IntMember(line, "event_index", e.callIndex, true, start, []);
    StrMember(line, "side", e.side, false, start, f1);
    StrMember(line, "syscall_name", e.syscallName, false, start, f2);
    IntMember(line, "syscall_number", e.syscallNumber, false, start, f3);
    NumbersMember(line, "args", e.args, start, f4);
  }

  method WriteResult<P>(line: Line, e: Record<P>, ghost start: string)
    requires line.Valid() && HeadFits(e) && line.text == start + OpenObject(CallFields(e))
    modifies line, line.buf
    ensures line.Valid() && line.text == start + OpenObject(ResultFields(e))
  {
    hide OpenObject, Plain, RenderFields;
    PlainResultNames();
    PlainLastNames();
    ghost var f1 := CallFields(e) + [Field("return_value", Num(e.returnValue))];
    ghost var f2 := f1 + [Field("errno", Num(e.errno))];
    ghost var f3 := f2 + [Field("start_ns", Num(e.startNs))];
    ghost var f4 := f3 + [Field("end_ns", Num(e.endNs))];
    IntMember(line, "return_value", e.returnValue, false, start, CallFields(e));
    IntMember(line, "errno", e.errno, false, start, f1);
    UIntMember(line, "start_ns", e.startNs, false, start, f2);
    UIntMember(line, "end_ns", e.endNs, false, start, f3);
    line.AppendRaw(Key("timed_out", false) + "false");
    MemberAdded(f4, "timed_out", Bool(false));
    FalseText(start + OpenObject(f4), Key("timed_out", false));
    Regroup(start, OpenObject(f4), Key("timed_out", false), Render(Bool(false)));
  }

  lemma FalseText(a: string, key: string)
    ensures a + (key + "false") == a + key + Render(Bool(false))
  {
  }

  method WriteOutputs(line: Line, c: Call, s: Setting, ghost start: string)
    requires line.Valid() && CallFits(c) && line.text == start + OpenObject(ResultFields(c))
    modifies line, line.buf
    ensures line.Valid()
    ensures line.text == start + OpenObject(ResultFields(c) + [Field("outputs", Arr(ProbeItems(ProbesOf(c.probes, s))))])
  {
    hide OpenObject, Plain, RenderFields, RenderItems, ProbeFields, Key, ProbesOf;
    ghost var items := ProbeItems(ProbesOf(c.probes, s));
    PlainLastNames();
    MemberAdded(ResultFields(c), "outputs", Arr(items));
    line.AppendRaw(Key("outputs", false) + "[");
    WriteProbes(line, c.probes, s);
    line.AppendChar(']');
    ArrayText(start + OpenObject(ResultFields(c)), Key("outputs", false), RenderItems(items));
    Regroup(start, OpenObject(ResultFields(c)), Key("outputs", false), Render(Arr(items)));
  }

  method WriteOutput(line: Line, o: Output, s: Setting)
    requires line.Valid() && OutputFits(o)
    modifies line, line.buf
    ensures line.Valid() && line.text == old(line.text) + Render(Obj(ProbeFields(ProbeOf(o, s))))
  {
    hide ProbeFields, PreviewText, DigestText, Render;
    var preview, digest := ProbePreviewAndDigest(o, s);
    WriteProbe(line, Probe(o.tag, o.argIndex, |o.bytes|, preview, digest, o.fds));
  }

  method WriteProbes(line: Line, outputs: seq<Output>, s: Setting)
    requires line.Valid() && forall i :: 0 <= i < |outputs| ==> OutputFits(outputs[i])
    modifies line, line.buf
    ensures line.Valid() && line.text == old(line.text) + RenderItems(ProbeItems(ProbesOf(outputs, s)))
  {
    hide RenderItems, ProbeFields, ProbeItems, ProbeOf, OutputFits, Render;
    NoItems(line.text);
    assert ProbesOf(outputs[..0], s) == [];
    for i := 0 to |outputs|
      invariant line.Valid() && line.text == old(line.text) + RenderItems(ProbeItems(ProbesOf(outputs[..i], s)))
    {
      if i != 0 { line.AppendChar(','); }
      WriteOutput(line, outputs[i], s);
      assert ProbesOf(outputs[..i+1], s) == ProbesOf(outputs[..i], s) + [ProbeOf(outputs[i], s)];
      ProbeAdded(ProbesOf(outputs[..i], s), ProbeOf(outputs[i], s), old(line.text));
    }
    assert outputs[..|outputs|] == outputs;
  }

  lemma ProbeAdded(ps: seq<Probe>, p: Probe, start: string)
    ensures start + RenderItems(ProbeItems(ps + [p])) ==
      (if ps == [] then start + RenderItems(ProbeItems(ps)) else start + RenderItems(ProbeItems(ps)) + [','])
      + Render(Obj(ProbeFields(p)))
  {
    hide ProbeFields, RenderItems, Render;
    assert ProbeItems(ps + [p]) == ProbeItems(ps) + [Obj(ProbeFields(p))];
    ItemAdded(ProbeItems(ps), Obj(ProbeFields(p)), start);
  }

  const LINE_SIZE: nat := 32768

  /** The line that an event asks for. */
  function EventLine(e: Event): string { Render(EventJson(e)) + "\n" }

  /** What the tracer hands on is the line of the call's event as far as it fits into the buffer. */
  method EmitEvent(c: Call, s: Setting) returns (shown: string)
    requires CallFits(c)
    ensures shown == EventLine(Printed(c, s))[..Min(|EventLine(Printed(c, s))|, 32767)]
  {
    hide OpenObject, RenderFields, ResultFields, CallFields, ProbesOf, ProbeItems;
    var line := new Line(LINE_SIZE);
    ghost var fields := ResultFields(c) + [Field("outputs", Arr(ProbeItems(ProbesOf(c.probes, s))))];
    StartsEmpty(OpenObject(CallFields(c)));
    WriteCall(line, c);
    WriteResult(line, c, "");
    WriteOutputs(line, c, s, "");
    line.AppendRaw("}\n");
    LineCloses(fields);
    SameHead(c, s);
    shown := line.buf[..line.used];
  }

  lemma SameHead(c: Call, s: Setting)
    requires CallFits(c)
    ensures ResultFields(Printed(c, s)) == ResultFields(c)
  {
    hide ProbesOf;
  }

  lemma StartsEmpty(s: string)
    ensures "" + s == s
  {
  }

  lemma LineCloses(fields: seq<Field>)
    requires fields != []
    ensures "" + OpenObject(fields) + "}\n" == Render(Obj(fields)) + "\n"
  {
    assert Render(Obj(fields)) == OpenObject(fields) + "}";
  }

  // ---------------------------------------------------------------- the line is never cut

  lemma {:induction false} EscapeLength(s: string)
    ensures |Escape(s)| <= 2 * |s|
  {
    if s != "" { EscapeLength(s[1..]); }
  }

  lemma LongLength(n: int)
    requires Long(n) || (0 <= n && ULong(n))
    ensures |SignedDecimal(n)| <= 20
  {
    if n < 0 {
      assert PowerOfTen(5) == 100000;
      assert PowerOfTen(10) == 100000 * PowerOfTen(5);
      assert PowerOfTen(15) == 100000 * PowerOfTen(10);
      assert PowerOfTen(19) == 10000 * PowerOfTen(15);
      DecimalLength(-n, 19);
    } else {
      U64Length(n);
    }
  }

  lemma {:induction false} NumsLength(ns: seq<int>)
    requires Longs(ns)
    ensures |RenderItems(Nums(ns))| <= 21 * |ns|
  {
    if ns != [] {
      LongLength(ns[0]);
      NumsLength(ns[1..]);
      assert Nums(ns)[1..] == Nums(ns[1..]);
    }
  }

  /** A member adds its name, four more characters and its value. */
  lemma MemberLength(fields: seq<Field>, name: string, value: Json, n: nat)
    requires Plain(name) && |Render(value)| <= n
    ensures |OpenObject(fields + [Field(name, value)])| <= |OpenObject(fields)| + |name| + 4 + n
  {
    hide OpenObject, Render, Plain;
    MemberAdded(fields, name, value);
  }

  lemma IntLength(fields: seq<Field>, name: string, v: int)
    requires Plain(name) && (Long(v) || (0 <= v && ULong(v)))
    ensures |OpenObject(fields + [Field(name, Num(v))])| <= |OpenObject(fields)| + |name| + 24
  {
    hide OpenObject, Plain;
    LongLength(v);
    MemberLength(fields, name, Num(v), 20);
  }

  lemma TextLength(fields: seq<Field>, name: string, v: string)
    requires Plain(name)
    ensures |OpenObject(fields + [Field(name, Str(v))])| <= |OpenObject(fields)| + |name| + 6 + 2 * |v|
    ensures Plain(v) ==> |OpenObject(fields + [Field(name, Str(v))])| <= |OpenObject(fields)| + |name| + 6 + |v|
  {
    hide OpenObject, Plain;
    EscapeLength(v);
    MemberLength(fields, name, Str(v), 2 + 2 * |v|);
    if Plain(v) {
      PlainEscape(v);
      MemberLength(fields, name, Str(v), 2 + |v|);
    }
  }

  lemma NumbersLength(fields: seq<Field>, name: string, ns: seq<int>)
    requires Plain(name) && Longs(ns)
    ensures |OpenObject(fields + [Field(name, Arr(Nums(ns)))])| <= |OpenObject(fields)| + |name| + 6 + 21 * |ns|
  {
    hide OpenObject, Plain, RenderItems;
    NumsLength(ns);
    MemberLength(fields, name, Arr(Nums(ns)), 2 + 21 * |ns|);
  }

  /** Names of at most 1000 characters, and probes as the tracer makes them: at most three, with hex texts. */
  predicate Usual(e: Event) {
    && |e.side| <= 1000 && |e.syscallName| <= 1000 && |e.probes| <= 3
    && forall i :: 0 <= i < |e.probes| ==> UsualProbe(e.probes[i])
  }

  predicate UsualProbe(p: Probe) {
    && |p.tag| <= 100 && |p.preview| <= 8190 && Plain(p.preview) && |p.digest| <= 64 && Plain(p.digest)
    && (p.fds.Some? ==> |p.fds.value| <= 2)
  }

  lemma CallLength(e: Event)
    requires EventFits(e) && Usual(e)
    ensures |OpenObject(CallFields(e))| <= 4237
  {
    hide OpenObject, Plain;
    PlainCallNames();
    var f1 := [Field("event_index", Num(e.callIndex))];
    var f2 := f1 + [Field("side", Str(e.side))];
    var f3 := f2 + [Field("syscall_name", Str(e.syscallName))];
    var f4 := f3 + [Field("syscall_number", Num(e.syscallNumber))];
    NothingOpen("");
    EmptyOpen();
    IntLength([], "event_index", e.callIndex);
    TextLength(f1, "side", e.side);
    TextLength(f2, "syscall_name", e.syscallName);
    IntLength(f3, "syscall_number", e.syscallNumber);
    NumbersLength(f4, "args", e.args);
  }

  lemma EmptyOpen()
    ensures |OpenObject([])| == 0
  {
  }

  lemma ResultLength(e: Event)
    requires EventFits(e) && Usual(e)
    ensures |OpenObject(ResultFields(e))| <= 4382
  {
    hide OpenObject, Plain;
    PlainResultNames();
    PlainLastNames();
    CallLength(e);
    var f1 := CallFields(e) + [Field("return_value", Num(e.returnValue))];
    var f2 := f1 + [Field("errno", Num(e.errno))];
    var f3 := f2 + [Field("start_ns", Num(e.startNs))];
    var f4 := f3 + [Field("end_ns", Num(e.endNs))];
    IntLength(CallFields(e), "return_value", e.returnValue);
    IntLength(f1, "errno", e.errno);
    IntLength(f2, "start_ns", e.startNs);
    IntLength(f3, "end_ns", e.endNs);
    MemberLength(f4, "timed_out", Bool(false), 5);
  }

  lemma ProbeLength(p: Probe)
    requires ProbeFits(p) && UsualProbe(p)
    ensures |Render(Obj(ProbeFields(p)))| <= 8644
  {
    hide OpenObject, Plain;
    PlainProbeNames();
    PlainResourceNames();
    var f1 := [Field("label", Str(p.tag))];
    var f2 := f1 + [Field("arg_index", Num(p.argIndex))];
    var f3 := f2 + [Field("length", Num(p.length))];
    var f4 := f3 + [Field("preview_hex", Str(p.preview))];
    NothingOpen("");
    EmptyOpen();
    TextLength([], "label", p.tag);
    IntLength(f1, "arg_index", p.argIndex);
    IntLength(f2, "length", p.length);
    TextLength(f3, "preview_hex", p.preview);
    TextLength(f4, "sha256", p.digest);
    if p.fds.Some? {
      TextLength(ProbeBase(p), "resource_kind", "fd");
      NumbersLength(ProbeBase(p) + [Field("resource_kind", Str("fd"))], "resource_values", p.fds.value);
    }
    ObjectCloses("", ProbeFields(p));
    assert |"" + OpenObject(ProbeFields(p)) + ['}']| == |OpenObject(ProbeFields(p))| + 1;
    assert |"" + Render(Obj(ProbeFields(p)))| == |Render(Obj(ProbeFields(p)))|;
  }

  lemma {:induction false} ProbesLength(ps: seq<Probe>)
    requires forall i :: 0 <= i < |ps| ==> ProbeFits(ps[i]) && UsualProbe(ps[i])
    ensures |RenderItems(ProbeItems(ps))| <= 8645 * |ps|
  {
    hide Render, ProbeFields, ProbeFits, UsualProbe;
    if ps != [] {
      ProbeLength(ps[0]);
      ProbesLength(ps[1..]);
      assert ProbeItems(ps)[1..] == ProbeItems(ps[1..]);
    }
  }

  /** For names of at most 1000 characters the line buffer is long enough, whatever the numbers are. */
  lemma LineFits(e: Event)
    requires EventFits(e) && Usual(e)
    ensures |EventLine(e)| < 32768
  {
    PlainLastNames();
    ResultLength(e);
    ProbesLength(e.probes);
    var outputs := Arr(ProbeItems(e.probes));
    var all := ResultFields(e) + [Field("outputs", outputs)];
    assert |Render(outputs)| <= 2 + 8645 * 3;
    MemberLength(ResultFields(e), "outputs", outputs, 2 + 8645 * 3);
    ObjectCloses("", all);
    assert |OpenObject(all)| <= 4382 + 11 + 25937;
    assert |"" + OpenObject(all) + ['}']| == |OpenObject(all)| + 1;
    assert |"" + Render(Obj(all))| == |Render(Obj(all))|;
    assert EventJson(e) == Obj(all);
  }
}
