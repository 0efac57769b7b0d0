/**
 * What the host finds in the event of a traced call: the dictionary that the printed text is loaded as
 * has the call's data under the names by which the analyzer looks for them (analyzer/normalize.py).
 */
module HostEvents {
  import opened Prelude
  import opened PyValues
  import opened Json
  import opened LoadedJson
  import opened ProbeBytes
  import opened Sha256Spec
  import opened TraceEvent
  import Canonical

  // ---------------------------------------------------------------- what the analyzer looks up

  predicate Has(v: PyValue, name: string, value: PyValue) { v.PyDict? && name in v.entries && v.entries[name] == value }

  predicate IsInts(v: PyValue, ns: seq<int>) {
    v.PyList? && |v.items| == |ns| && forall i :: 0 <= i < |ns| ==> v.items[i] == PyInt(ns[i])
  }

  predicate HasInts(v: PyValue, name: string, ns: seq<int>) {
    v.PyDict? && name in v.entries && IsInts(v.entries[name], ns)
  }

  /** An output as normalize_outputs reads it. */
  predicate OutputReadsAs(v: PyValue, o: Canonical.RawOutput) {
    && Has(v, "label", PyStr(o.tag)) && Has(v, "arg_index", PyInt(o.argIndex)) && Has(v, "length", PyInt(o.length))
    && Has(v, "preview_hex", PyStr(o.previewHex)) && Has(v, "sha256", PyStr(o.sha256))
    && (if o.fds.None? then "resource_kind" !in v.entries
        else Has(v, "resource_kind", PyStr("fd")) && HasInts(v, "resource_values", o.fds.value))
  }

  predicate OutputsReadAs(v: PyValue, os: seq<Canonical.RawOutput>) {
    v.PyList? && |v.items| == |os| && forall i :: 0 <= i < |os| ==> OutputReadsAs(v.items[i], os[i])
  }

  /** An event as normalize_event reads it. */
  predicate EventReadsAs(v: PyValue, e: Canonical.RawEvent) {
    && Has(v, "event_index", PyInt(e.eventIndex))
    && Has(v, "syscall_name", PyStr(e.name)) && Has(v, "syscall_number", PyInt(e.number)) && HasInts(v, "args", e.args)
    && Has(v, "return_value", PyInt(e.ret)) && Has(v, "errno", PyInt(e.errno))
    && Has(v, "start_ns", PyInt(e.startNs)) && Has(v, "end_ns", PyInt(e.endNs))
    && "outputs" in v.entries && OutputsReadAs(v.entries["outputs"], e.outputs)
  }

  // ---------------------------------------------------------------- what a call ought to be read as

  /** The output that the analyzer is to see: the first bytes and the hash in hexadecimal digits. */
  ghost predicate ShowsOutput(o: Output, s: Setting, r: Canonical.RawOutput)
    requires Hashable(o.bytes)
  {
    && r.tag == o.tag && r.argIndex == o.argIndex && r.length == |o.bytes| && r.fds == o.fds
    && IsHexOf(r.previewHex, Stable(o, s)[..Min(Min(|o.bytes|, s.previewBytes), 4095)])
    && IsHexOf(r.sha256, Sha256Of(Stable(o, s)))
  }

  /** The call's own data. */
  ghost predicate ShowsCall(c: Call, s: Setting, e: Canonical.RawEvent)
    requires CallFits(c)
  {
    && e.eventIndex == c.callIndex && e.name == c.syscallName && e.number == c.syscallNumber && e.args == c.args
    && e.ret == c.returnValue && e.errno == c.errno && e.startNs == c.startNs && e.endNs == c.endNs
    && |e.outputs| == |c.probes| && forall i :: 0 <= i < |c.probes| ==> ShowsOutput(c.probes[i], s, e.outputs[i])
  }

  // ---------------------------------------------------------------- dictionaries of the printed objects

  lemma EntryAdded(fields: seq<Field>, name: string, value: Json)
    ensures EntriesOf(fields + [Field(name, value)]) == EntriesOf(fields)[name := PyOf(value)]
  {
    hide EntriesOf, PyOf;
    EntriesAppend(fields, [Field(name, value)]);
    OneEntry(name, value);
  }

  lemma OneEntry(name: string, value: Json)
    ensures EntriesOf([Field(name, value)]) == map[name := PyOf(value)]
  {
    assert [Field(name, value)][1..] == [];
    assert EntriesOf([Field(name, value)]) == map[name := PyOf(value)] + map[];
  }

  function EventDict(e: Event): map<string, PyValue> {
    map["event_index" := PyInt(e.callIndex), "side" := PyStr(e.side), "syscall_name" := PyStr(e.syscallName),
      "syscall_number" := PyInt(e.syscallNumber), "args" := PyOf(Arr(Nums(e.args))),
      "return_value" := PyInt(e.returnValue), "errno" := PyInt(e.errno), "start_ns" := PyInt(e.startNs),
      "end_ns" := PyInt(e.endNs), "timed_out" := PyBool(false), "outputs" := PyOf(Arr(ProbeItems(e.probes)))]
  }

  lemma Scalars()
    ensures forall n :: PyOf(Num(n)) == PyInt(n)
    ensures forall s :: PyOf(Str(s)) == PyStr(s)
    ensures PyOf(Bool(false)) == PyBool(false)
  {
  }

  lemma EventDictIs(e: Event)
    ensures PyOf(EventJson(e)) == PyDict(EventDict(e))
  {
    hide EntriesOf, PyOf, Nums, ProbeItems;
    Scalars();
    var f0: seq<Field> := [Field("event_index", Num(e.callIndex))];
    var f1 := f0 + [Field("side", Str(e.side))];
    var f2 := f1 + [Field("syscall_name", Str(e.syscallName))];
    var f3 := f2 + [Field("syscall_number", Num(e.syscallNumber))];
    var f4 := f3 + [Field("args", Arr(Nums(e.args)))];
    var f5 := f4 + [Field("return_value", Num(e.returnValue))];
    var f6 := f5 + [Field("errno", Num(e.errno))];
    var f7 := f6 + [Field("start_ns", Num(e.startNs))];
    var f8 := f7 + [Field("end_ns", Num(e.endNs))];
    var f9 := f8 + [Field("timed_out", Bool(false))];
    OneEntry("event_index", Num(e.callIndex));
    EntryAdded(f0, "side", Str(e.side));
    EntryAdded(f1, "syscall_name", Str(e.syscallName));
    EntryAdded(f2, "syscall_number", Num(e.syscallNumber));
    EntryAdded(f3, "args", Arr(Nums(e.args)));
    EntryAdded(f4, "return_value", Num(e.returnValue));
    EntryAdded(f5, "errno", Num(e.errno));
    EntryAdded(f6, "start_ns", Num(e.startNs));
    EntryAdded(f7, "end_ns", Num(e.endNs));
    EntryAdded(f8, "timed_out", Bool(false));
    EntryAdded(f9, "outputs", Arr(ProbeItems(e.probes)));
    PyOfObject(f9 + [Field("outputs", Arr(ProbeItems(e.probes)))]);
  }

  function ProbeDict(p: Probe): map<string, PyValue> {
    var fixed := map["label" := PyStr(p.tag), "arg_index" := PyInt(p.argIndex), "length" := PyInt(p.length),
      "preview_hex" := PyStr(p.preview), "sha256" := PyStr(p.digest)];
    if p.fds.None? then fixed else fixed["resource_kind" := PyStr("fd")]["resource_values" := PyOf(Arr(Nums(p.fds.value)))]
  }

  lemma ProbeDictIs(p: Probe)
    ensures PyOf(Obj(ProbeFields(p))) == PyDict(ProbeDict(p))
  {
    hide EntriesOf, PyOf, Nums;
    Scalars();
    var f0: seq<Field> := [Field("label", Str(p.tag))];
    var f1 := f0 + [Field("arg_index", Num(p.argIndex))];
    var f2 := f1 + [Field("length", Num(p.length))];
    var f3 := f2 + [Field("preview_hex", Str(p.preview))];
    var f4 := f3 + [Field("sha256", Str(p.digest))];
    OneEntry("label", Str(p.tag));
    EntryAdded(f0, "arg_index", Num(p.argIndex));
    EntryAdded(f1, "length", Num(p.length));
    EntryAdded(f2, "preview_hex", Str(p.preview));
    EntryAdded(f3, "sha256", Str(p.digest));
    if p.fds.Some? {
      var f5 := f4 + [Field("resource_kind", Str("fd"))];
      EntryAdded(f4, "resource_kind", Str("fd"));
      EntryAdded(f5, "resource_values", Arr(Nums(p.fds.value)));
    }
    PyOfObject(ProbeFields(p));
  }

  lemma {:induction false} ItemAt(items: seq<Json>, i: nat)
    requires i < |items|
    ensures |ItemsOf(items)| == |items| && ItemsOf(items)[i] == PyOf(items[i])
  {
    hide PyOf;
    if |items| > 1 { ItemAt(items[1..], if i > 0 then i - 1 else 0); }
    if i > 0 { assert items[i] == items[1..][i - 1]; }
  }

  lemma ListIs(items: seq<Json>)
    ensures PyOf(Arr(items)).PyList? && |PyOf(Arr(items)).items| == |items|
    ensures forall i :: 0 <= i < |items| ==> PyOf(Arr(items)).items[i] == PyOf(items[i])
  {
    if items != [] { ItemAt(items, 0); }
    forall i | 0 <= i < |items| ensures ItemsOf(items)[i] == PyOf(items[i]) { ItemAt(items, i); }
  }

  lemma NumsAreInts(ns: seq<int>)
    ensures IsInts(PyOf(Arr(Nums(ns))), ns)
  {
    hide PyOf;
    Scalars();
    ListIs(Nums(ns));
  }

  // ---------------------------------------------------------------- a call is read as itself

  lemma ProbeIsRead(p: Probe, r: Canonical.RawOutput)
    requires r == Canonical.RawOutput(p.tag, p.argIndex, p.length, p.preview, p.digest, p.fds)
    ensures OutputReadsAs(PyOf(Obj(ProbeFields(p))), r)
  {
    hide PyOf, ProbeFields, IsInts, Nums;
    ProbeDictIs(p);
    if p.fds.Some? { NumsAreInts(p.fds.value); }
  }

  function RawOf(p: Probe): Canonical.RawOutput {
    Canonical.RawOutput(p.tag, p.argIndex, p.length, p.preview, p.digest, p.fds)
  }

  function RawsOf(ps: seq<Probe>): seq<Canonical.RawOutput> { seq(|ps|, i requires 0 <= i < |ps| => RawOf(ps[i])) }

  lemma ProbesAreRead(ps: seq<Probe>)
    ensures OutputsReadAs(PyOf(Arr(ProbeItems(ps))), RawsOf(ps))
  {
    hide PyOf, ProbeFields, OutputReadsAs;
    ListIs(ProbeItems(ps));
    forall i | 0 <= i < |ps| ensures OutputReadsAs(PyOf(Arr(ProbeItems(ps))).items[i], RawsOf(ps)[i]) {
      ProbeIsRead(ps[i], RawOf(ps[i]));
    }
  }

  lemma EventIsRead(e: Event)
    ensures EventReadsAs(PyOf(EventJson(e)), Canonical.RawEvent(e.callIndex, e.syscallName, e.syscallNumber, e.args,
      e.returnValue, e.errno, e.startNs, e.endNs, RawsOf(e.probes)))
  {
    hide PyOf, EventJson, IsInts, OutputsReadAs, RawsOf, Nums, ProbeItems;
    EventDictIs(e);
    NumsAreInts(e.args);
    ProbesAreRead(e.probes);
  }

  lemma OutputIsShown(o: Output, s: Setting)
    requires OutputFits(o)
    ensures ShowsOutput(o, s, RawOf(ProbeOf(o, s)))
  {
    hide Hex, Stable, Sha256Of, IsHexOf;
    HexIsRead(Stable(o, s)[..ShownLength(|o.bytes|, s)]);
    HexIsRead(Sha256Of(Stable(o, s)));
  }

  /** The analyzer's record of a traced call is the call's own data, with its outputs' first bytes and hashes. */
  lemma CallIsRead(c: Call, s: Setting)
    requires CallFits(c)
    ensures exists e :: EventReadsAs(PyOf(EventJson(Printed(c, s))), e) && ShowsCall(c, s, e)
  {
    hide PyOf, EventJson, EventReadsAs, ShowsOutput, ProbeOf, RawOf;
    var p := Printed(c, s);
    EventIsRead(p);
    var e := Canonical.RawEvent(c.callIndex, c.syscallName, c.syscallNumber, c.args, c.returnValue, c.errno, c.startNs,
      c.endNs, RawsOf(p.probes));
    forall i | 0 <= i < |c.probes| ensures ShowsOutput(c.probes[i], s, e.outputs[i]) {
      OutputIsShown(c.probes[i], s);
    }
    assert EventReadsAs(PyOf(EventJson(p)), e) && ShowsCall(c, s, e);
  }
}
