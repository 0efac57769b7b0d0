/**
 * The trace canonicalizer (analyzer/normalize.py).
 *
 * Descriptors, addresses and pids are replaced by tokens numbered by first use. The methods below
 * thread one mutable CanonicalContext through a trace; the functions beside them say what each
 * method computes, and the lemmas show that the result is a canonical form: two traces get the
 * same symbols iff one is the other under a one-to-one renaming of descriptors, addresses and pids.
 */
module Canonical {
  import opened Prelude
  import opened PyValues

  datatype Kind = Fd | Addr | Pid

  /** What stands at a normalised position: an untouched integer, or the token "kind#id". */
  datatype Sym = Lit(n: int) | Tok(kind: Kind, id: nat)

  datatype RawOutput = RawOutput(
    tag: string, argIndex: int, length: int, previewHex: string, sha256: string,
    fds: Option<seq<int>>)  // resource_values, present iff resource_kind is "fd"

  datatype RawEvent = RawEvent(
    eventIndex: int, name: string, number: int, args: seq<int>, ret: int, errno: int,
    startNs: int, endNs: int, outputs: seq<RawOutput>)

  datatype RawTrace = RawTrace(programId: string, side: string, events: seq<RawEvent>, processExit: PyValue)

  datatype CanonOutput = CanonOutput(
    tag: string, argIndex: int, length: int, previewHex: string, sha256: string, fds: Option<seq<Sym>>)

  datatype CanonEvent = CanonEvent(
    index: nat, sourceEventIndex: int, name: string, number: int, args: seq<Sym>, ret: Sym,
    errno: int, durationNs: int, outputs: seq<CanonOutput>)

  datatype CanonTrace = CanonTrace(
    programId: string, side: string, eventCount: nat, events: seq<CanonEvent>,
    finalState: PyValue, processExit: PyValue)

  // ---------------------------------------------------------------- which positions are named

  function FdArgPositions(name: string): set<nat> {
    if name in {"close", "read", "write", "pread64", "pwrite64", "lseek", "fstat", "newfstatat", "openat"} then {0}
    else if name == "mmap" then {4}
    else {}
  }

  function PidArgPositions(name: string): set<nat> {
    if name == "wait4" then {0} else {}
  }

  function AddrArgPositions(name: string): set<nat> {
    if name in {"open", "mkdir", "unlink", "mmap", "munmap", "mprotect", "brk", "pipe", "pipe2"} then {0}
    else if name in {"openat", "read", "write", "pread64", "pwrite64", "fstat"} then {1}
    else if name == "newfstatat" then {1, 2}
    else if name == "rename" then {0, 1}
    else if name == "clone" then {1, 2, 3, 4}
    else if name == "wait4" then {1, 3}
    else if name == "socketpair" then {3}
    else {}
  }

  function ArgKind(name: string, index: nat, value: int): Option<Kind> {
    if index in FdArgPositions(name) && value >= 0 then Some(Fd)
    else if index in PidArgPositions(name) && value > 0 then Some(Pid)
    else if index in AddrArgPositions(name) && value > 0 then Some(Addr)
    else None
  }

  function RetKind(name: string, value: int): Option<Kind> {
    if name in {"open", "openat", "eventfd", "eventfd2"} && value >= 0 then Some(Fd)
    else if name in {"clone", "getpid", "getppid"} && value > 0 then Some(Pid)
    else if name in {"mmap", "brk"} && value > 0 then Some(Addr)
    else None
  }

  /** The first 32 hex digits of a stat preview hold the device and inode numbers and are masked. */
  function MaskedPreview(tag: string, previewHex: string): string {
    if tag == "stat" && |previewHex| >= 32
    then "00000000000000000000000000000000" + previewHex[32..]
    else previewHex
  }

  // ---------------------------------------------------------------- the reading of a raw trace

  /** A position of a raw trace: a value compared as it is, or a name standing for a resource. */
  datatype Slot = Literal(n: int) | Ref(kind: Kind, value: int)

  datatype OutputView = OutputView(
    tag: string, argIndex: int, length: int, previewHex: string, sha256: string, fds: Option<seq<Slot>>)

  datatype EventView = EventView(name: string, args: seq<Slot>, ret: Slot, errno: int, outputs: seq<OutputView>)

  function ScalarSlot(value: int, kind: Option<Kind>): Slot {
    if kind.Some? && value !in {0, -1, -100} then Ref(kind.value, value) else Literal(value)
  }

  function ArgSlots(name: string, args: seq<int>): (slots: seq<Slot>) {
    seq(|args|, i requires 0 <= i < |args| => ScalarSlot(args[i], ArgKind(name, i, args[i])))
  }

  function FdSlots(values: seq<int>): seq<Slot> {
    seq(|values|, i requires 0 <= i < |values| => Ref(Fd, values[i]))
  }

  function ViewOutput(o: RawOutput): OutputView {
    OutputView(o.tag, o.argIndex, o.length, MaskedPreview(o.tag, o.previewHex), o.sha256,
               if o.fds.Some? then Some(FdSlots(o.fds.value)) else None)
  }

  function ViewOutputs(outputs: seq<RawOutput>): seq<OutputView> {
    seq(|outputs|, i requires 0 <= i < |outputs| => ViewOutput(outputs[i]))
  }

  function ViewEvent(e: RawEvent): EventView {
    EventView(e.name, ArgSlots(e.name, e.args), ScalarSlot(e.ret, RetKind(e.name, e.ret)), e.errno,
              ViewOutputs(e.outputs))
  }

  function ViewEvents(events: seq<RawEvent>): seq<EventView> {
    seq(|events|, i requires 0 <= i < |events| => ViewEvent(events[i]))
  }

  // ---------------------------------------------------------------- numbering by first use

  /** The three dictionaries of the context, as a value. */
  datatype Context = Context(fd: map<int, Sym>, addr: map<int, Sym>, pid: map<int, Sym>) {
    function Of(kind: Kind): map<int, Sym> {
      match kind case Fd => fd case Addr => addr case Pid => pid
    }

    function With(kind: Kind, m: map<int, Sym>): Context {
      match kind
      case Fd => this.(fd := m)
      case Addr => this.(addr := m)
      case Pid => this.(pid := m)
    }
  }

  const NO_TOKENS := Context(map[], map[], map[])

  function TokenFor(c: Context, kind: Kind, value: int): Sym {
    if value in c.Of(kind) then c.Of(kind)[value] else Tok(kind, |c.Of(kind)|)
  }

  function Remember(c: Context, kind: Kind, value: int): Context {
    if value in c.Of(kind) then c else c.With(kind, c.Of(kind)[value := Tok(kind, |c.Of(kind)|)])
  }

  function NumberSlot(s: Slot, c: Context): Sym {
    match s case Literal(n) => Lit(n) case Ref(kind, value) => TokenFor(c, kind, value)
  }

  function AfterSlot(s: Slot, c: Context): Context {
    match s case Literal(_) => c case Ref(kind, value) => Remember(c, kind, value)
  }

  function AfterSlots(ss: seq<Slot>, c: Context): Context {
    if ss == [] then c else AfterSlot(ss[|ss|-1], AfterSlots(ss[..|ss|-1], c))
  }

  function NumberSlots(ss: seq<Slot>, c: Context): (syms: seq<Sym>)
    ensures |syms| == |ss|
  {
    if ss == [] then []
    else NumberSlots(ss[..|ss|-1], c) + [NumberSlot(ss[|ss|-1], AfterSlots(ss[..|ss|-1], c))]
  }

  function AfterOutput(o: OutputView, c: Context): Context {
    if o.fds.Some? then AfterSlots(o.fds.value, c) else c
  }

  function NumberOutput(o: OutputView, c: Context): CanonOutput {
    CanonOutput(o.tag, o.argIndex, o.length, o.previewHex, o.sha256,
                if o.fds.Some? then Some(NumberSlots(o.fds.value, c)) else None)
  }

  function AfterOutputs(os: seq<OutputView>, c: Context): Context {
    if os == [] then c else AfterOutput(os[|os|-1], AfterOutputs(os[..|os|-1], c))
  }

  function NumberOutputs(os: seq<OutputView>, c: Context): (outs: seq<CanonOutput>)
    ensures |outs| == |os|
  {
    if os == [] then []
    else NumberOutputs(os[..|os|-1], c) + [NumberOutput(os[|os|-1], AfterOutputs(os[..|os|-1], c))]
  }

  function AfterEvent(v: EventView, c: Context): Context {
    AfterOutputs(v.outputs, AfterSlot(v.ret, AfterSlots(v.args, c)))
  }

  /** The part of a canonical event that comparison looks at. */
  datatype EventKey = EventKey(name: string, args: seq<Sym>, ret: Sym, errno: int, outputs: seq<CanonOutput>)

  function KeyOf(e: CanonEvent): EventKey { EventKey(e.name, e.args, e.ret, e.errno, e.outputs) }

  function KeysOf(events: seq<CanonEvent>): (keys: seq<EventKey>) {
    seq(|events|, i requires 0 <= i < |events| => KeyOf(events[i]))
  }

  function NumberEvent(v: EventView, c: Context): EventKey {
    EventKey(v.name, NumberSlots(v.args, c), NumberSlot(v.ret, AfterSlots(v.args, c)), v.errno,
             NumberOutputs(v.outputs, AfterSlot(v.ret, AfterSlots(v.args, c))))
  }

  function AfterEvents(vs: seq<EventView>, c: Context): Context {
    if vs == [] then c else AfterEvent(vs[|vs|-1], AfterEvents(vs[..|vs|-1], c))
  }

  function NumberEvents(vs: seq<EventView>, c: Context): (keys: seq<EventKey>)
    ensures |keys| == |vs|
  {
    if vs == [] then []
    else NumberEvents(vs[..|vs|-1], c) + [NumberEvent(vs[|vs|-1], AfterEvents(vs[..|vs|-1], c))]
  }

  // ---------------------------------------------------------------- the code

  class CanonicalContext {
    var fdMap: map<int, Sym>
    var addrMap: map<int, Sym>
    var pidMap: map<int, Sym>

    ghost function State(): Context reads this { Context(fdMap, addrMap, pidMap) }

    constructor ()
      ensures State() == NO_TOKENS
    {
      fdMap, addrMap, pidMap := map[], map[], map[];
    }

    method Token(kind: Kind, value: int) returns (token: Sym)
      modifies this
      ensures token == TokenFor(old(State()), kind, value)
      ensures State() == Remember(old(State()), kind, value)
    {
      var mapping := match kind case Fd => fdMap case Addr => addrMap case Pid => pidMap;
      if value in mapping {
        return mapping[value];
      }
      token := Tok(kind, |mapping|);
      match kind {
        case Fd => fdMap := fdMap[value := token];
        case Addr => addrMap := addrMap[value := token];
        case Pid => pidMap := pidMap[value := token];
      }
    }
  }

  method NormalizeScalar(value: int, kind: Option<Kind>, ctx: CanonicalContext) returns (sym: Sym)
    modifies ctx
    ensures sym == NumberSlot(ScalarSlot(value, kind), old(ctx.State()))
    ensures ctx.State() == AfterSlot(ScalarSlot(value, kind), old(ctx.State()))
  {
    if kind.Some? && value in {0, -1, -100} {
      return Lit(value);
    }
    if kind.Some? {
      sym := ctx.Token(kind.value, value);
      return;
    }
    return Lit(value);
  }

  method NormalizeArgs(name: string, values: seq<int>, ctx: CanonicalContext) returns (args: seq<Sym>)
    modifies ctx
    ensures args == NumberSlots(ArgSlots(name, values), old(ctx.State()))
    ensures ctx.State() == AfterSlots(ArgSlots(name, values), old(ctx.State()))
  {
    args := [];
    ghost var slots, c0 := ArgSlots(name, values), ctx.State();
    for index := 0 to |values|
      invariant args == NumberSlots(slots[..index], c0)
      invariant ctx.State() == AfterSlots(slots[..index], c0)
    {
      var sym := NormalizeScalar(values[index], ArgKind(name, index, values[index]), ctx);
      args := args + [sym];
      assert slots[..index+1][..index] == slots[..index];
    }
    assert slots[..|values|] == slots;
  }

  method NormalizeResources(values: seq<int>, ctx: CanonicalContext) returns (syms: seq<Sym>)
    modifies ctx
    ensures syms == NumberSlots(FdSlots(values), old(ctx.State()))
    ensures ctx.State() == AfterSlots(FdSlots(values), old(ctx.State()))
  {
    syms := [];
    ghost var slots, c0 := FdSlots(values), ctx.State();
    for i := 0 to |values|
      invariant syms == NumberSlots(slots[..i], c0)
      invariant ctx.State() == AfterSlots(slots[..i], c0)
    {
      var sym := ctx.Token(Fd, values[i]);
      syms := syms + [sym];
      assert slots[..i+1][..i] == slots[..i];
    }
    assert slots[..|values|] == slots;
  }

  method NormalizeOutputs(outputs: seq<RawOutput>, ctx: CanonicalContext) returns (normalized: seq<CanonOutput>)
    modifies ctx
    ensures normalized == NumberOutputs(ViewOutputs(outputs), old(ctx.State()))
    ensures ctx.State() == AfterOutputs(ViewOutputs(outputs), old(ctx.State()))
  {
    normalized := [];
    ghost var views, c0 := ViewOutputs(outputs), ctx.State();
    for i := 0 to |outputs|
      invariant normalized == NumberOutputs(views[..i], c0)
      invariant ctx.State() == AfterOutputs(views[..i], c0)
    {
      var o := outputs[i];
      var preview := o.previewHex;
      if o.tag == "stat" {
        if |preview| >= 32 {
          preview := "00000000000000000000000000000000" + preview[32..];
        }
      }
      var item := CanonOutput(o.tag, o.argIndex, o.length, preview, o.sha256, None);
      if o.fds.Some? {
        var syms := NormalizeResources(o.fds.value, ctx);
        item := item.(fds := Some(syms));
      }
      normalized := normalized + [item];
      assert views[..i+1][..i] == views[..i];
    }
    assert views[..|outputs|] == views;
  }

  method NormalizeEvent(event: RawEvent, actualIndex: nat, ctx: CanonicalContext) returns (normalized: CanonEvent)
    modifies ctx
    ensures KeyOf(normalized) == NumberEvent(ViewEvent(event), old(ctx.State()))
    ensures ctx.State() == AfterEvent(ViewEvent(event), old(ctx.State()))
    ensures normalized.index == actualIndex && normalized.sourceEventIndex == event.eventIndex
    ensures normalized.number == event.number && normalized.durationNs == event.endNs - event.startNs
  {
    var args := NormalizeArgs(event.name, event.args, ctx);
    var ret := Lit(0);
    if event.ret != 0 {
      ret := NormalizeScalar(event.ret, RetKind(event.name, event.ret), ctx);
    }
    var outputs := NormalizeOutputs(event.outputs, ctx);
    normalized := CanonEvent(actualIndex, event.eventIndex, event.name, event.number, args, ret,
                             event.errno, event.endNs - event.startNs, outputs);
  }

  /** Event indexes are non-negative and strictly increasing (analyzer/schemas.py). */
  ghost predicate IndexesIncrease(events: seq<RawEvent>) {
    && (forall i :: 0 <= i < |events| ==> 0 <= events[i].eventIndex)
    && (forall i, j :: 0 <= i < j < |events| ==> events[i].eventIndex < events[j].eventIndex)
  }

  ghost predicate ValidCanonical(trace: CanonTrace) {
    && trace.eventCount == |trace.events|
    && forall i :: 0 <= i < |trace.events| ==> trace.events[i].index == i
  }

  method ValidateRawTrace(events: seq<RawEvent>) returns (ok: bool)
    ensures ok <==> IndexesIncrease(events)
  {
    var previous := -1;
    for i := 0 to |events|
      invariant previous == if i == 0 then -1 else events[i-1].eventIndex
      invariant previous >= -1
      invariant forall j :: 0 <= j < i ==> 0 <= events[j].eventIndex <= previous
      invariant forall j, k :: 0 <= j < k < i ==> events[j].eventIndex < events[k].eventIndex
    {
      if events[i].eventIndex <= previous {
        return false;
      }
      previous := events[i].eventIndex;
    }
    return true;
  }

  method Canonicalize(raw: RawTrace, externalState: PyValue) returns (r: Result<CanonTrace>)
    ensures r.Ok? <==> IndexesIncrease(raw.events)
    ensures r.Ok? ==>
      && ValidCanonical(r.value)
      && KeysOf(r.value.events) == NumberEvents(ViewEvents(raw.events), NO_TOKENS)
      && r.value.finalState == externalState && r.value.processExit == raw.processExit
      && r.value.programId == raw.programId && r.value.side == raw.side
  {
    var valid := ValidateRawTrace(raw.events);
    if !valid {
      return Err("raw trace event indexes are not strictly increasing");
    }
    var events := NormalizeEvents(raw.events);
    r := Ok(CanonTrace(raw.programId, raw.side, |events|, events, externalState, raw.processExit));
  }

  method NormalizeEvents(rawEvents: seq<RawEvent>) returns (events: seq<CanonEvent>)
    ensures |events| == |rawEvents| && forall j :: 0 <= j < |events| ==> events[j].index == j
    ensures KeysOf(events) == NumberEvents(ViewEvents(rawEvents), NO_TOKENS)
  {
    var ctx := new CanonicalContext();
    events := [];
    ghost var views, keys := ViewEvents(rawEvents), [];
    for index := 0 to |rawEvents|
      invariant |events| == index && forall j :: 0 <= j < index ==> events[j].index == j
      invariant KeysOf(events) == keys && keys == NumberEvents(views[..index], NO_TOKENS)
      invariant ctx.State() == AfterEvents(views[..index], NO_TOKENS)
    {
      AnotherView(views, index);
      var event := NormalizeEvent(rawEvents[index], index, ctx);
      AnotherKey(events, event);
      keys := keys + [KeyOf(event)];
      events := events + [event];
    }
    assert views[..|rawEvents|] == views;
  }

  lemma AnotherKey(events: seq<CanonEvent>, event: CanonEvent)
    ensures KeysOf(events + [event]) == KeysOf(events) + [KeyOf(event)]
  {
  }

  lemma AnotherView(views: seq<EventView>, index: nat)
    requires index < |views|
    ensures NumberEvents(views[..index+1], NO_TOKENS)
         == NumberEvents(views[..index], NO_TOKENS) + [NumberEvent(views[index], AfterEvents(views[..index], NO_TOKENS))]
    ensures AfterEvents(views[..index+1], NO_TOKENS) == AfterEvent(views[index], AfterEvents(views[..index], NO_TOKENS))
  {
    assert views[..index+1][..index] == views[..index];
  }
}
