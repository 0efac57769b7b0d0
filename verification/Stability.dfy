/**
 * The hash that tells whether repeated runs agree (orchestrator/stability.py): volatile timing keys
 * are dropped, at every depth, before a trace is hashed.
 */
module Stability {
  import opened Prelude
  import opened PyValues
  import opened Canonical
  import opened Compare
  import Json

  predicate IsVolatile(key: string) { key in {"duration_ns", "start_ns", "end_ns"} }

  function StableView(v: PyValue): PyValue {
    match v
    case PyDict(m) => PyDict(map k | k in m && !IsVolatile(k) :: StableView(m[k]))
    case PyList(items) => PyList(seq(|items|, i requires 0 <= i < |items| => StableView(items[i])))
    case _ => v
  }

  /** No dictionary in the value has a timing key. */
  predicate VolatileFree(v: PyValue) {
    match v
    case PyDict(m) => forall k :: k in m ==> k !in {"duration_ns", "start_ns", "end_ns"} && VolatileFree(m[k])
    case PyList(items) => forall i :: 0 <= i < |items| ==> VolatileFree(items[i])
    case _ => true
  }

  lemma {:induction false} StableViewIsSame(v: PyValue)
    requires VolatileFree(v)
    ensures StableView(v) == v
  {
    match v {
      case PyDict(m) =>
        forall k | k in m ensures StableView(m[k]) == m[k] { StableViewIsSame(m[k]); }
      case PyList(items) =>
        forall i | 0 <= i < |items| ensures StableView(items[i]) == items[i] { StableViewIsSame(items[i]); }
      case _ =>
    }
  }

  /** What is left of a value is free of volatile keys, and the view of a view is the view. */
  lemma {:induction false} StableViewIsFree(v: PyValue)
    ensures VolatileFree(StableView(v)) && StableView(StableView(v)) == StableView(v)
  {
    match v {
      case PyDict(m) =>
        forall k | k in m && !IsVolatile(k) ensures VolatileFree(StableView(m[k])) { StableViewIsFree(m[k]); }
      case PyList(items) =>
        forall i | 0 <= i < |items| ensures VolatileFree(StableView(items[i])) { StableViewIsFree(items[i]); }
      case _ =>
    }
    StableViewIsSame(StableView(v));
  }

  // ---------------------------------------------------------------- canonical traces as Python values

  function KindName(k: Kind): string {
    match k case Fd => "fd" case Addr => "addr" case Pid => "pid"
  }

  function TokenText(k: Kind, id: nat): string { KindName(k) + "#" + Json.Decimal(id) }

  function SymPy(s: Sym): PyValue {
    match s case Lit(n) => PyInt(n) case Tok(kind, id) => PyStr(TokenText(kind, id))
  }

  function SymsPy(ss: seq<Sym>): PyValue { PyList(seq(|ss|, i requires 0 <= i < |ss| => SymPy(ss[i]))) }

  function OutputEntries(o: CanonOutput): map<string, PyValue> {
    var fixed := map["label" := PyStr(o.tag), "arg_index" := PyInt(o.argIndex), "length" := PyInt(o.length),
      "preview_hex" := PyStr(o.previewHex), "sha256" := PyStr(o.sha256)];
    if o.fds.None? then fixed
    else fixed + map["resource_kind" := PyStr("fd"), "resource_values" := SymsPy(o.fds.value)]
  }

  function OutputsPy(os: seq<CanonOutput>): PyValue {
    PyList(seq(|os|, i requires 0 <= i < |os| => PyDict(OutputEntries(os[i]))))
  }

  function EventEntries(e: CanonEvent): map<string, PyValue> {
    map["index" := PyInt(e.index), "source_event_index" := PyInt(e.sourceEventIndex), "syscall_name" := PyStr(e.name),
      "syscall_number" := PyInt(e.number), "args" := SymsPy(e.args), "return_value" := SymPy(e.ret),
      "errno" := PyInt(e.errno), "duration_ns" := PyInt(e.durationNs), "outputs" := OutputsPy(e.outputs)]
  }

  function EventsPy(es: seq<CanonEvent>): PyValue {
    PyList(seq(|es|, i requires 0 <= i < |es| => PyDict(EventEntries(es[i]))))
  }

  function TraceEntries(c: CanonTrace): map<string, PyValue> {
    map["program_id" := PyStr(c.programId), "side" := PyStr(c.side), "event_count" := PyInt(c.eventCount),
      "events" := EventsPy(c.events), "final_state" := c.finalState, "process_exit" := c.processExit]
  }

  function TracePy(c: CanonTrace): PyValue { PyDict(TraceEntries(c)) }

  /** canonical_trace_hash, for a digest of stable views that is a parameter. */
  function TraceHash(digest: PyValue -> string, c: CanonTrace): string { digest(StableView(TracePy(c))) }

  // ---------------------------------------------------------------- what equal views say

  lemma EntryView(m: map<string, PyValue>, n: map<string, PyValue>, k: string)
    requires StableView(PyDict(m)) == StableView(PyDict(n)) && !IsVolatile(k)
    ensures k in m <==> k in n
    ensures k in m ==> StableView(m[k]) == StableView(n[k])
  {
    var v, w := StableView(PyDict(m)).entries, StableView(PyDict(n)).entries;
    assert k in m <==> k in v;
    assert k in n <==> k in w;
    if k in m {
      assert v[k] == w[k];
    }
  }

  lemma ItemView(x: seq<PyValue>, y: seq<PyValue>)
    requires StableView(PyList(x)) == StableView(PyList(y))
    ensures |x| == |y| && forall i :: 0 <= i < |x| ==> StableView(x[i]) == StableView(y[i])
  {
    var v, w := StableView(PyList(x)).items, StableView(PyList(y)).items;
    assert |v| == |x| && |w| == |y|;
    forall i | 0 <= i < |x| ensures StableView(x[i]) == StableView(y[i]) {
      assert v[i] == w[i];
    }
  }

  lemma TokenTextIsInjective(j: Kind, m: nat, k: Kind, n: nat)
    requires TokenText(j, m) == TokenText(k, n)
    ensures j == k && m == n
  {
    var s, t := TokenText(j, m), TokenText(k, n);
    assert s[0] == KindName(j)[0] && t[0] == KindName(k)[0];
    assert s[|KindName(j)|+1..] == Json.Decimal(m) && t[|KindName(k)|+1..] == Json.Decimal(n);
    Json.DecimalIsRead(m);
    Json.DecimalIsRead(n);
  }

  lemma SymIsKept(a: Sym, b: Sym)
    requires SymPy(a) == SymPy(b)
    ensures a == b
  {
    if a.Tok? {
      TokenTextIsInjective(a.kind, a.id, b.kind, b.id);
    }
  }

  lemma SymsAreKept(a: seq<Sym>, b: seq<Sym>)
    requires StableView(SymsPy(a)) == StableView(SymsPy(b))
    ensures a == b
  {
    ItemView(SymsPy(a).items, SymsPy(b).items);
    forall i | 0 <= i < |a| ensures a[i] == b[i] {
      assert StableView(SymsPy(a).items[i]) == SymPy(a[i]);
      assert StableView(SymsPy(b).items[i]) == SymPy(b[i]);
      SymIsKept(a[i], b[i]);
    }
  }

  lemma OutputIsKept(a: CanonOutput, b: CanonOutput)
    requires StableView(PyDict(OutputEntries(a))) == StableView(PyDict(OutputEntries(b)))
    ensures a == b
  {
    hide StableView, SymsPy;
    var m, n := OutputEntries(a), OutputEntries(b);
    EntryView(m, n, "label");
    EntryView(m, n, "arg_index");
    EntryView(m, n, "length");
    EntryView(m, n, "preview_hex");
    EntryView(m, n, "sha256");
    EntryView(m, n, "resource_values");
    ScalarsAreKept();
    if a.fds.Some? {
      SymsAreKept(a.fds.value, b.fds.value);
    }
  }

  lemma ScalarsAreKept()
    ensures forall s: string :: StableView(PyStr(s)) == PyStr(s)
    ensures forall n: int :: StableView(PyInt(n)) == PyInt(n)
  {
  }

  lemma OutputsAreKept(a: seq<CanonOutput>, b: seq<CanonOutput>)
    requires StableView(OutputsPy(a)) == StableView(OutputsPy(b))
    ensures a == b
  {
    hide StableView, OutputEntries;
    ItemView(OutputsPy(a).items, OutputsPy(b).items);
    forall i | 0 <= i < |a| ensures a[i] == b[i] {
      assert OutputsPy(a).items[i] == PyDict(OutputEntries(a[i]));
      assert OutputsPy(b).items[i] == PyDict(OutputEntries(b[i]));
      OutputIsKept(a[i], b[i]);
    }
  }

  lemma EventIsKept(a: CanonEvent, b: CanonEvent)
    requires StableView(PyDict(EventEntries(a))) == StableView(PyDict(EventEntries(b)))
    ensures KeyOf(a) == KeyOf(b)
  {
    hide StableView, SymsPy, OutputsPy;
    var m, n := EventEntries(a), EventEntries(b);
    EntryView(m, n, "syscall_name");
    EntryView(m, n, "args");
    EntryView(m, n, "return_value");
    EntryView(m, n, "errno");
    EntryView(m, n, "outputs");
    ScalarsAreKept();
    SymIsKept(a.ret, b.ret);
    SymsAreKept(a.args, b.args);
    OutputsAreKept(a.outputs, b.outputs);
  }

  lemma EventsAreKept(a: seq<CanonEvent>, b: seq<CanonEvent>)
    requires StableView(EventsPy(a)) == StableView(EventsPy(b))
    ensures |a| == |b| && forall i :: 0 <= i < |a| ==> KeyOf(a[i]) == KeyOf(b[i])
  {
    hide StableView, EventEntries, KeyOf;
    ItemView(EventsPy(a).items, EventsPy(b).items);
    assert |EventsPy(a).items| == |a| && |EventsPy(b).items| == |b|;
    forall i | 0 <= i < |a| ensures KeyOf(a[i]) == KeyOf(b[i]) {
      assert EventsPy(a).items[i] == PyDict(EventEntries(a[i]));
      assert EventsPy(b).items[i] == PyDict(EventEntries(b[i]));
      EventIsKept(a[i], b[i]);
    }
  }

  // ---------------------------------------------------------------- what the hash is for

  /** The events are the same but for the time that they took. */
  ghost predicate SameButDurations(a: seq<CanonEvent>, b: seq<CanonEvent>) {
    |a| == |b| && forall i :: 0 <= i < |a| ==> a[i] == b[i].(durationNs := a[i].durationNs)
  }

  /** A rerun that took other times has the same hash, with every digest. */
  lemma TimesAreNotHashed(a: CanonTrace, b: CanonTrace, digest: PyValue -> string)
    requires SameButDurations(a.events, b.events) && a == b.(events := a.events)
    ensures TraceHash(digest, a) == TraceHash(digest, b)
  {
    hide StableView, EventsPy;
    EventsLookAlike(a.events, b.events);
    var m, n := TraceEntries(a), TraceEntries(b);
    assert forall k :: k != "events" && k in m ==> m[k] == n[k];
    SameEntries(m, n);
  }

  lemma EventsLookAlike(a: seq<CanonEvent>, b: seq<CanonEvent>)
    requires SameButDurations(a, b)
    ensures StableView(EventsPy(a)) == StableView(EventsPy(b))
  {
    hide EventEntries;
    forall i | 0 <= i < |a| ensures StableView(PyDict(EventEntries(a[i]))) == StableView(PyDict(EventEntries(b[i]))) {
      EventLooksAlike(a[i], b[i]);
    }
    ItemsLookAlike(EventsPy(a).items, EventsPy(b).items);
  }

  lemma ItemsLookAlike(x: seq<PyValue>, y: seq<PyValue>)
    requires |x| == |y| && forall i :: 0 <= i < |x| ==> StableView(x[i]) == StableView(y[i])
    ensures StableView(PyList(x)) == StableView(PyList(y))
  {
  }

  lemma EventLooksAlike(a: CanonEvent, b: CanonEvent)
    requires a == b.(durationNs := a.durationNs)
    ensures StableView(PyDict(EventEntries(a))) == StableView(PyDict(EventEntries(b)))
  {
    hide StableView, SymsPy, OutputsPy;
    SameEntries(EventEntries(a), EventEntries(b));
  }

  /** For traces without timing keys and an injective digest those are all that hash alike. */
  lemma SameHashIff(a: CanonTrace, b: CanonTrace, digest: PyValue -> string)
    requires TimeFree(a) && TimeFree(b)
    requires forall x, y {:trigger digest(x), digest(y)} :: digest(x) == digest(y) ==> x == y
    ensures TraceHash(digest, a) == TraceHash(digest, b) <==>
      SameButDurations(a.events, b.events) && a == b.(events := a.events)
  {
    hide StableView, VolatileFree, TraceEntries, SameButDurations;
    if TraceHash(digest, a) == TraceHash(digest, b) {
      TraceIsKept(a, b);
      AllIsKept(a, b);
    } else if SameButDurations(a.events, b.events) && a == b.(events := a.events) {
      TimesAreNotHashed(a, b, digest);
    }
  }

  lemma AllIsKept(a: CanonTrace, b: CanonTrace)
    requires StableView(TracePy(a)) == StableView(TracePy(b))
    ensures SameButDurations(a.events, b.events)
    ensures a.programId == b.programId && a.side == b.side && a.eventCount == b.eventCount
  {
    hide StableView, EventEntries, EventsPy;
    var m, n := TraceEntries(a), TraceEntries(b);
    EntryView(m, n, "program_id");
    EntryView(m, n, "side");
    EntryView(m, n, "event_count");
    EntryView(m, n, "events");
    ScalarsAreKept();
    EventsAreKept(a.events, b.events);
    EachEventIsKept(a.events, b.events);
  }

  lemma EachEventIsKept(a: seq<CanonEvent>, b: seq<CanonEvent>)
    requires StableView(EventsPy(a)) == StableView(EventsPy(b)) && |a| == |b|
    ensures SameButDurations(a, b)
  {
    hide StableView, EventEntries;
    ItemView(EventsPy(a).items, EventsPy(b).items);
    forall i | 0 <= i < |a| ensures a[i] == b[i].(durationNs := a[i].durationNs) {
      assert EventsPy(a).items[i] == PyDict(EventEntries(a[i]));
      assert EventsPy(b).items[i] == PyDict(EventEntries(b[i]));
      NumbersAreKept(a[i], b[i]);
      EventIsKept(a[i], b[i]);
      assert KeyOf(a[i]) == KeyOf(b[i]);
    }
  }

  lemma NumbersAreKept(a: CanonEvent, b: CanonEvent)
    requires StableView(PyDict(EventEntries(a))) == StableView(PyDict(EventEntries(b)))
    ensures a.index == b.index && a.sourceEventIndex == b.sourceEventIndex && a.number == b.number
  {
    hide StableView, SymsPy, OutputsPy;
    var m, n := EventEntries(a), EventEntries(b);
    EntryView(m, n, "index");
    EntryView(m, n, "source_event_index");
    EntryView(m, n, "syscall_number");
    ScalarsAreKept();
  }

  // ---------------------------------------------------------------- what equal views say of verdicts

  /** The state and the exit record hold no timing keys, as those that the runners write do not. */
  predicate TimeFree(c: CanonTrace) { VolatileFree(c.finalState) && VolatileFree(c.processExit) }

  /** Traces with the same stable view cannot be told apart by any comparison. */
  lemma SameViewSameVerdict(a: CanonTrace, b: CanonTrace, c: CanonTrace, noise: set<string>)
    requires StableView(TracePy(a)) == StableView(TracePy(b)) && TimeFree(a) && TimeFree(b)
    requires ValidCanonical(a) && ValidCanonical(b) && ValidCanonical(c)
    ensures Verdict(a, c, noise) == Verdict(b, c, noise)
    ensures Verdict(c, a, noise) == Verdict(c, b, noise)
  {
    TraceIsKept(a, b);
    SameKeysSameVerdict(a, b, c, noise);
  }

  /** Equal views mean equal event keys and sides, whatever the states hold. */
  lemma KeysAreKept(a: CanonTrace, b: CanonTrace)
    requires StableView(TracePy(a)) == StableView(TracePy(b))
    ensures |a.events| == |b.events| && forall i :: 0 <= i < |a.events| ==> KeyOf(a.events[i]) == KeyOf(b.events[i])
    ensures a.side == b.side && a.eventCount == b.eventCount
    ensures StableView(a.finalState) == StableView(b.finalState) && StableView(a.processExit) == StableView(b.processExit)
  {
    hide StableView, EventsPy, KeyOf;
    var m, n := TraceEntries(a), TraceEntries(b);
    EntryView(m, n, "side");
    EntryView(m, n, "event_count");
    EntryView(m, n, "events");
    EntryView(m, n, "final_state");
    EntryView(m, n, "process_exit");
    ScalarsAreKept();
    EventsAreKept(a.events, b.events);
  }

  lemma TraceIsKept(a: CanonTrace, b: CanonTrace)
    requires StableView(TracePy(a)) == StableView(TracePy(b)) && TimeFree(a) && TimeFree(b)
    ensures |a.events| == |b.events| && forall i :: 0 <= i < |a.events| ==> KeyOf(a.events[i]) == KeyOf(b.events[i])
    ensures a.finalState == b.finalState && a.processExit == b.processExit && a.side == b.side
  {
    hide StableView, VolatileFree, KeyOf;
    KeysAreKept(a, b);
    StableViewIsSame(a.finalState);
    StableViewIsSame(b.finalState);
    StableViewIsSame(a.processExit);
    StableViewIsSame(b.processExit);
  }

  lemma SameKeysSameVerdict(a: CanonTrace, b: CanonTrace, c: CanonTrace, noise: set<string>)
    requires ValidCanonical(a) && ValidCanonical(b) && ValidCanonical(c)
    requires |a.events| == |b.events| && forall i :: 0 <= i < |a.events| ==> KeyOf(a.events[i]) == KeyOf(b.events[i])
    requires a.finalState == b.finalState && a.processExit == b.processExit
    ensures Verdict(a, c, noise) == Verdict(b, c, noise)
    ensures Verdict(c, a, noise) == Verdict(c, b, noise)
  {
    if a.eventCount == c.eventCount {
      var p, q := FirstDifference(a.events, c.events, noise), FirstDifference(c.events, a.events, noise);
      forall i | 0 <= i < |a.events|
        ensures AgreeAt(a.events, c.events, noise, i) == AgreeAt(b.events, c.events, noise, i)
        ensures AgreeAt(c.events, a.events, noise, i) == AgreeAt(c.events, b.events, noise, i)
      {
        assert KeyOf(a.events[i]) == KeyOf(b.events[i]);
      }
      FirstDifferenceIsLeast(b.events, c.events, noise, p);
      FirstDifferenceIsLeast(c.events, b.events, noise, q);
    }
  }

  // ---------------------------------------------------------------- when the hash decides the verdict

  /** Traces with equal hashes compare equivalent exactly if their states and exit records are equal. */
  lemma SameViewVerdictIff(a: CanonTrace, b: CanonTrace, noise: set<string>)
    requires StableView(TracePy(a)) == StableView(TracePy(b)) && ValidCanonical(a) && ValidCanonical(b)
    ensures Verdict(a, b, noise).equivalent <==> a.finalState == b.finalState && a.processExit == b.processExit
  {
    hide StableView, TracePy;
    KeysAreKept(a, b);
    EquivalentIffErasedEqual(a, b, noise);
  }

  /**
   * The two traces stand alike to a third one: its event count is another, or it has the state of both
   * or of neither, and the exit record of both or of neither.
   */
  predicate StandAlike(a: CanonTrace, b: CanonTrace, c: CanonTrace) {
    || a.eventCount != c.eventCount
    || ((a.finalState == c.finalState <==> b.finalState == c.finalState)
        && (a.processExit == c.processExit <==> b.processExit == c.processExit))
  }

  /** Traces with equal hashes get the same comparison with a third trace exactly if they stand alike to it. */
  lemma VerdictsAgreeIff(a: CanonTrace, b: CanonTrace, c: CanonTrace, noise: set<string>)
    requires StableView(TracePy(a)) == StableView(TracePy(b)) && ValidCanonical(a) && ValidCanonical(b) && ValidCanonical(c)
    ensures Verdict(a, c, noise) == Verdict(b, c, noise) <==> StandAlike(a, b, c)
  {
    hide StableView, TracePy, KeyOf;
    KeysAreKept(a, b);
    if a.eventCount == c.eventCount {
      SameFirstDifference(a.events, b.events, c.events, noise);
    }
  }

  lemma SameFirstDifference(a: seq<CanonEvent>, b: seq<CanonEvent>, c: seq<CanonEvent>, noise: set<string>)
    requires |a| == |b| == |c| && forall i :: 0 <= i < |a| ==> KeyOf(a[i]) == KeyOf(b[i])
    ensures FirstDifference(a, c, noise) == FirstDifference(b, c, noise)
  {
    var p := FirstDifference(a, c, noise);
    forall i | 0 <= i < |a| ensures AgreeAt(a, c, noise, i) == AgreeAt(b, c, noise, i) {
      assert KeyOf(a[i]) == KeyOf(b[i]);
    }
    FirstDifferenceIsLeast(b, c, noise, p);
  }

  /** They can stand for each other in every comparison exactly if their states and exit records are equal. */
  lemma InterchangeableIff(a: CanonTrace, b: CanonTrace, noise: set<string>)
    requires StableView(TracePy(a)) == StableView(TracePy(b)) && ValidCanonical(a) && ValidCanonical(b)
    ensures (forall c :: ValidCanonical(c) ==> Verdict(a, c, noise) == Verdict(b, c, noise)) <==>
      a.finalState == b.finalState && a.processExit == b.processExit
  {
    hide StableView, TracePy, Verdict, ValidCanonical;
    VerdictsAgreeIff(a, b, a, noise);
    if a.finalState == b.finalState && a.processExit == b.processExit {
      forall c | ValidCanonical(c) ensures Verdict(a, c, noise) == Verdict(b, c, noise) {
        VerdictsAgreeIff(a, b, c, noise);
      }
    }
  }

  /**
   * The exact condition: every trace without timing keys that hashes like this one compares equivalent
   * to it, if and only if this one holds no timing key in its state and its exit record either.
   */
  lemma HashDecidesIffTimeFree(c: CanonTrace, noise: set<string>)
    requires ValidCanonical(c)
    ensures TimeFree(c) <==>
      forall d :: (ValidCanonical(d) && TimeFree(d) && StableView(TracePy(d)) == StableView(TracePy(c))
                   ==> Verdict(d, c, noise).equivalent)
  {
    hide StableView, VolatileFree, Verdict, TracePy, ValidCanonical;
    forall d | ValidCanonical(d) && TimeFree(d) && StableView(TracePy(d)) == StableView(TracePy(c)) && TimeFree(c)
      ensures Verdict(d, c, noise).equivalent
    {
      TraceIsKept(d, c);
      SameViewVerdictIff(d, c, noise);
    }
    var twin := Stripped(c);
    StrippedTwin(c);
    if Verdict(twin, c, noise).equivalent {
      SameViewVerdictIff(twin, c, noise);
    }
  }

  /** The trace without the timing keys of its state and exit record. */
  function Stripped(c: CanonTrace): CanonTrace {
    c.(finalState := StableView(c.finalState), processExit := StableView(c.processExit))
  }

  lemma StrippedTwin(c: CanonTrace)
    ensures TimeFree(Stripped(c)) && StableView(TracePy(Stripped(c))) == StableView(TracePy(c))
    ensures ValidCanonical(c) ==> ValidCanonical(Stripped(c))
  {
    hide StableView, VolatileFree, TracePy;
    StableViewIsFree(c.finalState);
    StableViewIsFree(c.processExit);
    StateView(c, Stripped(c));
  }

  /** The view of a trace depends on its state and its exit record through their views. */
  lemma StateView(c: CanonTrace, d: CanonTrace)
    requires d == c.(finalState := d.finalState, processExit := d.processExit)
    requires StableView(d.finalState) == StableView(c.finalState) && StableView(d.processExit) == StableView(c.processExit)
    ensures StableView(TracePy(d)) == StableView(TracePy(c))
  {
    var m, n := TraceEntries(d), TraceEntries(c);
    var v, w := StableView(PyDict(m)).entries, StableView(PyDict(n)).entries;
    assert m.Keys == n.Keys;
    assert forall k :: k in v <==> k in w;
    assert forall k :: k in v ==> v[k] == w[k];
  }

  // ---------------------------------------------------------------- timing keys at any depth

  datatype Step = Entry(key: string) | Index(i: nat)

  /** The path leads, outside timing entries, to a dictionary that does not have the key. */
  predicate Leads(v: PyValue, path: seq<Step>, key: string) {
    if path == [] then v.PyDict? && key !in v.entries
    else match path[0]
      case Entry(k) => v.PyDict? && !IsVolatile(k) && k in v.entries && Leads(v.entries[k], path[1..], key)
      case Index(i) => v.PyList? && i < |v.items| && Leads(v.items[i], path[1..], key)
  }

  /** The value with one more entry in the dictionary that the path leads to. */
  function Plant(v: PyValue, path: seq<Step>, key: string, value: PyValue): PyValue
    requires Leads(v, path, key)
  {
    if path == [] then PyDict(v.entries[key := value])
    else match path[0]
      case Entry(k) => PyDict(v.entries[k := Plant(v.entries[k], path[1..], key, value)])
      case Index(i) => PyList(v.items[i := Plant(v.items[i], path[1..], key, value)])
  }

  lemma {:induction false} PlantIsUnseen(v: PyValue, path: seq<Step>, key: string, value: PyValue)
    requires Leads(v, path, key) && IsVolatile(key)
    ensures StableView(Plant(v, path, key, value)) == StableView(v) && Plant(v, path, key, value) != v
  {
    var w := Plant(v, path, key, value);
    if path == [] {
      assert key in w.entries;
      SameEntries(w.entries, v.entries);
    } else if path[0].Entry? {
      PlantIsUnseen(v.entries[path[0].key], path[1..], key, value);
      assert w.entries[path[0].key] != v.entries[path[0].key];
      SameEntries(w.entries, v.entries);
    } else {
      PlantIsUnseen(v.items[path[0].i], path[1..], key, value);
      assert w.items[path[0].i] != v.items[path[0].i];
    }
  }

  lemma SameEntries(m: map<string, PyValue>, n: map<string, PyValue>)
    requires forall k :: !IsVolatile(k) ==> (k in m <==> k in n)
    requires forall k :: k in m && k in n && !IsVolatile(k) ==> StableView(m[k]) == StableView(n[k])
    ensures StableView(PyDict(m)) == StableView(PyDict(n))
  {
    var v, w := StableView(PyDict(m)).entries, StableView(PyDict(n)).entries;
    assert forall k :: k in v <==> k in w;
    assert forall k :: k in v ==> v[k] == w[k];
  }

  /**
   * The inputs on which the hash proves nothing: a timing key at any depth of the state or of the exit
   * record goes unseen by the hash and makes the comparator see a difference.
   */
  lemma TimedStateEscapesTheHash(c: CanonTrace, path: seq<Step>, key: string, value: PyValue, digest: PyValue -> string,
                                 noise: set<string>)
    requires ValidCanonical(c) && key in {"duration_ns", "start_ns", "end_ns"}
    ensures Leads(c.finalState, path, key) ==>
      var d := c.(finalState := Plant(c.finalState, path, key, value));
      TraceHash(digest, d) == TraceHash(digest, c) && !Verdict(d, c, noise).equivalent
    ensures Leads(c.processExit, path, key) ==>
      var d := c.(processExit := Plant(c.processExit, path, key, value));
      TraceHash(digest, d) == TraceHash(digest, c) && !Verdict(d, c, noise).equivalent
  {
    hide StableView, TracePy, Verdict;
    if Leads(c.finalState, path, key) {
      var d := c.(finalState := Plant(c.finalState, path, key, value));
      PlantIsUnseen(c.finalState, path, key, value);
      StateView(c, d);
      SameViewVerdictIff(d, c, noise);
    }
    if Leads(c.processExit, path, key) {
      var d := c.(processExit := Plant(c.processExit, path, key, value));
      PlantIsUnseen(c.processExit, path, key, value);
      StateView(c, d);
      SameViewVerdictIff(d, c, noise);
    }
  }

  // ---------------------------------------------------------------- are all hashes the same

  /** all_equal: there is a hash, and no two differ. */
  predicate AllEqual(values: seq<string>) {
    values != [] && forall i :: 0 <= i < |values| ==> values[i] == values[0]
  }

  method CheckAllEqual(values: seq<string>) returns (r: bool)
    ensures r == AllEqual(values)
  {
    if values == [] { return false; }
    var distinct := set v | v in values;
    if AllEqual(values) {
      assert distinct == {values[0]};
    } else {
      var i :| 0 <= i < |values| && values[i] != values[0];
      assert {values[0], values[i]} <= distinct;
      TwoMembers(distinct, values[0], values[i]);
    }
    r := |distinct| == 1;
  }

  lemma TwoMembers(s: set<string>, a: string, b: string)
    requires a in s && b in s && a != b
    ensures |s| >= 2
  {
    assert s == {a, b} + (s - {a, b});
    assert |{a, b}| == 2;
  }
}
