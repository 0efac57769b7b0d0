/**
 * What the comparator's verdict means for raw traces when noise calls are configured: their results
 * are not compared, but the resources in them are numbered all the same.
 */
module NoisyComparison {
  import opened Prelude
  import opened PyValues
  import opened Canonical
  import opened AlphaEquivalence
  import opened Compare
  import opened RawRenaming
  import opened FirstUse

  function EraseKey(k: EventKey, noise: set<string>): EventKey {
    if k.name in noise then k.(ret := Lit(0), errno := 0) else k
  }

  /** Renamed resources have the same number in the order of first use, counting all that a trace mentions. */
  ghost predicate KeepsNumbers(r: Renaming, vs: seq<EventView>, ws: seq<EventView>) {
    var f, g := AfterEvents(vs, NO_TOKENS), AfterEvents(ws, NO_TOKENS);
    forall kind: Kind, x: int :: x in r.Of(kind) ==> NumberKept(r.Of(kind), f.Of(kind), g.Of(kind), x)
  }

  ghost predicate NumberKept(m: map<int, int>, f: map<int, Sym>, g: map<int, Sym>, x: int) {
    x in m && x in f && m[x] in g && f[x] == g[m[x]]
  }

  /** The traces are renamings of each other but for the results of noise calls, and keep the numbers. */
  ghost predicate SameUpToNoise(vs: seq<EventView>, ws: seq<EventView>, noise: set<string>) {
    exists r: Renaming :: r.OneToOne() && KeepsNumbers(r, vs, ws)
      && RenamedEvents(r, EraseViews(vs, noise), EraseViews(ws, noise))
  }

  lemma ErasedIsRead(f: Context, v: EventView, k: EventKey, noise: set<string>)
    requires ReadsEvent(f, v, k)
    ensures ReadsEvent(f, EraseView(v, noise), EraseKey(k, noise))
  {
  }

  /** What a finished context reads off related slots is the same symbol. */
  lemma SameSymbol(r: Renaming, f: Context, g: Context, s: Slot, t: Slot, y: Sym, z: Sym)
    requires RenamedSlot(r, s, t) && Reads(f, s, y) && Reads(g, t, z)
    requires forall kind: Kind, x: int :: x in r.Of(kind) ==> NumberKept(r.Of(kind), f.Of(kind), g.Of(kind), x)
    ensures y == z
  {
    if s.Ref? {
      assert NumberKept(r.Of(s.kind), f.Of(s.kind), g.Of(s.kind), s.value);
    }
  }

  lemma SameSymbols(r: Renaming, f: Context, g: Context, ss: seq<Slot>, ts: seq<Slot>, ys: seq<Sym>, zs: seq<Sym>)
    requires RenamedSlots(r, ss, ts) && ReadsSlots(f, ss, ys) && ReadsSlots(g, ts, zs)
    requires forall kind: Kind, x: int :: x in r.Of(kind) ==> NumberKept(r.Of(kind), f.Of(kind), g.Of(kind), x)
    ensures ys == zs
  {
    forall i | 0 <= i < |ys| ensures ys[i] == zs[i] { SameSymbol(r, f, g, ss[i], ts[i], ys[i], zs[i]); }
  }

  lemma SameOutputs(r: Renaming, f: Context, g: Context, v: EventView, w: EventView, k: EventKey, l: EventKey)
    requires RenamedOutputs(r, v.outputs, w.outputs) && ReadsEvent(f, v, k) && ReadsEvent(g, w, l)
    requires forall kind: Kind, x: int :: x in r.Of(kind) ==> NumberKept(r.Of(kind), f.Of(kind), g.Of(kind), x)
    ensures k.outputs == l.outputs
  {
    forall i | 0 <= i < |k.outputs| ensures k.outputs[i] == l.outputs[i] {
      assert RenamedOutput(r, v.outputs[i], w.outputs[i]);
      assert ReadsOutput(f, v.outputs[i], k.outputs[i]) && ReadsOutput(g, w.outputs[i], l.outputs[i]);
      if k.outputs[i].fds.Some? {
        SameSymbols(r, f, g, v.outputs[i].fds.value, w.outputs[i].fds.value, k.outputs[i].fds.value, l.outputs[i].fds.value);
      }
    }
  }

  lemma SameKey(r: Renaming, f: Context, g: Context, v: EventView, w: EventView, k: EventKey, l: EventKey)
    requires RenamedEvent(r, v, w) && ReadsEvent(f, v, k) && ReadsEvent(g, w, l)
    requires forall kind: Kind, x: int :: x in r.Of(kind) ==> NumberKept(r.Of(kind), f.Of(kind), g.Of(kind), x)
    ensures k == l
  {
    SameSymbols(r, f, g, v.args, w.args, k.args, l.args);
    SameSymbol(r, f, g, v.ret, w.ret, k.ret, l.ret);
    SameOutputs(r, f, g, v, w, k, l);
  }

  lemma LinkKept(f: map<int, Sym>, g: map<int, Sym>, x: int)
    requires x in Link(f, g)
    ensures NumberKept(Link(f, g), f, g, x)
  {
  }

  lemma LinkKeptOf(f: Context, g: Context, kind: Kind, x: int)
    requires x in LinkContexts(f, g).Of(kind)
    ensures NumberKept(LinkContexts(f, g).Of(kind), f.Of(kind), g.Of(kind), x)
  {
    hide Link, NumberKept;
    assert LinkContexts(f, g).Of(kind) == Link(f.Of(kind), g.Of(kind));
    LinkKept(f.Of(kind), g.Of(kind), x);
  }

  lemma LinkKeepsNumbers(vs: seq<EventView>, ws: seq<EventView>)
    ensures KeepsNumbers(LinkContexts(AfterEvents(vs, NO_TOKENS), AfterEvents(ws, NO_TOKENS)), vs, ws)
  {
    hide AfterEvents, Link, LinkContexts, NumberKept;
    var f, g := AfterEvents(vs, NO_TOKENS), AfterEvents(ws, NO_TOKENS);
    forall kind: Kind, x: int | x in LinkContexts(f, g).Of(kind)
      ensures NumberKept(LinkContexts(f, g).Of(kind), f.Of(kind), g.Of(kind), x)
    {
      LinkKeptOf(f, g, kind, x);
    }
  }

  lemma LinkRenamesEvent(f: Context, g: Context, v: EventView, w: EventView, k: EventKey)
    requires WellNumbered(f) && WellNumbered(g) && ReadsEvent(f, v, k) && ReadsEvent(g, w, k)
    ensures RenamedEvent(LinkContexts(f, g), v, w)
  {
    LinkRenamesSlots(f, g, v.args, w.args, k.args);
    LinkRenamesSlot(f, g, v.ret, w.ret, k.ret);
    forall j | 0 <= j < |v.outputs| ensures RenamedOutput(LinkContexts(f, g), v.outputs[j], w.outputs[j]) {
      assert ReadsOutput(f, v.outputs[j], k.outputs[j]) && ReadsOutput(g, w.outputs[j], k.outputs[j]);
      if k.outputs[j].fds.Some? {
        LinkRenamesSlots(f, g, v.outputs[j].fds.value, w.outputs[j].fds.value, k.outputs[j].fds.value);
      }
    }
  }

  /** The symbols agree but for the results of noise calls. */
  ghost predicate SameErasedKeys(vs: seq<EventView>, ws: seq<EventView>, noise: set<string>) {
    |vs| == |ws| && forall i :: 0 <= i < |vs| ==>
      EraseKey(NumberEvents(vs, NO_TOKENS)[i], noise) == EraseKey(NumberEvents(ws, NO_TOKENS)[i], noise)
  }

  /** That is so exactly for traces that are the same up to noise. */
  lemma SameErasedKeysIff(vs: seq<EventView>, ws: seq<EventView>, noise: set<string>)
    ensures SameErasedKeys(vs, ws, noise) <==> SameUpToNoise(vs, ws, noise)
  {
    hide ReadsEvent, RenamedEvent, LinkContexts, EraseView, EraseKey, KeepsNumbers, NumberEvents, AfterEvents;
    var f, g := AfterEvents(vs, NO_TOKENS), AfterEvents(ws, NO_TOKENS);
    EventsGrow(vs, NO_TOKENS);
    EventsGrow(ws, NO_TOKENS);
    EventsRead(vs, NO_TOKENS, f);
    EventsRead(ws, NO_TOKENS, g);
    var p, q := EraseViews(vs, noise), EraseViews(ws, noise);
    if SameErasedKeys(vs, ws, noise) {
      LinkIsOneToOne(f, g);
      LinkKeepsNumbers(vs, ws);
      forall i | 0 <= i < |vs| ensures RenamedEvent(LinkContexts(f, g), p[i], q[i]) {
        ErasedIsRead(f, vs[i], NumberEvents(vs, NO_TOKENS)[i], noise);
        ErasedIsRead(g, ws[i], NumberEvents(ws, NO_TOKENS)[i], noise);
        LinkRenamesEvent(f, g, p[i], q[i], EraseKey(NumberEvents(vs, NO_TOKENS)[i], noise));
      }
      assert RenamedEvents(LinkContexts(f, g), p, q);
    }
    if SameUpToNoise(vs, ws, noise) {
      var r: Renaming :| r.OneToOne() && KeepsNumbers(r, vs, ws) && RenamedEvents(r, p, q);
      forall i | 0 <= i < |vs|
        ensures EraseKey(NumberEvents(vs, NO_TOKENS)[i], noise) == EraseKey(NumberEvents(ws, NO_TOKENS)[i], noise)
      {
        assert p[i] == EraseView(vs[i], noise) && q[i] == EraseView(ws[i], noise) && RenamedEvent(r, p[i], q[i]);
        KeysAgree(r, vs, ws, i, noise);
      }
    }
  }

  lemma KeysAgree(r: Renaming, vs: seq<EventView>, ws: seq<EventView>, i: nat, noise: set<string>)
    requires KeepsNumbers(r, vs, ws) && |vs| == |ws| && i < |vs|
    requires RenamedEvent(r, EraseView(vs[i], noise), EraseView(ws[i], noise))
    requires ReadsEvent(AfterEvents(vs, NO_TOKENS), vs[i], NumberEvents(vs, NO_TOKENS)[i])
    requires ReadsEvent(AfterEvents(ws, NO_TOKENS), ws[i], NumberEvents(ws, NO_TOKENS)[i])
    ensures EraseKey(NumberEvents(vs, NO_TOKENS)[i], noise) == EraseKey(NumberEvents(ws, NO_TOKENS)[i], noise)
  {
    hide ReadsEvent, RenamedEvent, NumberEvents, AfterEvents;
    var f, g := AfterEvents(vs, NO_TOKENS), AfterEvents(ws, NO_TOKENS);
    var k, l := NumberEvents(vs, NO_TOKENS)[i], NumberEvents(ws, NO_TOKENS)[i];
    ErasedIsRead(f, vs[i], k, noise);
    ErasedIsRead(g, ws[i], l, noise);
    SameKey(r, f, g, EraseView(vs[i], noise), EraseView(ws[i], noise), EraseKey(k, noise), EraseKey(l, noise));
  }

  ghost predicate SameTracesUpToNoise(a: RawTrace, sa: PyValue, b: RawTrace, sb: PyValue, noise: set<string>) {
    SameRawUpToNoise(a.events, b.events, noise) && sa == sb && a.processExit == b.processExit
  }

  /** The same, said of the raw traces. */
  ghost predicate SameRawUpToNoise(a: seq<RawEvent>, b: seq<RawEvent>, noise: set<string>) {
    exists r: Renaming :: r.OneToOne() && SameNumbers(r, a, b) && SameRawEvents(r, a, b, noise)
  }

  lemma KeptIsSame(f: Context, g: Context, m: map<int, int>, kind: Kind, x: int, ms: seq<Resource>, ns: seq<Resource>)
    requires Counted(f, ms) && Counted(g, ns) && x in m
    ensures NumberKept(m, f.Of(kind), g.Of(kind), x) <==> SameNumber(Resource(kind, x), Resource(kind, m[x]), ms, ns)
  {
    hide Counted, SameNumber;
    SameNumberIff(f, g, Resource(kind, x), Resource(kind, m[x]), ms, ns);
  }

  lemma KeepsNumbersIsRaw(r: Renaming, a: seq<RawEvent>, b: seq<RawEvent>)
    ensures KeepsNumbers(r, ViewEvents(a), ViewEvents(b)) <==> SameNumbers(r, a, b)
  {
    hide Counted, SameNumber, NumberKept, AfterEvents, Mentions;
    var f, g := AfterEvents(ViewEvents(a), NO_TOKENS), AfterEvents(ViewEvents(b), NO_TOKENS);
    EventsAreCounted(a);
    EventsAreCounted(b);
    forall kind: Kind, x: int | x in r.Of(kind)
      ensures NumberKept(r.Of(kind), f.Of(kind), g.Of(kind), x) <==>
        SameNumber(Resource(kind, x), Resource(kind, r.Of(kind)[x]), Mentions(a), Mentions(b))
    {
      KeptIsSame(f, g, r.Of(kind), kind, x, Mentions(a), Mentions(b));
    }
  }

  lemma SameUpToNoiseIsRaw(a: seq<RawEvent>, b: seq<RawEvent>, noise: set<string>)
    ensures SameUpToNoise(ViewEvents(a), ViewEvents(b), noise) <==> SameRawUpToNoise(a, b, noise)
  {
    hide KeepsNumbers, SameNumbers, RenamedEvents, SameRawEvents, EraseViews;
    var vs, ws := ViewEvents(a), ViewEvents(b);
    forall r: Renaming
      ensures RenamedEvents(r, EraseViews(vs, noise), EraseViews(ws, noise)) <==> SameRawEvents(r, a, b, noise)
      ensures KeepsNumbers(r, vs, ws) <==> SameNumbers(r, a, b)
    {
      EventsAre(r, a, b, noise);
      KeepsNumbersIsRaw(r, a, b);
    }
  }

  /** The verdict with any noise calls: equivalent exactly for raw traces that are the same up to noise. */
  lemma EquivalentIffSameUpToNoise(a: RawTrace, sa: PyValue, ca: CanonTrace, b: RawTrace, sb: PyValue, cb: CanonTrace,
                                   noise: set<string>)
    requires CanonicalOf(ca, a, sa) && CanonicalOf(cb, b, sb)
    ensures Verdict(ca, cb, noise).equivalent <==> SameTracesUpToNoise(a, sa, b, sb, noise)
  {
    hide Verdict, SameUpToNoise, SameRawUpToNoise, NumberEvents;
    SameUpToNoiseIsRaw(a.events, b.events, noise);
    var vs, ws := ViewEvents(a.events), ViewEvents(b.events);
    EquivalentIffErasedEqual(ca, cb, noise);
    SameErasedKeysIff(vs, ws, noise);
    assert |ca.events| == |KeysOf(ca.events)| == |vs| && |cb.events| == |KeysOf(cb.events)| == |ws|;
    if |vs| == |ws| {
      forall i | 0 <= i < |vs| ensures AgreeAt(ca.events, cb.events, noise, i) <==>
        EraseKey(NumberEvents(vs, NO_TOKENS)[i], noise) == EraseKey(NumberEvents(ws, NO_TOKENS)[i], noise)
      {
        assert KeyOf(ca.events[i]) == KeysOf(ca.events)[i] && KeyOf(cb.events[i]) == KeysOf(cb.events)[i];
      }
    }
  }

  /** The pipeline with the configured noise calls. */
  method CompareRawUpToNoise(a: RawTrace, sa: PyValue, b: RawTrace, sb: PyValue, noise: set<string>) returns (r: Result<bool>)
    ensures r.Ok? <==> IndexesIncrease(a.events) && IndexesIncrease(b.events)
    ensures r.Ok? ==> (r.value <==> SameTracesUpToNoise(a, sa, b, sb, noise))
  {
    var ca := Canonicalize(a, sa);
    if ca.Err? { return Err(ca.message); }
    var cb := Canonicalize(b, sb);
    if cb.Err? { return Err(cb.message); }
    var verdict := CompareCanonical(ca.value, cb.value, noise);
    EquivalentIffSameUpToNoise(a, sa, ca.value, b, sb, cb.value, noise);
    return Ok(verdict.equivalent);
  }

  // ---------------------------------------------------------------- noise that is not ignored

  /** A call without arguments and outputs that returned a mapped address, or failed. */
  function Mapped(name: string, address: int): EventView { EventView(name, [], Ref(Addr, address), 0, []) }

  function Failed(name: string, errno: int): EventView { EventView(name, [], Literal(-1), errno, []) }

  lemma TwoKeys(v: EventView, w: EventView)
    ensures NumberEvents([v, w], NO_TOKENS) == [NumberEvent(v, NO_TOKENS), NumberEvent(w, AfterEvent(v, NO_TOKENS))]
  {
    assert [v, w][..1] == [v] && [v][..0] == [];
    assert NumberEvents([v], NO_TOKENS) == [] + [NumberEvent(v, NO_TOKENS)];
  }

  /**
   * The failing input: a noise call that fails on one side only takes no number there, so every address
   * after it has another number. Renaming makes the traces equal up to noise, and the comparator does not.
   */
  lemma FailingNoiseShiftsNumbers(noise: set<string>, call: string, next: string, x: int, y: int, errno: int)
    requires call in noise && next !in noise && x != y
    ensures var vs, ws := [Mapped(call, x), Mapped(next, y)], [Failed(call, errno), Mapped(next, y)];
      && AlphaEquivalent(EraseViews(vs, noise), EraseViews(ws, noise))
      && !SameUpToNoise(vs, ws, noise)
  {
    var vs, ws := [Mapped(call, x), Mapped(next, y)], [Failed(call, errno), Mapped(next, y)];
    var r := Renaming(map[], map[y := y], map[]);
    var p, q := EraseViews(vs, noise), EraseViews(ws, noise);
    assert p[0] == q[0] && p[1] == q[1] == Mapped(next, y);
    assert r.OneToOne() && RenamedEvents(r, p, q);
    TwoKeys(vs[0], vs[1]);
    TwoKeys(ws[0], ws[1]);
    SecondNumber(call, next, x, y, errno);
    SameErasedKeysIff(vs, ws, noise);
    assert !SameErasedKeys(vs, ws, noise) by {
      assert EraseKey(NumberEvents(vs, NO_TOKENS)[1], noise) != EraseKey(NumberEvents(ws, NO_TOKENS)[1], noise);
    }
  }

  lemma SecondNumber(call: string, next: string, x: int, y: int, errno: int)
    requires x != y
    ensures NumberEvent(Mapped(next, y), AfterEvent(Mapped(call, x), NO_TOKENS)).ret == Tok(Addr, 1)
    ensures NumberEvent(Mapped(next, y), AfterEvent(Failed(call, errno), NO_TOKENS)).ret == Tok(Addr, 0)
  {
  }
}
