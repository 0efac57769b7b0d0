/**
 * Numbering by first use is a canonical form for renaming of resources.
 *
 * Two raw traces are alpha-equivalent when one-to-one renamings of descriptors, addresses and pids
 * carry the first to the second, everything else being equal. SameKeysIffRenamed is the main
 * result: the canonical events agree exactly for alpha-equivalent traces.
 */
module AlphaEquivalence {
  import opened Prelude
  import opened Canonical

  /** A partial renaming for each kind of resource. */
  datatype Renaming = Renaming(fd: map<int, int>, addr: map<int, int>, pid: map<int, int>) {
    function Of(kind: Kind): map<int, int> {
      match kind case Fd => fd case Addr => addr case Pid => pid
    }

    ghost predicate OneToOne() {
      Injective(fd) && Injective(addr) && Injective(pid)
    }
  }

  ghost predicate Injective(m: map<int, int>) {
    forall a, b :: a in m && b in m && m[a] == m[b] ==> a == b
  }

  // ---------------------------------------------------------------- one view is the other renamed

  ghost predicate RenamedSlot(r: Renaming, s: Slot, t: Slot) {
    match s
    case Literal(n) => t == s
    case Ref(kind, value) => t.Ref? && t.kind == kind && value in r.Of(kind) && r.Of(kind)[value] == t.value
  }

  ghost predicate RenamedSlots(r: Renaming, ss: seq<Slot>, ts: seq<Slot>) {
    |ss| == |ts| && forall i :: 0 <= i < |ss| ==> RenamedSlot(r, ss[i], ts[i])
  }

  ghost predicate RenamedOutput(r: Renaming, o: OutputView, p: OutputView) {
    && o.tag == p.tag && o.argIndex == p.argIndex && o.length == p.length
    && o.previewHex == p.previewHex && o.sha256 == p.sha256
    && (o.fds.Some? <==> p.fds.Some?)
    && (o.fds.Some? ==> RenamedSlots(r, o.fds.value, p.fds.value))
  }

  ghost predicate RenamedOutputs(r: Renaming, os: seq<OutputView>, ps: seq<OutputView>) {
    |os| == |ps| && forall i :: 0 <= i < |os| ==> RenamedOutput(r, os[i], ps[i])
  }

  ghost predicate RenamedEvent(r: Renaming, v: EventView, w: EventView) {
    && v.name == w.name && v.errno == w.errno
    && RenamedSlots(r, v.args, w.args) && RenamedSlot(r, v.ret, w.ret)
    && RenamedOutputs(r, v.outputs, w.outputs)
  }

  ghost predicate RenamedEvents(r: Renaming, vs: seq<EventView>, ws: seq<EventView>) {
    |vs| == |ws| && forall i :: 0 <= i < |vs| ==> RenamedEvent(r, vs[i], ws[i])
  }

  ghost predicate AlphaEquivalent(vs: seq<EventView>, ws: seq<EventView>) {
    exists r: Renaming :: r.OneToOne() && RenamedEvents(r, vs, ws)
  }

  // ---------------------------------------------------------------- contexts only grow

  /** Tokens of a kind carry that kind, lie below the dictionary's size, and are given out once. */
  ghost predicate WellNumberedMap(kind: Kind, m: map<int, Sym>) {
    && (forall v :: v in m ==> m[v].Tok? && m[v].kind == kind && m[v].id < |m|)
    && (forall v, w :: v in m && w in m && m[v] == m[w] ==> v == w)
  }

  ghost predicate WellNumbered(c: Context) {
    forall kind: Kind :: WellNumberedMap(kind, c.Of(kind))
  }

  ghost predicate MapGrows(m: map<int, Sym>, n: map<int, Sym>) {
    forall v :: v in m ==> v in n && n[v] == m[v]
  }

  ghost predicate Grows(c: Context, d: Context) {
    forall kind: Kind :: MapGrows(c.Of(kind), d.Of(kind))
  }

  lemma FreshTokenKeepsNumbering(kind: Kind, m: map<int, Sym>, value: int)
    requires WellNumberedMap(kind, m) && value !in m
    ensures WellNumberedMap(kind, m[value := Tok(kind, |m|)]) && MapGrows(m, m[value := Tok(kind, |m|)])
  {
    assert |m[value := Tok(kind, |m|)]| == |m| + 1;
  }

  lemma SlotGrows(s: Slot, c: Context)
    requires WellNumbered(c)
    ensures WellNumbered(AfterSlot(s, c)) && Grows(c, AfterSlot(s, c))
  {
    if s.Ref? && s.value !in c.Of(s.kind) {
      FreshTokenKeepsNumbering(s.kind, c.Of(s.kind), s.value);
      forall kind: Kind
        ensures WellNumberedMap(kind, AfterSlot(s, c).Of(kind)) && MapGrows(c.Of(kind), AfterSlot(s, c).Of(kind))
      {
        assert WellNumberedMap(kind, c.Of(kind));
      }
    }
  }

  lemma {:induction false} SlotsGrow(ss: seq<Slot>, c: Context)
    requires WellNumbered(c)
    ensures WellNumbered(AfterSlots(ss, c)) && Grows(c, AfterSlots(ss, c))
  {
    if ss != [] {
      SlotsGrow(ss[..|ss|-1], c);
      SlotGrows(ss[|ss|-1], AfterSlots(ss[..|ss|-1], c));
    }
  }

  lemma {:induction false} OutputsGrow(os: seq<OutputView>, c: Context)
    requires WellNumbered(c)
    ensures WellNumbered(AfterOutputs(os, c)) && Grows(c, AfterOutputs(os, c))
  {
    if os != [] {
      OutputsGrow(os[..|os|-1], c);
      var o := os[|os|-1];
      if o.fds.Some? { SlotsGrow(o.fds.value, AfterOutputs(os[..|os|-1], c)); }
    }
  }

  lemma EventGrows(v: EventView, c: Context)
    requires WellNumbered(c)
    ensures WellNumbered(AfterEvent(v, c)) && Grows(c, AfterEvent(v, c))
  {
    SlotsGrow(v.args, c);
    SlotGrows(v.ret, AfterSlots(v.args, c));
    OutputsGrow(v.outputs, AfterSlot(v.ret, AfterSlots(v.args, c)));
  }

  lemma {:induction false} EventsGrow(vs: seq<EventView>, c: Context)
    requires WellNumbered(c)
    ensures WellNumbered(AfterEvents(vs, c)) && Grows(c, AfterEvents(vs, c))
  {
    if vs != [] {
      EventsGrow(vs[..|vs|-1], c);
      EventGrows(vs[|vs|-1], AfterEvents(vs[..|vs|-1], c));
    }
  }

  // ---------------------------------------------------------------- symbols are those of the last context

  /** The symbol y is what the finished context f says about slot s. */
  ghost predicate Reads(f: Context, s: Slot, y: Sym) {
    match s
    case Literal(n) => y == Lit(n)
    case Ref(kind, value) => value in f.Of(kind) && f.Of(kind)[value] == y
  }

  ghost predicate ReadsSlots(f: Context, ss: seq<Slot>, ys: seq<Sym>) {
    |ss| == |ys| && forall i :: 0 <= i < |ss| ==> Reads(f, ss[i], ys[i])
  }

  ghost predicate ReadsOutput(f: Context, o: OutputView, p: CanonOutput) {
    && p == CanonOutput(o.tag, o.argIndex, o.length, o.previewHex, o.sha256, p.fds)
    && (o.fds.Some? <==> p.fds.Some?)
    && (o.fds.Some? ==> ReadsSlots(f, o.fds.value, p.fds.value))
  }

  ghost predicate ReadsEvent(f: Context, v: EventView, k: EventKey) {
    && k.name == v.name && k.errno == v.errno
    && ReadsSlots(f, v.args, k.args) && Reads(f, v.ret, k.ret)
    && |v.outputs| == |k.outputs|
    && forall i :: 0 <= i < |v.outputs| ==> ReadsOutput(f, v.outputs[i], k.outputs[i])
  }

  lemma {:induction false} SlotsRead(ss: seq<Slot>, c: Context, f: Context)
    requires WellNumbered(c) && Grows(AfterSlots(ss, c), f)
    ensures ReadsSlots(f, ss, NumberSlots(ss, c))
  {
    if ss != [] {
      var pre, s := ss[..|ss|-1], ss[|ss|-1];
      SlotsGrow(pre, c);
      SlotGrows(s, AfterSlots(pre, c));
      SlotsRead(pre, c, f);
      SlotReads(s, AfterSlots(pre, c), f);
    }
  }

  lemma {:induction false} OutputsRead(os: seq<OutputView>, c: Context, f: Context)
    requires WellNumbered(c) && Grows(AfterOutputs(os, c), f)
    ensures forall i :: 0 <= i < |os| ==> ReadsOutput(f, os[i], NumberOutputs(os, c)[i])
  {
    if os != [] {
      var pre, o := os[..|os|-1], os[|os|-1];
      var d := AfterOutputs(pre, c);
      OutputsGrow(pre, c);
      if o.fds.Some? {
        SlotsGrow(o.fds.value, d);
        SlotsRead(o.fds.value, d, f);
      }
      OutputsRead(pre, c, f);
    }
  }

  lemma EventReads(v: EventView, c: Context, f: Context)
    requires WellNumbered(c) && Grows(AfterEvent(v, c), f)
    ensures ReadsEvent(f, v, NumberEvent(v, c))
  {
    var c1 := AfterSlots(v.args, c);
    var c2 := AfterSlot(v.ret, c1);
    SlotsGrow(v.args, c);
    SlotGrows(v.ret, c1);
    OutputsGrow(v.outputs, c2);
    SlotsRead(v.args, c, f);
    OutputsRead(v.outputs, c2, f);
    SlotReads(v.ret, c1, f);
  }

  lemma SlotReads(s: Slot, c: Context, f: Context)
    requires Grows(AfterSlot(s, c), f)
    ensures Reads(f, s, NumberSlot(s, c))
  {
    if s.Ref? {
      assert MapGrows(AfterSlot(s, c).Of(s.kind), f.Of(s.kind));
      assert s.value in AfterSlot(s, c).Of(s.kind);
    }
  }

  lemma {:induction false} EventsRead(vs: seq<EventView>, c: Context, f: Context)
    requires WellNumbered(c) && Grows(AfterEvents(vs, c), f)
    ensures forall i :: 0 <= i < |vs| ==> ReadsEvent(f, vs[i], NumberEvents(vs, c)[i])
  {
    if vs != [] {
      var pre := vs[..|vs|-1];
      EventsGrow(pre, c);
      EventGrows(vs[|vs|-1], AfterEvents(pre, c));
      EventReads(vs[|vs|-1], AfterEvents(pre, c), f);
      EventsRead(pre, c, f);
    }
  }

  // ---------------------------------------------------------------- equal symbols give a renaming

  /** Sends each value to the one holding the same token on the other side. */
  ghost function Link(m: map<int, Sym>, n: map<int, Sym>): (r: map<int, int>)
    ensures forall a :: a in r <==> a in m && Held(n, m[a])
    ensures forall a :: a in r ==> r[a] in n && n[r[a]] == m[a]
  {
    map a | a in m && Held(n, m[a]) :: Holder(n, m[a])
  }

  ghost predicate Held(n: map<int, Sym>, y: Sym) {
    exists b :: b in n && n[b] == y
  }

  ghost function Holder(n: map<int, Sym>, y: Sym): (b: int)
    requires Held(n, y)
    ensures b in n && n[b] == y
  {
    var b :| b in n && n[b] == y; b
  }

  ghost function LinkContexts(f: Context, g: Context): Renaming {
    Renaming(Link(f.fd, g.fd), Link(f.addr, g.addr), Link(f.pid, g.pid))
  }

  lemma LinkRenamesSlots(f: Context, g: Context, ss: seq<Slot>, ts: seq<Slot>, ys: seq<Sym>)
    requires WellNumbered(f) && WellNumbered(g)
    requires ReadsSlots(f, ss, ys) && ReadsSlots(g, ts, ys)
    ensures RenamedSlots(LinkContexts(f, g), ss, ts)
  {
    forall i | 0 <= i < |ss| ensures RenamedSlot(LinkContexts(f, g), ss[i], ts[i]) {
      LinkRenamesSlot(f, g, ss[i], ts[i], ys[i]);
    }
  }

  lemma LinkRenamesSlot(f: Context, g: Context, s: Slot, t: Slot, y: Sym)
    requires WellNumbered(f) && WellNumbered(g)
    requires Reads(f, s, y) && Reads(g, t, y)
    ensures RenamedSlot(LinkContexts(f, g), s, t)
  {
    match s {
      case Literal(_) =>
        assert WellNumberedMap(if t.Ref? then t.kind else Fd, g.Of(if t.Ref? then t.kind else Fd));
      case Ref(kind, value) =>
        assert WellNumberedMap(kind, f.Of(kind));
        assert t.Ref? && WellNumberedMap(t.kind, g.Of(t.kind));
        assert Held(g.Of(kind), y);
        assert LinkContexts(f, g).Of(kind) == Link(f.Of(kind), g.Of(kind));
    }
  }

  lemma LinkIsOneToOne(f: Context, g: Context)
    requires WellNumbered(f)
    ensures LinkContexts(f, g).OneToOne()
  {
    assert WellNumberedMap(Fd, f.Of(Fd)) && WellNumberedMap(Addr, f.Of(Addr)) && WellNumberedMap(Pid, f.Of(Pid));
    LinkIsInjective(Fd, f.fd, g.fd);
    LinkIsInjective(Addr, f.addr, g.addr);
    LinkIsInjective(Pid, f.pid, g.pid);
  }

  lemma LinkIsInjective(kind: Kind, m: map<int, Sym>, n: map<int, Sym>)
    requires WellNumberedMap(kind, m)
    ensures Injective(Link(m, n))
  {
    forall a, b | a in Link(m, n) && b in Link(m, n) && Link(m, n)[a] == Link(m, n)[b] ensures a == b {
      assert m[a] == m[b];
    }
  }

  lemma SameKeysAreRenamed(vs: seq<EventView>, ws: seq<EventView>)
    requires NumberEvents(vs, NO_TOKENS) == NumberEvents(ws, NO_TOKENS)
    ensures AlphaEquivalent(vs, ws)
  {
    var f, g := AfterEvents(vs, NO_TOKENS), AfterEvents(ws, NO_TOKENS);
    EventsGrow(vs, NO_TOKENS);
    EventsGrow(ws, NO_TOKENS);
    EventsRead(vs, NO_TOKENS, f);
    EventsRead(ws, NO_TOKENS, g);
    LinkIsOneToOne(f, g);
    var r := LinkContexts(f, g);
    forall i | 0 <= i < |vs| ensures RenamedEvent(r, vs[i], ws[i]) {
      var k := NumberEvents(vs, NO_TOKENS)[i];
      assert ReadsEvent(f, vs[i], k) && ReadsEvent(g, ws[i], k);
      LinkRenamesSlots(f, g, vs[i].args, ws[i].args, k.args);
      LinkRenamesSlot(f, g, vs[i].ret, ws[i].ret, k.ret);
      forall j | 0 <= j < |vs[i].outputs| ensures RenamedOutput(r, vs[i].outputs[j], ws[i].outputs[j]) {
        assert ReadsOutput(f, vs[i].outputs[j], k.outputs[j]) && ReadsOutput(g, ws[i].outputs[j], k.outputs[j]);
        if k.outputs[j].fds.Some? {
          LinkRenamesSlots(f, g, vs[i].outputs[j].fds.value, ws[i].outputs[j].fds.value, k.outputs[j].fds.value);
        }
      }
    }
  }

  // ---------------------------------------------------------------- a renaming gives equal symbols

  /** Two contexts in step: the same number of tokens, and renamed values hold the same token. */
  ghost predicate MapsInStep(r: map<int, int>, m: map<int, Sym>, n: map<int, Sym>) {
    && |m| == |n|
    && forall a :: a in r ==> (a in m <==> r[a] in n) && (a in m ==> m[a] == n[r[a]])
  }

  ghost predicate InStep(r: Renaming, c: Context, d: Context) {
    forall kind: Kind :: MapsInStep(r.Of(kind), c.Of(kind), d.Of(kind))
  }

  lemma SlotInStep(r: Renaming, s: Slot, t: Slot, c: Context, d: Context)
    requires r.OneToOne() && RenamedSlot(r, s, t) && InStep(r, c, d)
    ensures NumberSlot(s, c) == NumberSlot(t, d)
    ensures InStep(r, AfterSlot(s, c), AfterSlot(t, d))
  {
    if s.Ref? {
      assert MapsInStep(r.Of(s.kind), c.Of(s.kind), d.Of(s.kind));
      if s.value !in c.Of(s.kind) {
        FreshTokensStayInStep(r.Of(s.kind), c.Of(s.kind), d.Of(s.kind), s.value, Tok(s.kind, |c.Of(s.kind)|));
        forall kind: Kind
          ensures MapsInStep(r.Of(kind), AfterSlot(s, c).Of(kind), AfterSlot(t, d).Of(kind))
        {
          assert MapsInStep(r.Of(kind), c.Of(kind), d.Of(kind));
        }
      }
    }
  }

  lemma FreshTokensStayInStep(r: map<int, int>, m: map<int, Sym>, n: map<int, Sym>, a: int, y: Sym)
    requires Injective(r)
    requires MapsInStep(r, m, n) && a in r && a !in m
    ensures MapsInStep(r, m[a := y], n[r[a] := y])
  {
    assert |m[a := y]| == |m| + 1 && |n[r[a] := y]| == |n| + 1;
  }

  lemma {:induction false} SlotsInStep(r: Renaming, ss: seq<Slot>, ts: seq<Slot>, c: Context, d: Context)
    requires r.OneToOne() && RenamedSlots(r, ss, ts) && InStep(r, c, d)
    ensures NumberSlots(ss, c) == NumberSlots(ts, d)
    ensures InStep(r, AfterSlots(ss, c), AfterSlots(ts, d))
  {
    if ss != [] {
      var n := |ss| - 1;
      SlotsInStep(r, ss[..n], ts[..n], c, d);
      SlotInStep(r, ss[n], ts[n], AfterSlots(ss[..n], c), AfterSlots(ts[..n], d));
    }
  }

  lemma {:induction false} OutputsInStep(r: Renaming, os: seq<OutputView>, ps: seq<OutputView>, c: Context, d: Context)
    requires r.OneToOne() && RenamedOutputs(r, os, ps) && InStep(r, c, d)
    ensures NumberOutputs(os, c) == NumberOutputs(ps, d)
    ensures InStep(r, AfterOutputs(os, c), AfterOutputs(ps, d))
  {
    if os != [] {
      var n := |os| - 1;
      OutputsInStep(r, os[..n], ps[..n], c, d);
      assert RenamedOutput(r, os[n], ps[n]);
      if os[n].fds.Some? {
        SlotsInStep(r, os[n].fds.value, ps[n].fds.value, AfterOutputs(os[..n], c), AfterOutputs(ps[..n], d));
      }
    }
  }

  lemma EventInStep(r: Renaming, v: EventView, w: EventView, c: Context, d: Context)
    requires r.OneToOne() && RenamedEvent(r, v, w) && InStep(r, c, d)
    ensures NumberEvent(v, c) == NumberEvent(w, d)
    ensures InStep(r, AfterEvent(v, c), AfterEvent(w, d))
  {
    SlotsInStep(r, v.args, w.args, c, d);
    var c1, d1 := AfterSlots(v.args, c), AfterSlots(w.args, d);
    SlotInStep(r, v.ret, w.ret, c1, d1);
    OutputsInStep(r, v.outputs, w.outputs, AfterSlot(v.ret, c1), AfterSlot(w.ret, d1));
  }

  lemma {:induction false} EventsInStep(r: Renaming, vs: seq<EventView>, ws: seq<EventView>, c: Context, d: Context)
    requires r.OneToOne() && RenamedEvents(r, vs, ws) && InStep(r, c, d)
    ensures NumberEvents(vs, c) == NumberEvents(ws, d)
    ensures InStep(r, AfterEvents(vs, c), AfterEvents(ws, d))
  {
    if vs != [] {
      var n := |vs| - 1;
      EventsInStep(r, vs[..n], ws[..n], c, d);
      EventInStep(r, vs[n], ws[n], AfterEvents(vs[..n], c), AfterEvents(ws[..n], d));
    }
  }

  // ---------------------------------------------------------------- the canonical form

  lemma SameKeysIffRenamed(vs: seq<EventView>, ws: seq<EventView>)
    ensures NumberEvents(vs, NO_TOKENS) == NumberEvents(ws, NO_TOKENS) <==> AlphaEquivalent(vs, ws)
  {
    if AlphaEquivalent(vs, ws) {
      var r: Renaming :| r.OneToOne() && RenamedEvents(r, vs, ws);
      EventsInStep(r, vs, ws, NO_TOKENS, NO_TOKENS);
    }
    if NumberEvents(vs, NO_TOKENS) == NumberEvents(ws, NO_TOKENS) {
      SameKeysAreRenamed(vs, ws);
    }
  }

  /** Being equal up to renaming is symmetric and transitive, since having equal symbols is. */
  lemma AlphaEquivalenceIsAnEquivalence(us: seq<EventView>, vs: seq<EventView>, ws: seq<EventView>)
    ensures AlphaEquivalent(us, us)
    ensures AlphaEquivalent(us, vs) ==> AlphaEquivalent(vs, us)
    ensures AlphaEquivalent(us, vs) && AlphaEquivalent(vs, ws) ==> AlphaEquivalent(us, ws)
  {
    SameKeysIffRenamed(us, us);
    SameKeysIffRenamed(us, vs);
    SameKeysIffRenamed(vs, us);
    SameKeysIffRenamed(vs, ws);
    SameKeysIffRenamed(us, ws);
  }
}
