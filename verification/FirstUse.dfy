/**
 * The numbers that the canonicalizer gives, said of the raw trace: a resource has the number of others of
 * its kind that are mentioned before it, and an event mentions its arguments first, then its result and
 * at last the descriptors in its outputs.
 */
module FirstUse {
  import opened Prelude
  import opened Canonical
  import opened AlphaEquivalence
  import opened RawRenaming

  datatype Resource = Resource(kind: Kind, value: int)

  function Mention(letter: char, value: int): seq<Resource> {
    if Names(letter, value) then [Resource(KindFor(letter), value)] else []
  }

  function ArgMentions(name: string, args: seq<int>): seq<Resource> {
    if args == [] then []
    else var n := |args| - 1; ArgMentions(name, args[..n]) + Mention(Letter(name, n), args[n])
  }

  function FdMentions(values: seq<int>): seq<Resource> {
    if values == [] then [] else FdMentions(values[..|values|-1]) + [Resource(Fd, values[|values|-1])]
  }

  function OutputMention(o: RawOutput): seq<Resource> { if o.fds.Some? then FdMentions(o.fds.value) else [] }

  function OutputMentions(outputs: seq<RawOutput>): seq<Resource> {
    if outputs == [] then [] else OutputMentions(outputs[..|outputs|-1]) + OutputMention(outputs[|outputs|-1])
  }

  function EventMentions(e: RawEvent): seq<Resource> {
    ArgMentions(e.name, e.args) + Mention(SignatureOf(e.name).ret, e.ret) + OutputMentions(e.outputs)
  }

  function Mentions(es: seq<RawEvent>): seq<Resource> {
    if es == [] then [] else Mentions(es[..|es|-1]) + EventMentions(es[|es|-1])
  }

  /** The resources of a kind that were mentioned. */
  function Seen(kind: Kind, ms: seq<Resource>): set<Resource> { set m | m in ms && m.kind == kind }

  /** How many resources of its kind are mentioned before a mentioned one. */
  function NumberOf(m: Resource, ms: seq<Resource>): nat {
    if ms == [] then 0
    else var before := ms[..|ms|-1];
      if m == ms[|ms|-1] && m !in before then |Seen(m.kind, before)| else NumberOf(m, before)
  }

  /** The dictionaries hold just the mentioned resources under their numbers. */
  ghost predicate Counted(c: Context, ms: seq<Resource>) {
    && (forall m: Resource :: m.value in c.Of(m.kind) <==> m in ms)
    && (forall kind: Kind :: |c.Of(kind)| == |Seen(kind, ms)|)
    && forall m: Resource :: m in ms ==> c.Of(m.kind)[m.value] == Tok(m.kind, NumberOf(m, ms))
  }

  // ---------------------------------------------------------------- the contexts count mentions

  lemma NothingCounted()
    ensures Counted(NO_TOKENS, [])
  {
    forall kind: Kind ensures |NO_TOKENS.Of(kind)| == |Seen(kind, [])| {
      assert Seen(kind, []) == {};
    }
  }

  lemma AnotherNumber(ms: seq<Resource>, n: Resource, m: Resource)
    requires m in ms + [n]
    ensures NumberOf(m, ms + [n]) == if m in ms then NumberOf(m, ms) else |Seen(m.kind, ms)|
  {
    assert (ms + [n])[..|ms|] == ms;
  }

  lemma AnotherSeen(kind: Kind, ms: seq<Resource>, n: Resource)
    ensures |Seen(kind, ms + [n])| == |Seen(kind, ms)| + if n.kind == kind && n !in ms then 1 else 0
  {
    if n.kind == kind && n !in ms {
      assert Seen(kind, ms + [n]) == Seen(kind, ms) + {n};
    } else {
      assert Seen(kind, ms + [n]) == Seen(kind, ms);
    }
  }

  lemma RememberedOf(c: Context, n: Resource, kind: Kind)
    ensures Remember(c, n.kind, n.value).Of(kind) ==
      if kind == n.kind && n.value !in c.Of(kind) then c.Of(kind)[n.value := Tok(kind, |c.Of(kind)|)] else c.Of(kind)
  {
  }

  lemma ResourceIsCounted(c: Context, ms: seq<Resource>, n: Resource, m: Resource)
    requires Counted(c, ms)
    ensures var d := Remember(c, n.kind, n.value).Of(m.kind);
      && (m.value in d <==> m in ms + [n])
      && (m in ms + [n] ==> d[m.value] == Tok(m.kind, NumberOf(m, ms + [n])))
  {
    hide NumberOf, Seen, Remember;
    RememberedOf(c, n, m.kind);
    assert m.value in c.Of(m.kind) <==> m in ms;
    if m in ms + [n] { AnotherNumber(ms, n, m); }
  }

  lemma RememberedIsCounted(c: Context, ms: seq<Resource>, n: Resource)
    requires Counted(c, ms)
    ensures Counted(Remember(c, n.kind, n.value), ms + [n])
  {
    hide NumberOf, Seen, Remember;
    forall kind: Kind ensures |Remember(c, n.kind, n.value).Of(kind)| == |Seen(kind, ms + [n])| {
      RememberedOf(c, n, kind);
      assert n.value in c.Of(n.kind) <==> n in ms;
      AnotherSeen(kind, ms, n);
    }
    forall m: Resource
      ensures m.value in Remember(c, n.kind, n.value).Of(m.kind) <==> m in ms + [n]
      ensures m in ms + [n] ==> Remember(c, n.kind, n.value).Of(m.kind)[m.value] == Tok(m.kind, NumberOf(m, ms + [n]))
    {
      ResourceIsCounted(c, ms, n, m);
    }
  }

  lemma SlotIsCounted(c: Context, ms: seq<Resource>, s: Slot, letter: char, x: int)
    requires Counted(c, ms) && s == (if Names(letter, x) then Ref(KindFor(letter), x) else Literal(x))
    ensures Counted(AfterSlot(s, c), ms + Mention(letter, x))
  {
    hide Counted;
    if s.Ref? {
      RememberedIsCounted(c, ms, Resource(s.kind, x));
    } else {
      assert ms + [] == ms;
    }
  }

  lemma {:induction false} ArgsAreCounted(c: Context, ms: seq<Resource>, name: string, args: seq<int>)
    requires Counted(c, ms)
    ensures Counted(AfterSlots(ArgSlots(name, args), c), ms + ArgMentions(name, args))
  {
    hide Counted, Letter, ScalarSlot, ArgKind, Mention, AfterSlot;
    var slots := ArgSlots(name, args);
    if args == [] {
      assert ms + [] == ms;
    } else {
      var n := |args| - 1;
      ArgsAreCounted(c, ms, name, args[..n]);
      assert slots[..n] == ArgSlots(name, args[..n]);
      ArgSlotIs(name, n, args[n]);
      SlotIsCounted(AfterSlots(slots[..n], c), ms + ArgMentions(name, args[..n]), slots[n], Letter(name, n), args[n]);
      assert ms + ArgMentions(name, args) == ms + ArgMentions(name, args[..n]) + Mention(Letter(name, n), args[n]);
    }
  }

  lemma {:induction false} FdsAreCounted(c: Context, ms: seq<Resource>, values: seq<int>)
    requires Counted(c, ms)
    ensures Counted(AfterSlots(FdSlots(values), c), ms + FdMentions(values))
  {
    hide Counted;
    var slots := FdSlots(values);
    if values == [] {
      assert ms + [] == ms;
    } else {
      var n := |values| - 1;
      FdsAreCounted(c, ms, values[..n]);
      assert slots[..n] == FdSlots(values[..n]);
      RememberedIsCounted(AfterSlots(slots[..n], c), ms + FdMentions(values[..n]), Resource(Fd, values[n]));
      assert ms + FdMentions(values) == ms + FdMentions(values[..n]) + [Resource(Fd, values[n])];
    }
  }

  lemma OutputIsCounted(c: Context, ms: seq<Resource>, o: RawOutput)
    requires Counted(c, ms)
    ensures Counted(AfterOutput(ViewOutput(o), c), ms + OutputMention(o))
  {
    hide Counted, FdSlots, FdMentions, MaskedPreview;
    if o.fds.Some? {
      FdsAreCounted(c, ms, o.fds.value);
    } else {
      assert ms + [] == ms;
    }
  }

  lemma {:induction false} OutputsAreCounted(c: Context, ms: seq<Resource>, outputs: seq<RawOutput>)
    requires Counted(c, ms)
    ensures Counted(AfterOutputs(ViewOutputs(outputs), c), ms + OutputMentions(outputs))
  {
    hide Counted, ViewOutput, AfterOutput, OutputMention;
    var views := ViewOutputs(outputs);
    if outputs == [] {
      assert ms + [] == ms;
    } else {
      var n := |outputs| - 1;
      OutputsAreCounted(c, ms, outputs[..n]);
      assert views[..n] == ViewOutputs(outputs[..n]);
      OutputIsCounted(AfterOutputs(views[..n], c), ms + OutputMentions(outputs[..n]), outputs[n]);
      assert ms + OutputMentions(outputs) == ms + OutputMentions(outputs[..n]) + OutputMention(outputs[n]);
    }
  }

  lemma EventIsCounted(c: Context, ms: seq<Resource>, e: RawEvent)
    requires Counted(c, ms)
    ensures Counted(AfterEvent(ViewEvent(e), c), ms + EventMentions(e))
  {
    hide Counted, ArgSlots, ScalarSlot, RetKind, SignatureOf, ViewOutputs, AfterSlots, AfterSlot, AfterOutputs, ArgMentions,
      Mention, OutputMentions;
    var args, ret, outputs := ArgMentions(e.name, e.args), Mention(SignatureOf(e.name).ret, e.ret), OutputMentions(e.outputs);
    var view := ViewEvent(e);
    ArgsAreCounted(c, ms, e.name, e.args);
    RetSlotIs(e.name, e.ret);
    SlotIsCounted(AfterSlots(view.args, c), ms + args, view.ret, SignatureOf(e.name).ret, e.ret);
    OutputsAreCounted(AfterSlot(view.ret, AfterSlots(view.args, c)), ms + args + ret, e.outputs);
    assert ms + EventMentions(e) == ms + args + ret + outputs;
  }

  lemma {:induction false} EventsAreCounted(es: seq<RawEvent>)
    ensures Counted(AfterEvents(ViewEvents(es), NO_TOKENS), Mentions(es))
  {
    hide Counted, ViewEvent, AfterEvent, EventMentions;
    var views := ViewEvents(es);
    if es == [] {
      NothingCounted();
    } else {
      var n := |es| - 1;
      EventsAreCounted(es[..n]);
      assert views[..n] == ViewEvents(es[..n]);
      EventIsCounted(AfterEvents(views[..n], NO_TOKENS), Mentions(es[..n]), es[n]);
    }
  }

  // ---------------------------------------------------------------- the symbols of a trace

  /** A name is replaced by its kind and its number, and every other value stays. */
  function SymbolFor(letter: char, x: int, ms: seq<Resource>): Sym {
    if Names(letter, x) then Tok(KindFor(letter), NumberOf(Resource(KindFor(letter), x), ms)) else Lit(x)
  }

  lemma ReadIsCounted(f: Context, ms: seq<Resource>, s: Slot, y: Sym, letter: char, x: int)
    requires Counted(f, ms) && Reads(f, s, y)
    requires s == if Names(letter, x) then Ref(KindFor(letter), x) else Literal(x)
    ensures y == SymbolFor(letter, x, ms)
  {
    hide NumberOf, Seen;
    if s.Ref? {
      assert Resource(s.kind, x).value in f.Of(Resource(s.kind, x).kind);
      assert Resource(s.kind, x) in ms;
    }
  }

  /** What the canonical form shows for each argument, result and descriptor of a trace, and all that it keeps. */
  ghost predicate NumberedByFirstUse(es: seq<RawEvent>, keys: seq<EventKey>) {
    |keys| == |es| && forall i :: 0 <= i < |es| ==> NumberedEvent(es[i], keys[i], Mentions(es))
  }

  ghost predicate NumberedEvent(e: RawEvent, k: EventKey, ms: seq<Resource>) {
    && k.name == e.name && k.errno == e.errno && |k.args| == |e.args| && |k.outputs| == |e.outputs|
    && (forall j :: 0 <= j < |e.args| ==> k.args[j] == SymbolFor(Letter(e.name, j), e.args[j], ms))
    && k.ret == SymbolFor(SignatureOf(e.name).ret, e.ret, ms)
    && forall j :: 0 <= j < |e.outputs| ==> NumberedOutput(e.outputs[j], k.outputs[j], ms)
  }

  ghost predicate NumberedOutput(o: RawOutput, p: CanonOutput, ms: seq<Resource>) {
    && p.tag == o.tag && p.argIndex == o.argIndex && p.length == o.length && p.sha256 == o.sha256
    && (if o.tag == "stat" && |o.previewHex| >= 32
        then |p.previewHex| == |o.previewHex| && p.previewHex[32..] == o.previewHex[32..]
          && forall k :: 0 <= k < 32 ==> p.previewHex[k] == '0'
        else p.previewHex == o.previewHex)
    && (p.fds.Some? <==> o.fds.Some?)
    && (o.fds.Some? ==> NumberedFds(o.fds.value, p.fds.value, ms))
  }

  ghost predicate NumberedFds(values: seq<int>, syms: seq<Sym>, ms: seq<Resource>) {
    |syms| == |values| && forall k :: 0 <= k < |values| ==> syms[k] == Tok(Fd, NumberOf(Resource(Fd, values[k]), ms))
  }

  lemma OutputIsNumbered(f: Context, ms: seq<Resource>, o: RawOutput, p: CanonOutput)
    requires Counted(f, ms) && ReadsOutput(f, ViewOutput(o), p)
    ensures NumberedOutput(o, p, ms)
  {
    hide NumberOf, Seen;
    if o.fds.Some? {
      var slots := FdSlots(o.fds.value);
      forall k | 0 <= k < |o.fds.value| ensures p.fds.value[k] == Tok(Fd, NumberOf(Resource(Fd, o.fds.value[k]), ms)) {
        assert Reads(f, slots[k], p.fds.value[k]);
        assert Resource(Fd, o.fds.value[k]).value in f.Of(Resource(Fd, o.fds.value[k]).kind);
      }
    }
  }

  lemma EventIsNumbered(f: Context, ms: seq<Resource>, e: RawEvent, k: EventKey)
    requires Counted(f, ms) && ReadsEvent(f, ViewEvent(e), k)
    ensures NumberedEvent(e, k, ms)
  {
    hide Counted, Reads, ReadsOutput, ScalarSlot, ArgKind, RetKind, Letter, SignatureOf, ViewOutput, NumberedOutput, SymbolFor;
    var view := ViewEvent(e);
    forall j | 0 <= j < |e.args| ensures k.args[j] == SymbolFor(Letter(e.name, j), e.args[j], ms) {
      ArgSlotIs(e.name, j, e.args[j]);
      ReadIsCounted(f, ms, view.args[j], k.args[j], Letter(e.name, j), e.args[j]);
    }
    RetSlotIs(e.name, e.ret);
    ReadIsCounted(f, ms, view.ret, k.ret, SignatureOf(e.name).ret, e.ret);
    forall j | 0 <= j < |e.outputs| ensures NumberedOutput(e.outputs[j], k.outputs[j], ms) {
      OutputIsNumbered(f, ms, e.outputs[j], k.outputs[j]);
    }
  }

  /** The symbols of every trace are the numbers by first use. */
  lemma SymbolsAreFirstUse(es: seq<RawEvent>)
    ensures NumberedByFirstUse(es, NumberEvents(ViewEvents(es), NO_TOKENS))
  {
    hide Counted, ReadsEvent, NumberedEvent, NumberEvents, AfterEvents, ViewEvent, Mentions;
    var views := ViewEvents(es);
    var f := AfterEvents(views, NO_TOKENS);
    EventsAreCounted(es);
    EventsGrow(views, NO_TOKENS);
    EventsRead(views, NO_TOKENS, f);
    forall i | 0 <= i < |es| ensures NumberedEvent(es[i], NumberEvents(views, NO_TOKENS)[i], Mentions(es)) {
      EventIsNumbered(f, Mentions(es), es[i], NumberEvents(views, NO_TOKENS)[i]);
    }
  }

  // ---------------------------------------------------------------- renamings that keep the numbers

  /** Every renamed resource is mentioned on both sides, and under the same number. */
  ghost predicate SameNumbers(r: Renaming, es: seq<RawEvent>, fs: seq<RawEvent>) {
    forall kind: Kind, x: int :: x in r.Of(kind) ==>
      SameNumber(Resource(kind, x), Resource(kind, r.Of(kind)[x]), Mentions(es), Mentions(fs))
  }

  predicate SameNumber(m: Resource, n: Resource, ms: seq<Resource>, ns: seq<Resource>) {
    m in ms && n in ns && NumberOf(m, ms) == NumberOf(n, ns)
  }

  lemma SameNumberIff(f: Context, g: Context, m: Resource, n: Resource, ms: seq<Resource>, ns: seq<Resource>)
    requires Counted(f, ms) && Counted(g, ns) && m.kind == n.kind
    ensures SameNumber(m, n, ms, ns) <==>
      m.value in f.Of(m.kind) && n.value in g.Of(n.kind) && f.Of(m.kind)[m.value] == g.Of(n.kind)[n.value]
  {
    hide NumberOf, Seen;
  }
}
