/**
 * When two raw traces are the same but for the names of resources, said of the traces as they are
 * recorded: which positions hold descriptors, addresses and process numbers is written down by call.
 */
module RawRenaming {
  import opened Prelude
  import opened Canonical
  import opened AlphaEquivalence

  /** For each argument and for the result: f a descriptor, p a process, a an address, - none of these. */
  datatype Signature = Signature(args: string, ret: char)

  function SignatureOf(name: string): Signature {
    if name in {"read", "write", "pread64", "pwrite64", "fstat"} then Signature("fa", '-')
    else if name in {"close", "lseek"} then Signature("f", '-')
    else if name == "newfstatat" then Signature("faa", '-')
    else if name == "open" then Signature("a", 'f')
    else if name == "openat" then Signature("fa", 'f')
    else if name in {"eventfd", "eventfd2"} then Signature("", 'f')
    else if name in {"mkdir", "unlink", "munmap", "mprotect", "pipe", "pipe2"} then Signature("a", '-')
    else if name == "rename" then Signature("aa", '-')
    else if name == "socketpair" then Signature("---a", '-')
    else if name == "mmap" then Signature("a---f", 'a')
    else if name == "brk" then Signature("a", 'a')
    else if name == "clone" then Signature("-aaaa", 'p')
    else if name == "wait4" then Signature("pa-a", '-')
    else if name in {"getpid", "getppid"} then Signature("", 'p')
    else Signature("", '-')
  }

  function Letter(name: string, index: nat): char {
    var args := SignatureOf(name).args;
    if index < |args| then args[index] else '-'
  }

  function KindFor(letter: char): Kind { if letter == 'f' then Fd else if letter == 'p' then Pid else Addr }

  /** Only a positive value at a named position is a name. */
  predicate Names(letter: char, value: int) { letter in {'f', 'p', 'a'} && value > 0 }

  /** A name stands for another of its kind, as the renaming has it, and every other value for itself. */
  ghost predicate SameValue(r: Renaming, letter: char, x: int, y: int) {
    if Names(letter, x) then Names(letter, y) && x in r.Of(KindFor(letter)) && r.Of(KindFor(letter))[x] == y else y == x
  }

  /** The preview of a stat buffer differs at most in its first 32 digits, and any other not at all. */
  predicate SamePreview(tag: string, x: string, y: string) {
    if tag == "stat" && |x| >= 32 then |y| == |x| && y[32..] == x[32..] else y == x
  }

  ghost predicate SameDescriptors(r: Renaming, xs: seq<int>, ys: seq<int>) {
    |ys| == |xs| && forall k :: 0 <= k < |xs| ==> xs[k] in r.fd && r.fd[xs[k]] == ys[k]
  }

  ghost predicate SameRawOutput(r: Renaming, o: RawOutput, p: RawOutput) {
    && p.tag == o.tag && p.argIndex == o.argIndex && p.length == o.length && p.sha256 == o.sha256
    && SamePreview(o.tag, o.previewHex, p.previewHex)
    && (p.fds.Some? <==> o.fds.Some?)
    && (o.fds.Some? ==> SameDescriptors(r, o.fds.value, p.fds.value))
  }

  /** The results of noise calls do not matter, and all else does. */
  ghost predicate SameRawEvent(r: Renaming, e: RawEvent, f: RawEvent, noise: set<string>) {
    && f.name == e.name && |f.args| == |e.args|
    && (forall j :: 0 <= j < |e.args| ==> SameValue(r, Letter(e.name, j), e.args[j], f.args[j]))
    && (e.name !in noise ==> f.errno == e.errno && SameValue(r, SignatureOf(e.name).ret, e.ret, f.ret))
    && |f.outputs| == |e.outputs|
    && forall j :: 0 <= j < |e.outputs| ==> SameRawOutput(r, e.outputs[j], f.outputs[j])
  }

  ghost predicate SameRawEvents(r: Renaming, es: seq<RawEvent>, fs: seq<RawEvent>, noise: set<string>) {
    |fs| == |es| && forall i :: 0 <= i < |es| ==> SameRawEvent(r, es[i], fs[i], noise)
  }

  // ---------------------------------------------------------------- what the analyzer reads is that

  lemma ArgSlotIs(name: string, index: nat, value: int)
    ensures ScalarSlot(value, ArgKind(name, index, value)) ==
      if Names(Letter(name, index), value) then Ref(KindFor(Letter(name, index)), value) else Literal(value)
  {
  }

  lemma RetSlotIs(name: string, value: int)
    ensures ScalarSlot(value, RetKind(name, value)) ==
      var letter := SignatureOf(name).ret; if Names(letter, value) then Ref(KindFor(letter), value) else Literal(value)
  {
  }

  lemma MaskIs(tag: string, x: string, y: string)
    ensures MaskedPreview(tag, x) == MaskedPreview(tag, y) <==> SamePreview(tag, x, y)
  {
    if tag == "stat" && |x| >= 32 && |y| >= 32 {
      assert MaskedPreview(tag, x)[32..] == x[32..] && MaskedPreview(tag, y)[32..] == y[32..];
    }
  }

  lemma DescriptorsAre(r: Renaming, xs: seq<int>, ys: seq<int>)
    ensures RenamedSlots(r, FdSlots(xs), FdSlots(ys)) <==> SameDescriptors(r, xs, ys)
  {
    if RenamedSlots(r, FdSlots(xs), FdSlots(ys)) {
      forall k | 0 <= k < |xs| ensures xs[k] in r.fd && r.fd[xs[k]] == ys[k] {
        assert RenamedSlot(r, FdSlots(xs)[k], FdSlots(ys)[k]);
      }
    }
  }

  lemma OutputsAre(r: Renaming, o: RawOutput, p: RawOutput)
    ensures RenamedOutput(r, ViewOutput(o), ViewOutput(p)) <==> SameRawOutput(r, o, p)
  {
    hide MaskedPreview, SamePreview, FdSlots, RenamedSlots, SameDescriptors;
    MaskIs(o.tag, o.previewHex, p.previewHex);
    if o.fds.Some? && p.fds.Some? { DescriptorsAre(r, o.fds.value, p.fds.value); }
  }

  lemma ArgsAre(r: Renaming, name: string, xs: seq<int>, ys: seq<int>)
    ensures RenamedSlots(r, ArgSlots(name, xs), ArgSlots(name, ys)) <==>
      |ys| == |xs| && forall j :: 0 <= j < |xs| ==> SameValue(r, Letter(name, j), xs[j], ys[j])
  {
    hide ScalarSlot, ArgKind, Letter, RenamedSlot, SameValue;
    var s, t := ArgSlots(name, xs), ArgSlots(name, ys);
    if |xs| == |ys| {
      forall j | 0 <= j < |xs| ensures RenamedSlot(r, s[j], t[j]) <==> SameValue(r, Letter(name, j), xs[j], ys[j]) {
        ArgIs(r, name, j, xs[j], ys[j]);
      }
    }
  }

  lemma ArgIs(r: Renaming, name: string, j: nat, x: int, y: int)
    ensures RenamedSlot(r, ScalarSlot(x, ArgKind(name, j, x)), ScalarSlot(y, ArgKind(name, j, y))) <==>
      SameValue(r, Letter(name, j), x, y)
  {
    hide ScalarSlot, ArgKind, Letter;
    ArgSlotIs(name, j, x);
    ArgSlotIs(name, j, y);
  }

  lemma RetIs(r: Renaming, name: string, x: int, y: int)
    ensures RenamedSlot(r, ScalarSlot(x, RetKind(name, x)), ScalarSlot(y, RetKind(name, y))) <==>
      SameValue(r, SignatureOf(name).ret, x, y)
  {
    hide ScalarSlot, RetKind, SignatureOf;
    RetSlotIs(name, x);
    RetSlotIs(name, y);
  }

  /** The event without the return value and errno of a noise call. */
  function EraseView(v: EventView, noise: set<string>): EventView {
    if v.name in noise then v.(ret := Literal(0), errno := 0) else v
  }

  function EraseViews(vs: seq<EventView>, noise: set<string>): (r: seq<EventView>)
    ensures |r| == |vs|
  {
    seq(|vs|, i requires 0 <= i < |vs| => EraseView(vs[i], noise))
  }

  lemma EventIs(r: Renaming, e: RawEvent, f: RawEvent, noise: set<string>)
    ensures RenamedEvent(r, EraseView(ViewEvent(e), noise), EraseView(ViewEvent(f), noise)) <==> SameRawEvent(r, e, f, noise)
  {
    hide ScalarSlot, RetKind, ArgSlots, Letter, SignatureOf, RenamedSlots, SameValue, ViewOutput, RenamedOutput, SameRawOutput;
    if e.name == f.name {
      ArgsAre(r, e.name, e.args, f.args);
      RetIs(r, e.name, e.ret, f.ret);
      var s, t := ViewOutputs(e.outputs), ViewOutputs(f.outputs);
      if |e.outputs| == |f.outputs| {
        forall j | 0 <= j < |e.outputs|
          ensures RenamedOutput(r, s[j], t[j]) <==> SameRawOutput(r, e.outputs[j], f.outputs[j])
        {
          OutputsAre(r, e.outputs[j], f.outputs[j]);
        }
      }
      assert RenamedSlot(r, Literal(0), Literal(0));
    }
  }

  lemma EventsAre(r: Renaming, es: seq<RawEvent>, fs: seq<RawEvent>, noise: set<string>)
    ensures RenamedEvents(r, EraseViews(ViewEvents(es), noise), EraseViews(ViewEvents(fs), noise)) <==>
      SameRawEvents(r, es, fs, noise)
  {
    hide RenamedEvent, SameRawEvent, EraseView, ViewEvent;
    var s, t := EraseViews(ViewEvents(es), noise), EraseViews(ViewEvents(fs), noise);
    if |es| == |fs| {
      forall i | 0 <= i < |es| ensures RenamedEvent(r, s[i], t[i]) <==> SameRawEvent(r, es[i], fs[i], noise) {
        EventIs(r, es[i], fs[i], noise);
      }
    }
  }

  // ---------------------------------------------------------------- alpha-equivalence of raw traces

  ghost predicate RawAlphaEquivalent(es: seq<RawEvent>, fs: seq<RawEvent>) {
    exists r: Renaming :: r.OneToOne() && SameRawEvents(r, es, fs, {})
  }

  lemma NothingErased(vs: seq<EventView>)
    ensures EraseViews(vs, {}) == vs
  {
  }

  /** The relation that the canonical form decides is the one that is said of the raw traces. */
  lemma AlphaIsRaw(es: seq<RawEvent>, fs: seq<RawEvent>)
    ensures AlphaEquivalent(ViewEvents(es), ViewEvents(fs)) <==> RawAlphaEquivalent(es, fs)
  {
    hide RenamedEvents, SameRawEvents, EraseViews;
    NothingErased(ViewEvents(es));
    NothingErased(ViewEvents(fs));
    forall r: Renaming ensures RenamedEvents(r, ViewEvents(es), ViewEvents(fs)) <==> SameRawEvents(r, es, fs, {}) {
      EventsAre(r, es, fs, {});
    }
  }

  /** What no renaming changes: 0, -1 and -100 anywhere, and every value at a position that holds no name. */
  lemma LiteralsStay(es: seq<RawEvent>, fs: seq<RawEvent>, i: nat, j: nat)
    requires RawAlphaEquivalent(es, fs) && i < |es| && j < |es[i].args|
    ensures |fs| == |es| && |fs[i].args| == |es[i].args|
    ensures es[i].args[j] in {0, -1, -100} || Letter(es[i].name, j) == '-' ==> fs[i].args[j] == es[i].args[j]
    ensures es[i].ret in {0, -1, -100} || SignatureOf(es[i].name).ret == '-' ==> fs[i].ret == es[i].ret
    ensures fs[i].errno == es[i].errno && fs[i].name == es[i].name
  {
    hide Letter, SignatureOf;
    var r: Renaming :| r.OneToOne() && SameRawEvents(r, es, fs, {});
    assert SameRawEvent(r, es[i], fs[i], {});
    assert SameValue(r, Letter(es[i].name, j), es[i].args[j], fs[i].args[j]);
  }
}
