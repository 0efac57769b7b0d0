/**
 * From the traced call to the host and back: which facts about the memory of a call's outputs reach
 * the host with the event that is printed about it.
 */
module TraceCalls {
  import opened Prelude
  import opened Text
  import opened ProbeBytes
  import opened Sha256Spec
  import opened TraceEvent
  import opened TraceFrames

  /** The outputs look the same: label, argument, length, descriptors, the bytes shown, and the hash of all. */
  predicate LooksSame(a: Output, b: Output, s: Setting)
    requires Hashable(a.bytes) && Hashable(b.bytes)
  {
    && a.tag == b.tag && a.argIndex == b.argIndex && |a.bytes| == |b.bytes| && a.fds == b.fds
    && Stable(a, s)[..ShownLength(|a.bytes|, s)] == Stable(b, s)[..ShownLength(|b.bytes|, s)]
    && Sha256Of(Stable(a, s)) == Sha256Of(Stable(b, s))
  }

  lemma ProbeTells(a: Output, b: Output, s: Setting)
    requires OutputFits(a) && OutputFits(b)
    ensures ProbeOf(a, s) == ProbeOf(b, s) <==> LooksSame(a, b, s)
  {
    hide PreviewText, DigestText, Stable, Sha256Of, ShownLength;
    if |a.bytes| == |b.bytes| { PrintedTells(a, b, s); }
  }

  lemma ProbesTell(a: seq<Output>, b: seq<Output>, s: Setting)
    requires |a| == |b| && forall i :: 0 <= i < |a| ==> OutputFits(a[i]) && OutputFits(b[i])
    ensures ProbesOf(a, s) == ProbesOf(b, s) <==> forall i :: 0 <= i < |a| ==> LooksSame(a[i], b[i], s)
  {
    hide ProbeOf, LooksSame;
    var p, q := ProbesOf(a, s), ProbesOf(b, s);
    forall i | 0 <= i < |a| ensures p[i] == q[i] <==> LooksSame(a[i], b[i], s) {
      ProbeTells(a[i], b[i], s);
    }
  }

  /** Two calls are printed alike if and only if they are alike, and their outputs look the same. */
  lemma EventTells(c: Call, d: Call, s: Setting)
    requires CallFits(c) && CallFits(d)
    ensures EventJson(Printed(c, s)) == EventJson(Printed(d, s)) <==>
      && c.(probes := []) == d.(probes := []) && |c.probes| == |d.probes|
      && forall i :: 0 <= i < |c.probes| ==> LooksSame(c.probes[i], d.probes[i], s)
  {
    hide EventJson, LooksSame;
    if EventJson(Printed(c, s)) == EventJson(Printed(d, s)) { EventJsonIsInjective(Printed(c, s), Printed(d, s)); }
    assert |ProbesOf(c.probes, s)| == |c.probes| && |ProbesOf(d.probes, s)| == |d.probes|;
    if |c.probes| == |d.probes| { ProbesTell(c.probes, d.probes, s); }
  }

  /** Names as programs have them, and outputs as the tracer collects them. */
  predicate UsualCall(c: Call) {
    && |c.side| <= 1000 && |c.syscallName| <= 1000 && Printable(c.side) && Printable(c.syscallName) && |c.probes| <= 3
    && forall i :: 0 <= i < |c.probes| ==> UsualOutput(c.probes[i])
  }

  predicate UsualOutput(o: Output) {
    |o.tag| <= 100 && Printable(o.tag) && (o.fds.Some? ==> |o.fds.value| <= 2)
  }

  lemma {:induction false} HexIsPlain(bs: seq<Byte>)
    ensures Plain(Hex(bs)) && Printable(Hex(bs))
  {
    if bs != [] {
      HexIsPlain(bs[..|bs|-1]);
      DigitIsPlain(bs[|bs|-1] / 16);
      DigitIsPlain(bs[|bs|-1] % 16);
    }
  }

  lemma DigitIsPlain(n: nat)
    requires n < 16
    ensures ' ' <= HexDigit(n) <= '~' && HexDigit(n) != '"' && HexDigit(n) != '\\'
  {
  }

  lemma OutputIsUsual(o: Output, s: Setting)
    requires OutputFits(o) && UsualOutput(o)
    ensures ProbeFits(ProbeOf(o, s)) && UsualProbe(ProbeOf(o, s)) && PrintableProbe(ProbeOf(o, s))
  {
    hide Hex, Plain, Printable, Sha256Of, Stable;
    HexIsPlain(Stable(o, s)[..ShownLength(|o.bytes|, s)]);
    HexIsPlain(Sha256Of(Stable(o, s)));
  }

  lemma CallIsUsual(c: Call, s: Setting)
    requires CallFits(c) && UsualCall(c)
    ensures EventFits(Printed(c, s)) && Usual(Printed(c, s)) && PrintableEvent(Printed(c, s))
  {
    hide Printable, ProbeOf, ProbeFits, UsualProbe, PrintableProbe, OutputFits, UsualOutput;
    var p := ProbesOf(c.probes, s);
    forall i | 0 <= i < |p| ensures ProbeFits(p[i]) && UsualProbe(p[i]) && PrintableProbe(p[i]) {
      OutputIsUsual(c.probes[i], s);
    }
  }

  /**
   * The whole way: whatever bytes the outputs hold, the line of a usual call is neither cut nor
   * dropped, and the host reads the event with preview and digest of the memory.
   */
  lemma CallComesBack(c: Call, s: Setting)
    requires CallFits(c) && UsualCall(c)
    ensures var line := EventLine(Printed(c, s));
      && line[..Min(|line|, 32767)] == line && |"__SYZABI_TRACE_EVENT__ "| + |line| < 33024
      && ExtractFrom(SplitLines("__SYZABI_TRACE_EVENT__ " + line), []) == Ok([EventJson(Printed(c, s))])
  {
    hide Printed, EventLine, EventFits, Usual, PrintableEvent, CallFits, UsualCall;
    CallIsUsual(c, s);
    EventComesBack(Printed(c, s));
  }
}
