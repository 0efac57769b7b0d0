/**
 * The comparator (analyzer/compare.py) and what its verdict means for raw traces.
 */
module Compare {
  import opened Prelude
  import opened PyValues
  import opened Canonical
  import AlphaEquivalence
  import RawRenaming

  datatype Reason = EventCountMismatch | NoDiff | ContentMismatch

  /** The two last fields are absent when the event counts differ. */
  datatype Comparison = Comparison(
    equivalent: bool, noiseOnly: bool, firstDivergence: Option<int>, reason: Reason,
    finalStateEqual: Option<bool>, processExitEqual: Option<bool>)

  // ---------------------------------------------------------------- the code

  method IsNoiseEvent(left: CanonEvent, right: CanonEvent, noise: set<string>) returns (r: bool)
    ensures r <==> left.name == right.name && left.name in noise
                   && left.args == right.args && left.outputs == right.outputs
  {
    if left.name != right.name {
      return false;
    }
    if left.name !in noise {
      return false;
    }
    return left.args == right.args && left.outputs == right.outputs;
  }

  method CompareCanonical(reference: CanonTrace, candidate: CanonTrace, noise: set<string>)
      returns (r: Comparison)
    requires ValidCanonical(reference) && ValidCanonical(candidate)
    ensures r == Verdict(reference, candidate, noise)
    ensures r.reason == NoDiff <==> r.equivalent
    ensures r.reason == EventCountMismatch <==> |reference.events| != |candidate.events|
    ensures if r.reason == EventCountMismatch
            then r.firstDivergence ==
              Some(if |reference.events| < |candidate.events| then |reference.events| else |candidate.events|)
            else r.finalStateEqual == Some(reference.finalState == candidate.finalState)
                 && r.processExitEqual == Some(reference.processExit == candidate.processExit)
  {
    if reference.eventCount != candidate.eventCount {
      return Comparison(false, false, Some(Min(reference.eventCount, candidate.eventCount)),
                        EventCountMismatch, None, None);
    }
    var first: Option<int> := None;
    var noiseOnly := true;
    var i := 0;
    while i < |reference.events| && first.None?
      invariant 0 <= i <= |reference.events|
      invariant first.None? ==> forall j :: 0 <= j < i ==> AgreeAt(reference.events, candidate.events, noise, j)
      invariant first.Some? ==>
        && i > 0 && first == Some(i - 1) && !noiseOnly
        && !AgreeAt(reference.events, candidate.events, noise, i - 1)
        && forall j :: 0 <= j < i - 1 ==> AgreeAt(reference.events, candidate.events, noise, j)
      decreases |reference.events| - i
    {
      var left, right := reference.events[i], candidate.events[i];
      if left.name != right.name {
        first, noiseOnly := Some(left.index), false;
      } else {
        var isNoise := IsNoiseEvent(left, right, noise);
        if left.args != right.args {
          first, noiseOnly := Some(left.index), false;
        } else if left.ret != right.ret && !isNoise {
          first, noiseOnly := Some(left.index), false;
        } else if left.errno != right.errno && !isNoise {
          first, noiseOnly := Some(left.index), false;
        } else if left.outputs != right.outputs {
          first, noiseOnly := Some(left.index), false;
        }
      }
      i := i + 1;
    }
    FirstDifferenceIsLeast(reference.events, candidate.events, noise, if first.Some? then i - 1 else i);
    var finalStateEqual := reference.finalState == candidate.finalState;
    var processExitEqual := reference.processExit == candidate.processExit;
    if !processExitEqual {
      noiseOnly := false;
      if first.None? {
        first := Some(reference.eventCount);
      }
    }
    var equivalent := first.None? && finalStateEqual && processExitEqual;
    if equivalent {
      noiseOnly := false;
    }
    r := Comparison(equivalent, noiseOnly && finalStateEqual, first,
                    if equivalent then NoDiff else ContentMismatch,
                    Some(finalStateEqual), Some(processExitEqual));
  }

  // ---------------------------------------------------------------- what it computes

  /** An event with the return value and errno of noise syscalls erased. */
  function Erased(e: CanonEvent, noise: set<string>): EventKey {
    if e.name in noise then KeyOf(e).(ret := Lit(0), errno := 0) else KeyOf(e)
  }

  ghost predicate AgreeAt(a: seq<CanonEvent>, b: seq<CanonEvent>, noise: set<string>, i: nat)
    requires i < |a| && |a| == |b|
  {
    Erased(a[i], noise) == Erased(b[i], noise)
  }

  /** The least position where the erased events differ, or the length if there is none. */
  ghost function FirstDifference(a: seq<CanonEvent>, b: seq<CanonEvent>, noise: set<string>): (p: nat)
    requires |a| == |b|
    ensures p <= |a|
    ensures p < |a| ==> !AgreeAt(a, b, noise, p)
    ensures forall j :: 0 <= j < p ==> AgreeAt(a, b, noise, j)
  {
    if forall i :: 0 <= i < |a| ==> AgreeAt(a, b, noise, i) then |a|
    else LeastDifference(a, b, noise, 0)
  }

  ghost function LeastDifference(a: seq<CanonEvent>, b: seq<CanonEvent>, noise: set<string>, from: nat): (p: nat)
    requires |a| == |b| && exists i :: from <= i < |a| && !AgreeAt(a, b, noise, i)
    ensures from <= p < |a| && !AgreeAt(a, b, noise, p)
    ensures forall j :: from <= j < p ==> AgreeAt(a, b, noise, j)
    decreases |a| - from
  {
    if !AgreeAt(a, b, noise, from) then from else LeastDifference(a, b, noise, from + 1)
  }

  lemma FirstDifferenceIsLeast(a: seq<CanonEvent>, b: seq<CanonEvent>, noise: set<string>, p: nat)
    requires |a| == |b| && p <= |a|
    requires p < |a| ==> !AgreeAt(a, b, noise, p)
    requires forall j :: 0 <= j < p ==> AgreeAt(a, b, noise, j)
    ensures FirstDifference(a, b, noise) == p
  {
  }

  ghost function Verdict(reference: CanonTrace, candidate: CanonTrace, noise: set<string>): Comparison
    requires ValidCanonical(reference) && ValidCanonical(candidate)
  {
    if reference.eventCount != candidate.eventCount then
      Comparison(false, false, Some(Min(reference.eventCount, candidate.eventCount)), EventCountMismatch, None, None)
    else
      var p := FirstDifference(reference.events, candidate.events, noise);
      var exitEqual := reference.processExit == candidate.processExit;
      var stateEqual := reference.finalState == candidate.finalState;
      var equivalent := p == reference.eventCount && exitEqual && stateEqual;
      Comparison(equivalent, false,
                 if p < reference.eventCount || !exitEqual then Some(p) else None,
                 if equivalent then NoDiff else ContentMismatch,
                 Some(stateEqual), Some(exitEqual))
  }

  // ---------------------------------------------------------------- what the verdict means

  ghost predicate ErasedEqual(a: CanonTrace, b: CanonTrace, noise: set<string>) {
    && |a.events| == |b.events|
    && (forall i :: 0 <= i < |a.events| ==> AgreeAt(a.events, b.events, noise, i))
    && a.finalState == b.finalState && a.processExit == b.processExit
  }

  lemma EquivalentIffErasedEqual(a: CanonTrace, b: CanonTrace, noise: set<string>)
    requires ValidCanonical(a) && ValidCanonical(b)
    ensures Verdict(a, b, noise).equivalent <==> ErasedEqual(a, b, noise)
    ensures !Verdict(a, b, noise).noiseOnly
  {
    if |a.events| == |b.events| && FirstDifference(a.events, b.events, noise) < |a.events| {
      assert !AgreeAt(a.events, b.events, noise, FirstDifference(a.events, b.events, noise));
    }
  }

  /** The comparator's verdict is an equivalence relation on canonical traces. */
  lemma EquivalenceOfTraces(a: CanonTrace, b: CanonTrace, c: CanonTrace, noise: set<string>)
    requires ValidCanonical(a) && ValidCanonical(b) && ValidCanonical(c)
    ensures Verdict(a, a, noise).equivalent
    ensures Verdict(a, b, noise).equivalent ==> Verdict(b, a, noise).equivalent
    ensures Verdict(a, b, noise).equivalent && Verdict(b, c, noise).equivalent ==> Verdict(a, c, noise).equivalent
  {
    EquivalentIffErasedEqual(a, a, noise);
    EquivalentIffErasedEqual(a, b, noise);
    EquivalentIffErasedEqual(b, a, noise);
    EquivalentIffErasedEqual(b, c, noise);
    EquivalentIffErasedEqual(a, c, noise);
    if ErasedEqual(a, b, noise) {
      forall i | 0 <= i < |a.events| ensures AgreeAt(b.events, a.events, noise, i) {
        assert AgreeAt(a.events, b.events, noise, i);
      }
      if ErasedEqual(b, c, noise) {
        forall i | 0 <= i < |a.events| ensures AgreeAt(a.events, c.events, noise, i) {
          assert AgreeAt(a.events, b.events, noise, i) && AgreeAt(b.events, c.events, noise, i);
        }
      }
    }
  }

  /** A divergence index on traces of equal length is the least differing event, else the event count. */
  lemma DivergenceIndexIsLeast(a: CanonTrace, b: CanonTrace, noise: set<string>, p: int)
    requires ValidCanonical(a) && ValidCanonical(b) && |a.events| == |b.events|
    ensures Verdict(a, b, noise).firstDivergence == Some(p) <==>
      && 0 <= p <= |a.events|
      && (forall j :: 0 <= j < p ==> AgreeAt(a.events, b.events, noise, j))
      && (if p < |a.events| then !AgreeAt(a.events, b.events, noise, p) else a.processExit != b.processExit)
  {
    if && 0 <= p <= |a.events|
       && (forall j :: 0 <= j < p ==> AgreeAt(a.events, b.events, noise, j))
       && (p < |a.events| ==> !AgreeAt(a.events, b.events, noise, p)) {
      FirstDifferenceIsLeast(a.events, b.events, noise, p);
    }
  }

  // ---------------------------------------------------------------- raw traces

  /** What Canonicalize returns for a raw trace, as far as comparison can see. */
  ghost predicate CanonicalOf(t: CanonTrace, raw: RawTrace, state: PyValue) {
    && ValidCanonical(t)
    && KeysOf(t.events) == NumberEvents(ViewEvents(raw.events), NO_TOKENS)
    && t.finalState == state && t.processExit == raw.processExit
  }

  ghost predicate AlphaEquivalentTraces(a: RawTrace, sa: PyValue, b: RawTrace, sb: PyValue) {
    && RawRenaming.RawAlphaEquivalent(a.events, b.events)
    && sa == sb && a.processExit == b.processExit
  }

  /**
   * The main theorem about the analyzer: with no noise syscalls configured, the comparison of two
   * canonicalized traces says "equivalent" exactly when the raw traces are alpha-equivalent.
   */
  lemma EquivalentIffAlphaEquivalent(a: RawTrace, sa: PyValue, ca: CanonTrace, b: RawTrace, sb: PyValue, cb: CanonTrace)
    requires CanonicalOf(ca, a, sa) && CanonicalOf(cb, b, sb)
    ensures Verdict(ca, cb, {}).equivalent <==> AlphaEquivalentTraces(a, sa, b, sb)
  {
    EquivalentIffErasedEqual(ca, cb, {});
    RawRenaming.AlphaIsRaw(a.events, b.events);
    AlphaEquivalence.SameKeysIffRenamed(ViewEvents(a.events), ViewEvents(b.events));
    if ErasedEqual(ca, cb, {}) {
      forall i | 0 <= i < |ca.events| ensures KeysOf(ca.events)[i] == KeysOf(cb.events)[i] {
        assert AgreeAt(ca.events, cb.events, {}, i);
      }
      assert KeysOf(ca.events) == KeysOf(cb.events);
    }
    if KeysOf(ca.events) == KeysOf(cb.events) {
      assert |KeysOf(ca.events)| == |ca.events| && |KeysOf(cb.events)| == |cb.events|;
      forall i | 0 <= i < |ca.events| ensures AgreeAt(ca.events, cb.events, {}, i) {
        assert KeysOf(ca.events)[i] == KeysOf(cb.events)[i];
      }
    }
  }

  /** The pipeline itself: canonicalize both sides, then compare. */
  method CompareRaw(a: RawTrace, sa: PyValue, b: RawTrace, sb: PyValue) returns (r: Result<bool>)
    ensures r.Ok? <==> IndexesIncrease(a.events) && IndexesIncrease(b.events)
    ensures r.Ok? ==> (r.value <==> AlphaEquivalentTraces(a, sa, b, sb))
  {
    var ca := Canonicalize(a, sa);
    if ca.Err? {
      return Err(ca.message);
    }
    var cb := Canonicalize(b, sb);
    if cb.Err? {
      return Err(cb.message);
    }
    var verdict := CompareCanonical(ca.value, cb.value, {});
    EquivalentIffAlphaEquivalent(a, sa, ca.value, b, sb, cb.value);
    return Ok(verdict.equivalent);
  }
}
