/**
 * Deciding what a case's runs mean (orchestrator/scheduler.py, analyzer/classify.py): a first
 * comparison, reruns of both sides if it is suspicious, and one report.
 */
module Triage {
  import opened Prelude
  import opened PyValues
  import opened Canonical
  import opened Compare
  import opened Stability

  /** The digest that canonical_trace_hash takes of a stable view. */
  type Digest = PyValue -> string

  ghost predicate Injective(digest: Digest) {
    forall x: PyValue, y: PyValue {:trigger digest(x), digest(y)} :: digest(x) == digest(y) ==> x == y
  }

  /** A run of one side, with its canonical trace if that could be loaded. */
  datatype Run = Run(status: string, trace: Option<CanonTrace>)

  ghost predicate LoadedRun(r: Run) { r.trace.Some? ==> ValidCanonical(r.trace.value) }

  /** A reference trace is loaded exactly for a run that ended well. */
  ghost predicate ReferenceRun(r: Run) { LoadedRun(r) && (r.trace.Some? <==> r.status == "ok") }

  /** The first n runs of a series. */
  function Reruns(series: nat -> Run, n: nat): (r: seq<Run>)
    ensures |r| == n && forall i :: 0 <= i < n ==> r[i] == series(i)
  {
    if n == 0 then [] else Reruns(series, n - 1) + [series(n - 1)]
  }

  function HashesOf(digest: Digest, runs: seq<Run>): seq<string> {
    if runs == [] then [] else HashesOf(digest, runs[..|runs|-1]) + HashOf(digest, runs[|runs|-1])
  }

  function HashOf(digest: Digest, r: Run): seq<string> {
    if r.trace.Some? then [TraceHash(digest, r.trace.value)] else []
  }

  /** The latest trace that could be loaded. */
  function LatestTrace(runs: seq<Run>): Option<CanonTrace> {
    if runs == [] then None
    else if runs[|runs|-1].trace.Some? then runs[|runs|-1].trace
    else LatestTrace(runs[..|runs|-1])
  }

  // ---------------------------------------------------------------- the reference runs

  /** The reference is run once, and again only if that went wrong. */
  method BuildReferenceRuns(first: Run, rerun: nat -> Run, rerunCount: nat, digest: Digest)
    returns (results: seq<Run>, hashes: seq<string>, canonical: Option<CanonTrace>)
    ensures results == [first] + (if first.status == "ok" then [] else Reruns(rerun, rerunCount))
    ensures hashes == HashesOf(digest, results) && canonical == first.trace
  {
    hide TraceHash, Reruns;
    results, hashes, canonical := [first], [], first.trace;
    if canonical.Some? { hashes := hashes + [TraceHash(digest, canonical.value)]; }
    assert [first][..0] == [];
    if first.status != "ok" {
      for attempt := 0 to rerunCount
        invariant results == [first] + Reruns(rerun, attempt) && hashes == HashesOf(digest, results)
      {
        var r := rerun(attempt);
        assert (results + [r])[..|results|] == results;
        results := results + [r];
        if r.trace.Some? { hashes := hashes + [TraceHash(digest, r.trace.value)]; }
      }
    }
  }

  // ---------------------------------------------------------------- what is compared

  /** Reference runs, of which the first was loaded. */
  ghost predicate References(refs: seq<Run>) {
    refs != [] && refs[0].trace.Some? && forall i :: 0 <= i < |refs| ==> LoadedRun(refs[i])
  }

  /** At least as many reference runs as candidate runs. */
  ghost predicate Case(refs: seq<Run>, cands: seq<Run>) {
    && References(refs) && 0 < |cands| <= |refs|
    && (forall i :: 0 <= i < |cands| ==> LoadedRun(cands[i]))
  }

  lemma {:induction false} LatestIsLoaded(runs: seq<Run>)
    requires forall i :: 0 <= i < |runs| ==> LoadedRun(runs[i])
    ensures LatestTrace(runs).Some? ==> ValidCanonical(LatestTrace(runs).value)
    ensures LatestTrace(runs).None? <==> forall i :: 0 <= i < |runs| ==> runs[i].trace.None?
    ensures LatestTrace(runs).Some? ==> exists i :: 0 <= i < |runs| && runs[i].trace == LatestTrace(runs)
  {
    if runs != [] {
      var n := |runs| - 1;
      assert LoadedRun(runs[n]);
      LatestIsLoaded(runs[..n]);
      assert runs == runs[..n] + [runs[n]];
    }
  }

  /** The reference trace that the first n reference runs left behind. */
  ghost function ReferenceAfter(refs: seq<Run>, cands: seq<Run>, n: nat): (c: CanonTrace)
    requires Case(refs, cands) && 0 < n <= |refs|
    ensures ValidCanonical(c) && exists i :: 0 <= i < n && refs[i].trace == Some(c)
  {
    LatestIsLoaded(refs[..n]);
    assert refs[..n][0] == refs[0];
    LatestTrace(refs[..n]).value
  }

  /** How many candidate runs there were when the latest trace of them was loaded. */
  function LoadedAt(cands: seq<Run>): (n: nat)
    ensures n <= |cands| && (n > 0 <==> LatestTrace(cands).Some?)
    ensures n > 0 ==> cands[n-1].trace == LatestTrace(cands)
    ensures forall k :: n <= k < |cands| ==> cands[k].trace.None?
  {
    if cands == [] then 0 else if cands[|cands|-1].trace.Some? then |cands| else LoadedAt(cands[..|cands|-1])
  }

  /** The latest candidate trace, compared with the reference trace of that moment. */
  ghost function Compared(refs: seq<Run>, cands: seq<Run>, noise: set<string>): Option<Comparison>
    requires Case(refs, cands)
  {
    LatestIsLoaded(cands);
    if LatestTrace(cands).None? then None
    else Some(Verdict(ReferenceAfter(refs, cands, LoadedAt(cands)), LatestTrace(cands).value, noise))
  }

  /** The same with the first reference trace, which is what a report is about. */
  ghost function ComparedWithFirst(refs: seq<Run>, cands: seq<Run>, noise: set<string>): Option<Comparison>
    requires Case(refs, cands)
  {
    LatestIsLoaded(cands);
    if LatestTrace(cands).None? then None
    else Some(Verdict(refs[0].trace.value, LatestTrace(cands).value, noise))
  }

  // ---------------------------------------------------------------- the triage loop

  datatype State = State(
    refs: seq<Run>, refHashes: seq<string>, reference: Option<CanonTrace>,
    cands: seq<Run>, candHashes: seq<string>, candidate: Option<CanonTrace>,
    comparison: Option<Comparison>)

  /** What every step of the loop keeps. */
  ghost predicate Inv(s: State, digest: Digest, noise: set<string>) {
    && Case(s.refs, s.cands)
    && s.refHashes == HashesOf(digest, s.refs) && s.candHashes == HashesOf(digest, s.cands)
    && s.reference == LatestTrace(s.refs) && s.candidate == LatestTrace(s.cands)
    && s.comparison == Compared(s.refs, s.cands, noise)
  }

  lemma MoreReferences(refs: seq<Run>, cands: seq<Run>, r: Run, noise: set<string>)
    requires Case(refs, cands) && LoadedRun(r)
    ensures Case(refs + [r], cands) && Compared(refs + [r], cands, noise) == Compared(refs, cands, noise)
  {
    hide Verdict;
    var n := LoadedAt(cands);
    assert forall i :: 0 <= i < |refs| ==> (refs + [r])[i] == refs[i];
    if n > 0 { assert (refs + [r])[..n] == refs[..n]; }
  }

  lemma MoreCandidates(refs: seq<Run>, cands: seq<Run>, c: Run, noise: set<string>)
    requires Case(refs, cands) && LoadedRun(c) && |refs| == |cands| + 1
    ensures Case(refs, cands + [c]) && LatestTrace(refs).Some? && ValidCanonical(LatestTrace(refs).value)
    ensures Compared(refs, cands + [c], noise) ==
      if c.trace.Some? then Some(Verdict(LatestTrace(refs).value, c.trace.value, noise)) else Compared(refs, cands, noise)
  {
    hide Verdict;
    assert (cands + [c])[..|cands|] == cands;
    assert forall i :: 0 <= i < |cands| ==> (cands + [c])[i] == cands[i];
    LatestIsLoaded(refs);
    assert refs[..|refs|] == refs;
  }

  method RerunReference(s: State, r: Run, digest: Digest, ghost noise: set<string>) returns (t: State)
    requires Inv(s, digest, noise) && LoadedRun(r)
    ensures Inv(t, digest, noise)
    ensures t.refs == s.refs + [r] && t.cands == s.cands
  {
    hide Verdict, TraceHash, ValidCanonical, LoadedRun, Compared, Case;
    t := s.(refs := s.refs + [r]);
    assert t.refs[..|s.refs|] == s.refs;
    MoreReferences(s.refs, s.cands, r, noise);
    if r.trace.Some? {
      t := t.(reference := r.trace, refHashes := t.refHashes + [TraceHash(digest, r.trace.value)]);
    } else {
      assert s.refHashes + [] == s.refHashes;
    }
  }

  method RerunCandidate(s: State, c: Run, digest: Digest, noise: set<string>) returns (t: State)
    requires Inv(s, digest, noise) && LoadedRun(c) && |s.refs| == |s.cands| + 1
    ensures Inv(t, digest, noise)
    ensures t.refs == s.refs && t.cands == s.cands + [c]
  {
    hide Verdict, TraceHash, ValidCanonical, Compared, Case;
    t := s.(cands := s.cands + [c]);
    assert t.cands[..|s.cands|] == s.cands;
    MoreCandidates(s.refs, s.cands, c, noise);
    if c.trace.Some? {
      t := t.(candHashes := t.candHashes + [TraceHash(digest, c.trace.value)], candidate := c.trace);
      if s.reference.Some? {
        var comparison := CompareCanonical(s.reference.value, c.trace.value, noise);
        t := t.(comparison := Some(comparison));
      } else {
        t := t.(comparison := None);
      }
    } else {
      assert s.candHashes + [] == s.candHashes;
    }
  }

  method RunTriageLoop(s: State, rerunRef: nat -> Run, rerunCand: nat -> Run, rerunCount: nat, digest: Digest, noise: set<string>)
    returns (t: State)
    requires Inv(s, digest, noise) && |s.refs| == |s.cands|
    requires forall i :: LoadedRun(rerunRef(i)) && LoadedRun(rerunCand(i))
    ensures Inv(t, digest, noise)
    ensures t.refs == s.refs + Reruns(rerunRef, rerunCount) && t.cands == s.cands + Reruns(rerunCand, rerunCount)
  {
    hide Inv, LoadedRun;
    t := s;
    for attempt := 0 to rerunCount
      invariant Inv(t, digest, noise)
      invariant t.refs == s.refs + Reruns(rerunRef, attempt) && t.cands == s.cands + Reruns(rerunCand, attempt)
    {
      t := RerunReference(t, rerunRef(attempt), digest, noise);
      t := RerunCandidate(t, rerunCand(attempt), digest, noise);
    }
  }

  // ---------------------------------------------------------------- the report

  datatype Class = BaselineInvalid | UnsupportedFeature | BugLikely | WeakSpecOrEnvNoise | NoDifference

  function Classify(referenceStable: bool, referenceStatus: string, candidateStatus: string,
      comparison: Option<Comparison>): Class
  {
    if !referenceStable || referenceStatus != "ok" then BaselineInvalid
    else if candidateStatus == "unsupported" then UnsupportedFeature
    else if candidateStatus in {"crash", "timeout", "candidate_bug"} then BugLikely
    else if comparison.None? then
      if candidateStatus == "infra_error" then WeakSpecOrEnvNoise else UnsupportedFeature
    else if comparison.value.equivalent then NoDifference
    else if candidateStatus == "infra_error" then WeakSpecOrEnvNoise
    else if comparison.value.noiseOnly then WeakSpecOrEnvNoise
    else BugLikely
  }

  datatype Hashes = Hashes(reference: string, candidate: string)

  datatype Report =
    | Unstable(refs: seq<Run>, cands: seq<Run>)
    | Reported(class_: Class, refs: seq<Run>, cands: seq<Run>, comparison: Option<Comparison>, hashes: Option<Hashes>)

  /** The case has a reference run that ended well, and one candidate run. */
  ghost predicate Prepared(reference: Run, candidate: Run, rerunRef: nat -> Run, rerunCand: nat -> Run) {
    && ReferenceRun(reference) && reference.status == "ok" && LoadedRun(candidate)
    && forall i :: ReferenceRun(rerunRef(i)) && LoadedRun(rerunCand(i))
  }

  /** What makes the scheduler compare once more, in the end. */
  predicate OnceMore(refHashes: seq<string>, candHashes: seq<string>) {
    && refHashes != [] && candHashes != [] && AllEqual(candHashes)
    && candHashes[|candHashes|-1] == refHashes[|refHashes|-1]
  }

  /** The reference trace that the reported comparison is with. */
  ghost function Partner(refs: seq<Run>, cands: seq<Run>, digest: Digest): (c: CanonTrace)
    requires Case(refs, cands) && LatestTrace(cands).Some?
    ensures ValidCanonical(c) && exists i :: 0 <= i < |refs| && refs[i].trace == Some(c)
  {
    if OnceMore(HashesOf(digest, refs), HashesOf(digest, cands)) then ReferenceAfter(refs, cands, |refs|)
    else ReferenceAfter(refs, cands, LoadedAt(cands))
  }

  ghost function FinalComparison(refs: seq<Run>, cands: seq<Run>, digest: Digest, noise: set<string>): Option<Comparison>
    requires Case(refs, cands)
  {
    LatestIsLoaded(cands);
    if LatestTrace(cands).None? then None
    else Some(Verdict(Partner(refs, cands, digest), LatestTrace(cands).value, noise))
  }

  /** The report that all runs of a case lead to. */
  ghost function ReportOf(refs: seq<Run>, cands: seq<Run>, digest: Digest, noise: set<string>): Report
    requires Case(refs, cands)
  {
    var refHashes, latest := HashesOf(digest, refs), LatestTrace(cands);
    if !AllEqual(refHashes) then Unstable(refs, cands) else
    var comparison := FinalComparison(refs, cands, digest, noise);
    Reported(Classify(true, refs[|refs|-1].status, cands[|cands|-1].status, comparison), refs, cands, comparison,
             if latest.None? then None else Some(Hashes(refHashes[|refHashes|-1], TraceHash(digest, latest.value))))
  }

  method StartState(reference: Run, candidate: Run, digest: Digest, noise: set<string>) returns (s: State)
    requires ReferenceRun(reference) && reference.status == "ok" && LoadedRun(candidate)
    ensures Inv(s, digest, noise) && s.refs == [reference] && s.cands == [candidate]
    ensures s.comparison ==
      if candidate.trace.Some? then Some(Verdict(reference.trace.value, candidate.trace.value, noise)) else None
  {
    hide Verdict, TraceHash;
    var first := reference.trace.value;
    var candHashes: seq<string>, comparison := [], None;
    if candidate.trace.Some? {
      candHashes := [TraceHash(digest, candidate.trace.value)];
      var c := CompareCanonical(first, candidate.trace.value, noise);
      comparison := Some(c);
    }
    s := State([reference], [TraceHash(digest, first)], Some(first), [candidate], candHashes, candidate.trace, comparison);
    assert [reference][..0] == [] && [candidate][..0] == [] && [reference][..1] == [reference];
    assert HashesOf(digest, [reference]) == [] + HashOf(digest, reference);
    assert HashesOf(digest, [candidate]) == [] + HashOf(digest, candidate);
    assert LatestTrace([reference]) == Some(first) && LatestTrace([candidate]) == candidate.trace;
    assert LoadedAt([candidate]) == if candidate.trace.Some? then 1 else 0;
  }

  /** The report of a case is that of its runs: reruns on both sides exactly if the first candidate run is suspicious. */
  method FinalizePreparedCase(reference: Run, candidate: Run, rerunRef: nat -> Run, rerunCand: nat -> Run,
      rerunCount: nat, digest: Digest, noise: set<string>) returns (r: Report)
    requires Prepared(reference, candidate, rerunRef, rerunCand)
    ensures var differs := candidate.trace.Some? && !ErasedEqual(reference.trace.value, candidate.trace.value, noise);
      var n := if candidate.status != "ok" || differs then rerunCount else 0;
      var refs, cands := [reference] + Reruns(rerunRef, n), [candidate] + Reruns(rerunCand, n);
      Case(refs, cands) && r == ReportOf(refs, cands, digest, noise)
  {
    hide Inv, Verdict, TraceHash, Classify, HashesOf, LatestTrace, ValidCanonical, AllEqual, Case, Reruns, ErasedEqual;
    var s := StartState(reference, candidate, digest, noise);
    if candidate.trace.Some? { EquivalentIffErasedEqual(reference.trace.value, candidate.trace.value, noise); }
    var needsTriage := candidate.status != "ok" || (s.comparison.Some? && !s.comparison.value.equivalent);
    if needsTriage {
      s := RunTriageLoop(s, rerunRef, rerunCand, rerunCount, digest, noise);
    } else {
      assert [reference] + Reruns(rerunRef, 0) == [reference] && [candidate] + Reruns(rerunCand, 0) == [candidate];
    }
    r := ReportState(s, digest, noise);
  }

  method ReportState(s: State, digest: Digest, noise: set<string>) returns (r: Report)
    requires Inv(s, digest, noise)
    ensures Case(s.refs, s.cands) && r == ReportOf(s.refs, s.cands, digest, noise)
  {
    hide Verdict, TraceHash, Classify, HashesOf, LatestTrace, LoadedRun, ValidCanonical, AllEqual, Case, ReferenceAfter;
    InvMeans(s, digest, noise);
    var stable := CheckAllEqual(s.refHashes);
    if !stable { return Unstable(s.refs, s.cands); }
    var comparison := s.comparison;
    var candStable := CheckAllEqual(s.candHashes);
    if candStable && s.candHashes != [] && s.candHashes[|s.candHashes|-1] == s.refHashes[|s.refHashes|-1] && s.candidate.Some? {
      var c := CompareCanonical(s.reference.value, s.candidate.value, noise);
      comparison := Some(c);
    }
    var class_ := Classify(stable, s.refs[|s.refs|-1].status, s.cands[|s.cands|-1].status, comparison);
    var hashes := if s.candidate.Some?
      then Some(Hashes(s.refHashes[|s.refHashes|-1], TraceHash(digest, s.candidate.value))) else None;
    r := Reported(class_, s.refs, s.cands, comparison, hashes);
  }

  lemma InvMeans(s: State, digest: Digest, noise: set<string>)
    requires Inv(s, digest, noise)
    ensures Case(s.refs, s.cands) && s.refs != [] && s.cands != []
    ensures s.refHashes == HashesOf(digest, s.refs) && s.candHashes == HashesOf(digest, s.cands)
    ensures s.refHashes != [] && s.candidate == LatestTrace(s.cands)
    ensures s.reference == Some(ReferenceAfter(s.refs, s.cands, |s.refs|)) && ValidCanonical(s.reference.value)
    ensures s.candidate.Some? ==> ValidCanonical(s.candidate.value)
    ensures s.comparison == Compared(s.refs, s.cands, noise)
  {
    hide Verdict, TraceHash, ValidCanonical, Compared;
    LatestIsLoaded(s.refs);
    LatestIsLoaded(s.cands);
    assert s.refs[..|s.refs|] == s.refs;
    TraceHasHash(s.refs, digest);
  }

  lemma {:induction false} TraceHasHash(runs: seq<Run>, digest: Digest)
    requires LatestTrace(runs).Some?
    ensures HashesOf(digest, runs) != []
  {
    if runs[|runs|-1].trace.None? { TraceHasHash(runs[..|runs|-1], digest); }
  }

  // ---------------------------------------------------------------- the last comparison is dead code

  /** Every trace that was loaded is that of one side. */
  ghost predicate OfSide(runs: seq<Run>, side: string) {
    forall i :: 0 <= i < |runs| && runs[i].trace.Some? ==> runs[i].trace.value.side == side
  }

  lemma SidesHashApart(a: CanonTrace, b: CanonTrace, digest: Digest)
    requires a.side != b.side && Injective(digest)
    ensures TraceHash(digest, a) != TraceHash(digest, b)
  {
    hide StableView, TracePy;
    if TraceHash(digest, a) == TraceHash(digest, b) {
      KeysAreKept(a, b);
    }
  }

  lemma {:induction false} HashIsNotAmong(a: CanonTrace, runs: seq<Run>, side: string, digest: Digest)
    requires a.side != side && OfSide(runs, side) && Injective(digest)
    ensures TraceHash(digest, a) !in HashesOf(digest, runs)
  {
    hide TraceHash, Injective;
    if runs != [] {
      var n := |runs| - 1;
      HashIsNotAmong(a, runs[..n], side, digest);
      if runs[n].trace.Some? { SidesHashApart(a, runs[n].trace.value, digest); }
    }
  }

  /** No hash of a reference run is that of a candidate run, so the scheduler never compares once more. */
  lemma {:induction false} NeverComparedOnceMore(refs: seq<Run>, cands: seq<Run>, refSide: string, candSide: string,
      digest: Digest)
    requires OfSide(refs, refSide) && OfSide(cands, candSide) && refSide != candSide && Injective(digest)
    ensures forall h :: h in HashesOf(digest, refs) ==> h !in HashesOf(digest, cands)
    ensures !OnceMore(HashesOf(digest, refs), HashesOf(digest, cands))
  {
    hide TraceHash, Injective;
    if refs != [] {
      var n := |refs| - 1;
      NeverComparedOnceMore(refs[..n], cands, refSide, candSide, digest);
      if refs[n].trace.Some? { HashIsNotAmong(refs[n].trace.value, cands, candSide, digest); }
    }
    var candHashes := HashesOf(digest, cands);
    assert candHashes != [] ==> candHashes[|candHashes|-1] in candHashes;
  }

  // ---------------------------------------------------------------- when there is a verdict at all

  lemma {:induction false} HashesMean(digest: Digest, runs: seq<Run>, h: string)
    ensures h in HashesOf(digest, runs) <==>
      exists i :: 0 <= i < |runs| && runs[i].trace.Some? && h == TraceHash(digest, runs[i].trace.value)
  {
    hide TraceHash;
    if runs != [] {
      var n := |runs| - 1;
      HashesMean(digest, runs[..n], h);
      assert runs == runs[..n] + [runs[n]];
    }
  }

  /** No two loaded traces of the runs differ in more than the time that their events took. */
  ghost predicate AgreeButForTimes(runs: seq<Run>) {
    forall i, j :: 0 <= i < |runs| && 0 <= j < |runs| && runs[i].trace.Some? && runs[j].trace.Some? ==>
      SameRun(runs[i].trace.value, runs[j].trace.value)
  }

  ghost predicate SameRun(a: CanonTrace, b: CanonTrace) {
    SameButDurations(a.events, b.events) && a == b.(events := a.events)
  }

  /** For traces without timing keys, a verdict is given exactly if the reference runs did the same. */
  lemma ReportedIffReferencesAgree(refs: seq<Run>, cands: seq<Run>, digest: Digest, noise: set<string>)
    requires Case(refs, cands) && Injective(digest)
    requires forall i :: 0 <= i < |refs| && refs[i].trace.Some? ==> TimeFree(refs[i].trace.value)
    ensures ReportOf(refs, cands, digest, noise).Reported? <==> AgreeButForTimes(refs)
  {
    hide TraceHash, HashesOf, TimeFree, SameRun, FinalComparison, Classify, Injective;
    var hashes := HashesOf(digest, refs);
    HashOfRunIsThere(refs, 0, digest);
    forall i, j | 0 <= i < |refs| && 0 <= j < |refs| && refs[i].trace.Some? && refs[j].trace.Some?
      ensures SameRun(refs[i].trace.value, refs[j].trace.value) <==>
        TraceHash(digest, refs[i].trace.value) == TraceHash(digest, refs[j].trace.value)
    {
      SameRunIff(refs[i].trace.value, refs[j].trace.value, digest);
    }
    if AllEqual(hashes) {
      forall i, j | 0 <= i < |refs| && 0 <= j < |refs| && refs[i].trace.Some? && refs[j].trace.Some?
        ensures SameRun(refs[i].trace.value, refs[j].trace.value)
      {
        HashOfRunIsThere(refs, i, digest);
        HashOfRunIsThere(refs, j, digest);
      }
    }
    if AgreeButForTimes(refs) {
      forall k | 0 <= k < |hashes| ensures hashes[k] == hashes[0] {
        HashesMean(digest, refs, hashes[k]);
        HashesMean(digest, refs, hashes[0]);
      }
    }
  }

  lemma SameRunIff(a: CanonTrace, b: CanonTrace, digest: Digest)
    requires Injective(digest) && TimeFree(a) && TimeFree(b)
    ensures SameRun(a, b) <==> TraceHash(digest, a) == TraceHash(digest, b)
  {
    hide TraceHash, SameButDurations;
    SameHashIff(a, b, digest);
  }

  // ---------------------------------------------------------------- what the report is worth

  /**
   * A case passes as "no difference" exactly if the reference hashes agree, the last reference run ended
   * well, the last candidate run did not end in a failure of its own, and the latest candidate trace is
   * equal, up to noise, to the reference trace that it is compared with.
   */
  lemma NoDifferenceMeans(refs: seq<Run>, cands: seq<Run>, digest: Digest, noise: set<string>)
    requires Case(refs, cands)
    ensures var r := ReportOf(refs, cands, digest, noise);
      (r.Reported? && r.class_ == NoDifference) <==> (
        && AllEqual(HashesOf(digest, refs))
        && refs[|refs|-1].status == "ok" && cands[|cands|-1].status !in {"unsupported", "crash", "timeout", "candidate_bug"}
        && LatestTrace(cands).Some? && ErasedEqual(Partner(refs, cands, digest), LatestTrace(cands).value, noise))
  {
    hide Verdict, Partner, HashesOf, ErasedEqual, LatestTrace;
    LatestIsLoaded(cands);
    if LatestTrace(cands).Some? {
      EquivalentIffErasedEqual(Partner(refs, cands, digest), LatestTrace(cands).value, noise);
    }
  }

  /** The class by the two statuses, whether a candidate trace was compared, and whether it differs. */
  predicate ClassFollows(class_: Class, reference: string, status: string, traced: bool, differs: bool) {
    && (class_ == BaselineInvalid <==> reference != "ok")
    && (class_ == UnsupportedFeature <==> (
         reference == "ok"
         && (status == "unsupported" || (!traced && status !in {"crash", "timeout", "candidate_bug", "infra_error"}))))
    && (class_ == BugLikely <==> (
         reference == "ok"
         && (status in {"crash", "timeout", "candidate_bug"}
             || (traced && differs && status !in {"unsupported", "infra_error"}))))
    && (class_ == WeakSpecOrEnvNoise <==> reference == "ok" && status == "infra_error" && (traced ==> differs))
  }

  lemma ClassifyFollows(reference: string, status: string, comparison: Option<Comparison>)
    requires comparison.Some? ==> !comparison.value.noiseOnly
    ensures ClassFollows(Classify(true, reference, status, comparison), reference, status, comparison.Some?,
      comparison.Some? && !comparison.value.equivalent)
  {
  }

  /** The class of every report, by the last runs' statuses and the traces compared. */
  lemma ClassMeans(refs: seq<Run>, cands: seq<Run>, digest: Digest, noise: set<string>)
    requires Case(refs, cands) && ReportOf(refs, cands, digest, noise).Reported?
    ensures ClassFollows(ReportOf(refs, cands, digest, noise).class_, refs[|refs|-1].status, cands[|cands|-1].status,
      LatestTrace(cands).Some?, LatestTrace(cands).Some? && Differs(refs, cands, digest, noise))
  {
    hide Verdict, Partner, HashesOf, ErasedEqual, LatestTrace, Classify, ClassFollows;
    LatestIsLoaded(cands);
    if LatestTrace(cands).Some? {
      EquivalentIffErasedEqual(Partner(refs, cands, digest), LatestTrace(cands).value, noise);
    }
    ClassifyFollows(refs[|refs|-1].status, cands[|cands|-1].status, FinalComparison(refs, cands, digest, noise));
  }

  /** The latest candidate trace differs, noise aside, from the reference trace that it is compared with. */
  ghost predicate Differs(refs: seq<Run>, cands: seq<Run>, digest: Digest, noise: set<string>)
    requires Case(refs, cands) && LatestTrace(cands).Some?
  {
    !ErasedEqual(Partner(refs, cands, digest), LatestTrace(cands).value, noise)
  }

  /** A candidate that crashes, hangs or panics beside good reference runs is a likely bug, whatever was traced. */
  lemma FailuresAreLikelyBugs(refs: seq<Run>, cands: seq<Run>, digest: Digest, noise: set<string>)
    requires Case(refs, cands) && AllEqual(HashesOf(digest, refs)) && refs[|refs|-1].status == "ok"
    requires cands[|cands|-1].status in {"crash", "timeout", "candidate_bug"}
    ensures ReportOf(refs, cands, digest, noise).Reported? && ReportOf(refs, cands, digest, noise).class_ == BugLikely
  {
    hide FinalComparison, HashesOf, LatestTrace, AllEqual;
  }

  lemma {:induction false} HashOfRunIsThere(runs: seq<Run>, i: nat, digest: Digest)
    requires i < |runs| && runs[i].trace.Some?
    ensures TraceHash(digest, runs[i].trace.value) in HashesOf(digest, runs)
  {
    hide TraceHash;
    var n := |runs| - 1;
    if i < n { HashOfRunIsThere(runs[..n], i, digest); }
  }

  /** References with equal hashes have equal views. */
  lemma ReferencesLookAlike(refs: seq<Run>, i: nat, digest: Digest)
    requires i < |refs| && refs[0].trace.Some? && refs[i].trace.Some?
    requires Injective(digest) && AllEqual(HashesOf(digest, refs))
    ensures StableView(TracePy(refs[i].trace.value)) == StableView(TracePy(refs[0].trace.value))
  {
    hide StableView, TracePy, HashesOf;
    HashOfRunIsThere(refs, 0, digest);
    HashOfRunIsThere(refs, i, digest);
  }

  /**
   * The exact condition for one report: with equal reference hashes its comparison is the one with the
   * first reference trace if and only if no candidate trace loaded, or the reference trace that it is
   * made with and the first one stand alike to the candidate trace.
   */
  lemma ComparesWithFirstIff(refs: seq<Run>, cands: seq<Run>, digest: Digest, noise: set<string>)
    requires Case(refs, cands) && Injective(digest) && AllEqual(HashesOf(digest, refs))
    ensures ReportOf(refs, cands, digest, noise).comparison == ComparedWithFirst(refs, cands, noise) <==>
      LatestTrace(cands).None? || StandAlike(Partner(refs, cands, digest), refs[0].trace.value, LatestTrace(cands).value)
  {
    hide Verdict, Partner, HashesOf, StandAlike, LatestTrace, StableView, TracePy, Classify, Injective, AllEqual;
    LatestIsLoaded(cands);
    assert LoadedRun(refs[0]);
    if LatestTrace(cands).Some? {
      var partner := Partner(refs, cands, digest);
      var i :| 0 <= i < |refs| && refs[i].trace == Some(partner);
      ReferencesLookAlike(refs, i, digest);
      VerdictsAgreeIff(partner, refs[0].trace.value, LatestTrace(cands).value, noise);
    }
  }

  /** All reference traces have the state and the exit record of the first. */
  ghost predicate SameStates(refs: seq<Run>) {
    forall i :: 0 <= i < |refs| && refs[i].trace.Some? && refs[0].trace.Some? ==>
      && refs[i].trace.value.finalState == refs[0].trace.value.finalState
      && refs[i].trace.value.processExit == refs[0].trace.value.processExit
  }

  /** Reference traces with equal hashes and no timing keys are such. */
  lemma TimeFreeReferences(refs: seq<Run>, digest: Digest)
    requires Injective(digest) && AllEqual(HashesOf(digest, refs))
    requires forall i :: 0 <= i < |refs| && refs[i].trace.Some? ==> TimeFree(refs[i].trace.value)
    ensures SameStates(refs)
  {
    hide StableView, TracePy, TimeFree, HashesOf, Injective, AllEqual;
    forall i | 0 <= i < |refs| && refs[i].trace.Some? && refs[0].trace.Some?
      ensures refs[i].trace.value.finalState == refs[0].trace.value.finalState
      ensures refs[i].trace.value.processExit == refs[0].trace.value.processExit
    {
      ReferencesLookAlike(refs, i, digest);
      TraceIsKept(refs[i].trace.value, refs[0].trace.value);
    }
  }

  /** Runs of one side, as many as there are reference runs. */
  ghost predicate CandidateRuns(refs: seq<Run>, cands: seq<Run>, side: string) {
    Case(refs, cands) && |cands| == |refs| && OfSide(cands, side)
  }

  /**
   * The exact condition for all reports: equal reference hashes make the report one about the first
   * reference trace, for every course that the candidate runs can take, if and only if all reference
   * traces have the same state and exit record.
   */
  lemma ReportsAreAboutFirstIff(refs: seq<Run>, refSide: string, candSide: string, digest: Digest, noise: set<string>)
    requires References(refs) && OfSide(refs, refSide) && refSide != candSide
    requires Injective(digest) && AllEqual(HashesOf(digest, refs))
    ensures SameStates(refs) <==>
      forall cands :: (CandidateRuns(refs, cands, candSide) ==>
        ReportOf(refs, cands, digest, noise).comparison == ComparedWithFirst(refs, cands, noise))
  {
    hide HashesOf, Case, Injective, AllEqual, OfSide, ComparedWithFirst, FinalComparison, Classify, LatestTrace;
    if SameStates(refs) {
      forall cands | CandidateRuns(refs, cands, candSide)
        ensures ReportOf(refs, cands, digest, noise).comparison == ComparedWithFirst(refs, cands, noise)
      {
        ComparesWithFirstIff(refs, cands, digest, noise);
        PartnersStandAlike(refs, cands, digest);
      }
    } else {
      var i :| 0 <= i < |refs| && refs[i].trace.Some? && refs[0].trace.Some?
        && !(refs[i].trace.value.finalState == refs[0].trace.value.finalState
             && refs[i].trace.value.processExit == refs[0].trace.value.processExit);
      var cands := OnlyTrace(refs, i, candSide);
      OnlyTraceTells(refs, i, refSide, candSide, digest, noise);
    }
  }

  lemma PartnersStandAlike(refs: seq<Run>, cands: seq<Run>, digest: Digest)
    requires Case(refs, cands) && SameStates(refs)
    ensures LatestTrace(cands).Some? ==> StandAlike(Partner(refs, cands, digest), refs[0].trace.value, LatestTrace(cands).value)
  {
    hide Partner, HashesOf, LatestTrace;
    if LatestTrace(cands).Some? {
      var partner := Partner(refs, cands, digest);
      var i :| 0 <= i < |refs| && refs[i].trace == Some(partner);
    }
  }

  /** Candidate runs of which only number i has a trace: that of the first reference run, from the other side. */
  ghost function OnlyTrace(refs: seq<Run>, i: nat, side: string): seq<Run>
    requires i < |refs| && refs[0].trace.Some?
  {
    seq(|refs|, k => Run("ok", if k == i then Some(refs[0].trace.value.(side := side)) else None))
  }

  lemma {:induction false} LatestIsOnly(runs: seq<Run>, i: nat)
    requires i < |runs| && runs[i].trace.Some? && forall k :: 0 <= k < |runs| && k != i ==> runs[k].trace.None?
    ensures LatestTrace(runs) == runs[i].trace && LoadedAt(runs) == i + 1
  {
    var n := |runs| - 1;
    if i < n { LatestIsOnly(runs[..n], i); }
  }

  lemma OnlyTraceTells(refs: seq<Run>, i: nat, refSide: string, candSide: string, digest: Digest, noise: set<string>)
    requires i < |refs| && refs[0].trace.Some? && refs[i].trace.Some?
    requires References(refs) && OfSide(refs, refSide) && refSide != candSide
    requires Injective(digest) && AllEqual(HashesOf(digest, refs))
    requires refs[i].trace.value.finalState != refs[0].trace.value.finalState
          || refs[i].trace.value.processExit != refs[0].trace.value.processExit
    ensures var cands := OnlyTrace(refs, i, candSide);
      && CandidateRuns(refs, cands, candSide)
      && ReportOf(refs, cands, digest, noise).comparison != ComparedWithFirst(refs, cands, noise)
  {
    hide HashesOf, Injective, AllEqual, ReportOf, ComparedWithFirst, TraceHash;
    var cands, c := OnlyTrace(refs, i, candSide), refs[0].trace.value.(side := candSide);
    assert LoadedRun(refs[0]) && ValidCanonical(c);
    LatestIsOnly(cands, i);
    NeverComparedOnceMore(refs, cands, refSide, candSide, digest);
    assert refs[..i+1][i] == refs[i];
    assert Partner(refs, cands, digest) == refs[i].trace.value;
    ReferencesLookAlike(refs, i, digest);
    KeysAreKept(refs[i].trace.value, refs[0].trace.value);
    ComparesWithFirstIff(refs, cands, digest, noise);
  }

  /**
   * The failing input: a reference rerun whose state differs from the first by a timing key alone, at
   * any depth, has the same hash. A candidate that behaves like the first reference run, but whose first
   * run left no trace, is then reported as a likely bug, and one that has the rerun's state as no
   * difference; compared with the first reference trace it would be the other way round.
   */
  lemma TimedRerunMisleads(first: CanonTrace, path: seq<Step>, key: string, value: PyValue, candSide: string,
                           digest: Digest, noise: set<string>)
    requires ValidCanonical(first) && key in {"duration_ns", "start_ns", "end_ns"} && Leads(first.finalState, path, key)
    ensures var rerun := first.(finalState := Plant(first.finalState, path, key, value));
      var refs := [Run("ok", Some(first)), Run("ok", Some(rerun))];
      var like := [Run("infra_error", None), Run("ok", Some(first.(side := candSide)))];
      var unlike := [Run("infra_error", None), Run("ok", Some(rerun.(side := candSide)))];
      && Case(refs, like) && Case(refs, unlike)
      && ReportOf(refs, like, digest, noise).Reported? && ReportOf(refs, like, digest, noise).class_ == BugLikely
      && Classify(true, "ok", "ok", ComparedWithFirst(refs, like, noise)) == NoDifference
      && ReportOf(refs, unlike, digest, noise).Reported? && ReportOf(refs, unlike, digest, noise).class_ == NoDifference
      && Classify(true, "ok", "ok", ComparedWithFirst(refs, unlike, noise)) == BugLikely
  {
    hide TraceHash, Plant, Leads, Verdict, StableView, TracePy;
    var rerun := first.(finalState := Plant(first.finalState, path, key, value));
    var like, unlike := first.(side := candSide), rerun.(side := candSide);
    TimedStateEscapesTheHash(first, path, key, value, digest, noise);
    PlantIsUnseen(first.finalState, path, key, value);
    TwoReports(first, rerun, like, digest, noise);
    TwoReports(first, rerun, unlike, digest, noise);
    SameButSide(first, candSide, noise);
    SameButSide(rerun, candSide, noise);
    EquivalentIffErasedEqual(first, unlike, noise);
    EquivalentIffErasedEqual(rerun, like, noise);
  }

  lemma SameButSide(c: CanonTrace, side: string, noise: set<string>)
    requires ValidCanonical(c)
    ensures Verdict(c, c.(side := side), noise).equivalent
  {
    EquivalentIffErasedEqual(c, c.(side := side), noise);
  }

  /** Two reference traces with one hash, and a candidate whose first run left no trace. */
  lemma TwoReports(first: CanonTrace, rerun: CanonTrace, c: CanonTrace, digest: Digest, noise: set<string>)
    requires ValidCanonical(first) && ValidCanonical(rerun) && ValidCanonical(c)
    requires TraceHash(digest, rerun) == TraceHash(digest, first)
    ensures var refs, cands := [Run("ok", Some(first)), Run("ok", Some(rerun))], [Run("infra_error", None), Run("ok", Some(c))];
      && Case(refs, cands) && ComparedWithFirst(refs, cands, noise) == Some(Verdict(first, c, noise))
      && ReportOf(refs, cands, digest, noise).Reported?
      && ReportOf(refs, cands, digest, noise).class_ == Classify(true, "ok", "ok", Some(Verdict(rerun, c, noise)))
  {
    hide TraceHash, Verdict, ValidCanonical, Classify;
    var refs, cands := [Run("ok", Some(first)), Run("ok", Some(rerun))], [Run("infra_error", None), Run("ok", Some(c))];
    var h := TraceHash(digest, first);
    assert refs[..1] == [refs[0]] && [refs[0]][..0] == [] && refs[..2] == refs;
    assert HashesOf(digest, [refs[0]]) == [] + HashOf(digest, refs[0]);
    assert HashesOf(digest, refs) == [h] + [h];
    assert LatestTrace(cands) == Some(c) && LatestTrace(refs) == Some(rerun) && LoadedAt(cands) == 2;
  }
}
