/**
 * The greedy reducer (tools/reduce_case.py): it drops one call at a time and keeps the drop when the
 * shorter program still diverges, three times in a row. The trial without call i is written to the
 * scratch file drop-i, which can be the very file that the current program is read from.
 */
module Reducer {
  import opened Prelude

  type Call = nat

  type Program = seq<Call>

  // ---------------------------------------------------------------- which call an event belongs to

  datatype TraceEvent = TraceEvent(index: int, syscall: string)

  /** How many of the first n events are program calls. */
  function CallsBefore(events: seq<TraceEvent>, runtime: set<string>, n: nat): nat
    requires n <= |events|
  {
    if n == 0 then 0 else CallsBefore(events, runtime, n - 1) + if events[n-1].syscall in runtime then 0 else 1
  }

  /** The places of the program calls among the first n events. */
  function CallPlaces(events: seq<TraceEvent>, runtime: set<string>, n: nat): set<nat>
    requires n <= |events|
  {
    set j: nat | j < n && events[j].syscall !in runtime
  }

  lemma {:induction false} CallsBeforeCounts(events: seq<TraceEvent>, runtime: set<string>, n: nat)
    requires n <= |events|
    ensures CallsBefore(events, runtime, n) == |CallPlaces(events, runtime, n)|
  {
    if n == 0 {
      assert CallPlaces(events, runtime, 0) == {};
    } else {
      CallsBeforeCounts(events, runtime, n - 1);
      assert CallPlaces(events, runtime, n) ==
        CallPlaces(events, runtime, n - 1) + if events[n-1].syscall in runtime then {} else {n - 1};
    }
  }

  /** The number of the program call at an event index: None without one, or for the runtime's own calls. */
  function ProgramCall(events: seq<TraceEvent>, runtime: set<string>, index: Option<int>): (r: Option<nat>)
    ensures index.None? ==> r == None
  {
    if index.None? then None else CallFrom(events, runtime, index.value, 0)
  }

  function CallFrom(events: seq<TraceEvent>, runtime: set<string>, index: int, from: nat): Option<nat>
    requires from <= |events|
    decreases |events| - from
  {
    if from == |events| then None
    else if events[from].index == index then
      if events[from].syscall in runtime then None else Some(CallsBefore(events, runtime, from))
    else CallFrom(events, runtime, index, from + 1)
  }

  ghost predicate IsFirstWith(events: seq<TraceEvent>, index: int, from: nat, i: int)
    requires 0 <= from <= i < |events|
  {
    events[i].index == index && forall j :: from <= j < i ==> events[j].index != index
  }

  /** The first event with the index decides: its number is that of the program calls before it. */
  lemma {:induction false} FirstEventDecides(events: seq<TraceEvent>, runtime: set<string>, index: int, from: nat, i: nat)
    requires from <= i < |events| && IsFirstWith(events, index, from, i)
    ensures CallFrom(events, runtime, index, from) ==
      if events[i].syscall in runtime then None else Some(|CallPlaces(events, runtime, i)|)
    decreases i - from
  {
    CallsBeforeCounts(events, runtime, i);
    if from < i { FirstEventDecides(events, runtime, index, from + 1, i); }
  }

  lemma {:induction false} NoEventNoCall(events: seq<TraceEvent>, runtime: set<string>, index: int, from: nat)
    requires from <= |events| && forall j :: from <= j < |events| ==> events[j].index != index
    ensures CallFrom(events, runtime, index, from) == None
    decreases |events| - from
  {
    if from < |events| { NoEventNoCall(events, runtime, index, from + 1); }
  }

  method MapEventIndexToProgramCall(events: seq<TraceEvent>, runtime: set<string>, index: Option<int>)
    returns (r: Option<nat>)
    ensures r == ProgramCall(events, runtime, index)
  {
    if index.None? { return None; }
    var callIndex := 0;
    for i := 0 to |events|
      invariant callIndex == CallsBefore(events, runtime, i)
      invariant ProgramCall(events, runtime, index) == CallFrom(events, runtime, index.value, i)
    {
      if events[i].index == index.value {
        return if events[i].syscall in runtime then None else Some(callIndex);
      }
      if events[i].syscall !in runtime { callIndex := callIndex + 1; }
    }
    return None;
  }

  // ---------------------------------------------------------------- one trial

  /** A run of a program on both kernels: it fails, or gives a comparison. */
  datatype Outcome = Failed | Ran(equivalent: bool, divergence: Option<int>, events: seq<TraceEvent>)

  /** The kernels, as they behave at each point in time; a preflight fails or says whether it passed. */
  datatype Lab = Lab(
    run: (nat, Program) -> Outcome,
    preflight: (nat, Program) -> Option<bool>,
    overlay: bool, runtime: set<string>)

  predicate Diverges(o: Outcome) { o.Ran? && !o.equivalent }

  predicate InvariantsHold(lab: Lab, o: Outcome, passed: bool)
    requires o.Ran?
  {
    !o.equivalent && passed && ProgramCall(o.events, lab.runtime, o.divergence).Some?
  }

  /** The run at time t diverges and, where preflights are made, keeps what the overlay asks for. */
  predicate TrialPasses(lab: Lab, t: nat, p: Program) {
    var o := lab.run(t, p);
    && Diverges(o)
    && (lab.overlay ==> lab.preflight(t, p).Some? && InvariantsHold(lab, o, lab.preflight(t, p).value))
  }

  predicate DivergesAt(lab: Lab, t: nat, p: Program, k: nat) { Diverges(lab.run(t + k, p)) }

  predicate Confirms(lab: Lab, t: nat, p: Program, n: nat) {
    forall k :: 0 <= k < n ==> DivergesAt(lab, t, p, k)
  }

  /** The trial passes at time t, and three more runs diverge. */
  predicate Accepts(lab: Lab, t: nat, p: Program) {
    TrialPasses(lab, t, p) && Confirms(lab, t + 1, p, 3)
  }

  /** A run that both kernels finished, with different traces. */
  ghost predicate DivergingFrom(lab: Lab, t: nat, p: Program, end: nat) {
    forall u: nat :: t <= u < end ==> lab.run(u, p).Ran? && !lab.run(u, p).equivalent
  }

  /** The event at which a run diverges, the first with its index, is a call of the program. */
  ghost predicate DivergesAtProgramCall(o: Outcome, runtime: set<string>)
    requires o.Ran?
  {
    exists i :: 0 <= i < |o.events| && o.divergence == Some(o.events[i].index) && o.events[i].syscall !in runtime
      && forall j :: 0 <= j < i ==> o.events[j].index != o.events[i].index
  }

  /** What a program is kept for: four diverging runs and, with the overlay, a passed preflight and a program call. */
  ghost predicate ShownAt(lab: Lab, t: nat, p: Program) {
    && DivergingFrom(lab, t, p, t + 4)
    && (lab.overlay ==> lab.preflight(t, p) == Some(true) && DivergesAtProgramCall(lab.run(t, p), lab.runtime))
  }

  lemma ProgramCallIff(o: Outcome, runtime: set<string>)
    requires o.Ran?
    ensures ProgramCall(o.events, runtime, o.divergence).Some? <==> DivergesAtProgramCall(o, runtime)
  {
    if o.divergence.Some? {
      var index := o.divergence.value;
      if i :| 0 <= i < |o.events| && IsFirstWith(o.events, index, 0, i) {
        FirstEventDecides(o.events, runtime, index, 0, i);
        forall j | 0 <= j < |o.events| && IsFirstWith(o.events, index, 0, j) ensures i == j {
          assert o.events[i].index == o.events[j].index == index;
        }
      } else {
        NoFirst(o.events, index, |o.events|);
        NoEventNoCall(o.events, runtime, index, 0);
        assert forall i :: 0 <= i < |o.events| ==> o.events[i].index != index;
      }
    }
  }

  lemma {:induction false} NoFirst(events: seq<TraceEvent>, index: int, n: nat)
    requires n <= |events| && forall i :: 0 <= i < |events| ==> !IsFirstWith(events, index, 0, i)
    ensures forall j :: 0 <= j < n ==> events[j].index != index
  {
    if n > 0 {
      NoFirst(events, index, n - 1);
      assert !IsFirstWith(events, index, 0, n - 1);
    }
  }

  lemma ConfirmsIff(lab: Lab, t: nat, p: Program, n: nat)
    ensures Confirms(lab, t, p, n) <==> DivergingFrom(lab, t, p, t + n)
  {
    if Confirms(lab, t, p, n) {
      forall u: nat | t <= u < t + n ensures lab.run(u, p).Ran? && !lab.run(u, p).equivalent {
        assert DivergesAt(lab, t, p, u - t);
      }
    }
  }

  lemma AcceptsIff(lab: Lab, t: nat, p: Program)
    ensures Accepts(lab, t, p) <==> ShownAt(lab, t, p)
  {
    hide ProgramCall, DivergesAtProgramCall, Confirms;
    ConfirmsIff(lab, t + 1, p, 3);
    if lab.run(t, p).Ran? { ProgramCallIff(lab.run(t, p), lab.runtime); }
  }

  predicate AllDiverge(runs: seq<Outcome>) { forall o :: o in runs ==> o.Ran? && !o.equivalent }

  method ConfirmDivergence(lab: Lab, t: nat, p: Program) returns (all: bool, runs: seq<Outcome>)
    ensures all <==> DivergingFrom(lab, t, p, t + 3)
    ensures forall k :: 0 <= k < |runs| ==> runs[k] == lab.run(t + k, p)
    ensures all ==> |runs| == 3 && AllDiverge(runs)
  {
    runs := [];
    for attempt := 0 to 3
      invariant |runs| == attempt && DivergingFrom(lab, t, p, t + attempt)
      invariant forall k :: 0 <= k < |runs| ==> runs[k] == lab.run(t + k, p)
      invariant AllDiverge(runs)
    {
      var o := lab.run(t + attempt, p);
      if o.Failed? { return false, runs; }
      runs := runs + [o];
      if o.equivalent { return false, runs; }
    }
    return true, runs;
  }

  method RunTrial(lab: Lab, t: nat, p: Program) returns (ok: bool, runs: seq<Outcome>)
    ensures ok <==> ShownAt(lab, t, p)
    ensures ok ==> |runs| == 3 && AllDiverge(runs)
  {
    runs := [];
    var o := lab.run(t, p);
    if o.Failed? { return false, runs; }
    if o.equivalent { return false, runs; }
    ProgramCallIff(o, lab.runtime);
    if lab.overlay {
      var preflight := lab.preflight(t, p);
      if preflight.None? { return false, runs; }
      if !InvariantsHold(lab, o, preflight.value) { return false, runs; }
    }
    ok, runs := ConfirmDivergence(lab, t + 1, p);
  }

  // ---------------------------------------------------------------- subsequences

  function Remove(p: Program, i: nat): (r: Program)
    requires i < |p|
    ensures |r| == |p| - 1
  {
    p[..i] + p[i+1..]
  }

  /** q is p with some calls left out. */
  predicate IsSubsequence(q: Program, p: Program) {
    if q == [] then true
    else if p == [] then false
    else if q[0] == p[0] then IsSubsequence(q[1..], p[1..])
    else IsSubsequence(q, p[1..])
  }

  lemma {:induction false} SubsequenceOfTail(q: Program, p: Program)
    requires p != [] && IsSubsequence(q, p[1..])
    ensures IsSubsequence(q, p)
    decreases p, 0
  {
    if q != [] && q[0] == p[0] {
      TailIsSubsequence(q, p[1..]);
    }
  }

  lemma {:induction false} TailIsSubsequence(q: Program, p: Program)
    requires q != [] && IsSubsequence(q, p)
    ensures IsSubsequence(q[1..], p)
    decreases p, 1
  {
    if q[0] != p[0] {
      TailIsSubsequence(q, p[1..]);
    }
    SubsequenceOfTail(q[1..], p);
  }

  lemma {:induction false} SelfIsSubsequence(p: Program)
    ensures IsSubsequence(p, p)
  {
    if p != [] { SelfIsSubsequence(p[1..]); }
  }

  lemma {:induction false} RemoveIsSubsequence(p: Program, i: nat)
    requires i < |p|
    ensures IsSubsequence(Remove(p, i), p)
  {
    if i == 0 {
      assert Remove(p, 0) == p[1..];
      SelfIsSubsequence(p[1..]);
      SubsequenceOfTail(p[1..], p);
    } else {
      RemoveIsSubsequence(p[1..], i - 1);
      assert Remove(p, i)[1..] == Remove(p[1..], i - 1);
    }
  }

  lemma {:induction false} SubsequenceIsTransitive(a: Program, b: Program, c: Program)
    requires IsSubsequence(a, b) && IsSubsequence(b, c)
    ensures IsSubsequence(a, c)
    decreases c
  {
    if a != [] {
      if b[0] == c[0] {
        if a[0] == b[0] {
          SubsequenceIsTransitive(a[1..], b[1..], c[1..]);
        } else {
          SubsequenceIsTransitive(a, b[1..], c[1..]);
        }
      } else {
        SubsequenceIsTransitive(a, b, c[1..]);
        SubsequenceOfTail(a, c);
      }
    }
  }

  // ---------------------------------------------------------------- the reduction

  /** Where a program is read from: the seed's own file, or a scratch file drop-i. */
  datatype Path = Seed | Drop(index: nat)

  function AliasOf(path: Path): Option<nat> { if path.Seed? then None else Some(path.index) }

  datatype Found = Found(program: Program, index: nat)

  /**
   * The trials of one round with the drop indices below n still to come. `file` is what stands in the
   * current program's file; the trial at the alias index overwrites it.
   */
  function TryDrops(accepts: Program -> bool, file: Program, alias: Option<nat>, n: nat): (r: Option<Found>)
    requires n <= |file|
    ensures r.Some? ==> r.value.index < n && |r.value.program| < |file|
  {
    if n == 0 then None else
    var trial := Remove(file, n - 1);
    if accepts(trial) then Some(Found(trial, n - 1))
    else TryDrops(accepts, if alias == Some(n - 1) then trial else file, alias, n - 1)
  }

  datatype Final = Final(program: Program, alias: Option<nat>)

  /** Rounds until one accepts nothing, for kernels that always behave alike. */
  function Reduce(accepts: Program -> bool, p: Program, alias: Option<nat>): Final
    decreases |p|
  {
    match TryDrops(accepts, p, alias, |p|)
    case None => Final(p, alias)
    case Some(Found(q, i)) => Reduce(accepts, q, Some(i))
  }

  ghost predicate Deterministic(lab: Lab) {
    forall t: nat, p: Program :: Accepts(lab, t, p) == Accepts(lab, 0, p)
  }

  function Oracle(lab: Lab): Program -> bool { p => Accepts(lab, 0, p) }

  ghost predicate Shown(lab: Lab, p: Program) { exists t: nat :: ShownAt(lab, t, p) }

  /** Every program after the first was shown to diverge, is a part of the first, and is shorter than the one before. */
  ghost predicate IsHistory(lab: Lab, steps: seq<Program>) {
    forall k :: 0 < k < |steps| ==>
      Shown(lab, steps[k]) && IsSubsequence(steps[k], steps[0]) && |steps[k]| < |steps[k-1]|
  }

  datatype Reduction = Reduction(program: Program, path: Path, confirmed: bool, confirmations: seq<Outcome>)

  /** The run of the seed, and its preflight, keep what the overlay asks for. */
  predicate SeedHolds(lab: Lab, seed: Program, seedPreflight: Option<bool>) {
    var first := lab.run(0, seed);
    first.Ran? && (lab.overlay ==> seedPreflight.Some? && InvariantsHold(lab, first, seedPreflight.value))
  }

  lemma HistoryGrows(lab: Lab, steps: seq<Program>, p: Program)
    requires IsHistory(lab, steps) && steps != [] && Shown(lab, p) && IsSubsequence(p, steps[0]) && |p| < |steps[|steps|-1]|
    ensures IsHistory(lab, steps + [p])
  {
    hide Shown, IsSubsequence;
  }

  lemma LastIsShown(lab: Lab, steps: seq<Program>)
    requires IsHistory(lab, steps) && steps != []
    ensures steps[|steps|-1] != steps[0] ==> Shown(lab, steps[|steps|-1])
  {
  }

  lemma NoneDiverge()
    ensures AllDiverge([])
  {
  }

  lemma NoHistory(lab: Lab, seed: Program)
    ensures IsHistory(lab, [seed])
  {
  }

  lemma BothDiverge(runs: seq<Outcome>, more: seq<Outcome>)
    requires AllDiverge(runs) && AllDiverge(more)
    ensures AllDiverge(runs + more)
  {
  }

  lemma EachDiverges(runs: seq<Outcome>)
    requires AllDiverge(runs)
    ensures forall o :: o in runs ==> o.Ran? && !o.equivalent
  {
  }

  lemma SeedHoldsIff(lab: Lab, seed: Program, seedPreflight: Option<bool>)
    ensures SeedHolds(lab, seed, seedPreflight) <==> SeedIsFit(lab, seed, seedPreflight)
  {
    hide ProgramCall, DivergesAtProgramCall;
    if lab.run(0, seed).Ran? { ProgramCallIff(lab.run(0, seed), lab.runtime); }
  }

  /** The seed runs and, with the overlay, passes its preflight and diverges at a call of the program. */
  ghost predicate SeedIsFit(lab: Lab, seed: Program, seedPreflight: Option<bool>) {
    && lab.run(0, seed).Ran?
    && (lab.overlay ==> !lab.run(0, seed).equivalent && DivergesAtProgramCall(lab.run(0, seed), lab.runtime))
    && (lab.overlay ==> seedPreflight == Some(true))
  }

  /**
   * `recorded` says whether a recorded divergence of the seed can stand in when the seed cannot be
   * replayed; then nothing is reduced.
   */
  method GreedyReduce(seed: Program, lab: Lab, seedPreflight: Option<bool>, recorded: bool)
    returns (r: Result<Reduction>, ghost steps: seq<Program>)
    ensures r.Err? <==> !SeedIsFit(lab, seed, seedPreflight) && !(lab.overlay && recorded)
    ensures r.Ok? ==> (r.value.confirmed <==> SeedIsFit(lab, seed, seedPreflight))
    ensures r.Ok? ==> IsHistory(lab, steps) && steps != [] && steps[0] == seed && steps[|steps|-1] == r.value.program
    ensures r.Ok? ==> |r.value.confirmations| == 3 * (|steps| - 1)
    ensures r.Ok? ==> forall c :: c in r.value.confirmations ==> c.Ran? && !c.equivalent
    ensures r.Ok? && r.value.program != seed ==> Shown(lab, r.value.program)
    ensures r.Ok? && !r.value.confirmed ==> r.value.program == seed
    ensures r.Ok? && r.value.confirmed && Deterministic(lab) ==>
      Final(r.value.program, AliasOf(r.value.path)) == Reduce(Oracle(lab), seed, None)
  {
    hide IsSubsequence, Accepts, ShownAt, SeedHolds, SeedIsFit, Remove, AllDiverge, IsHistory;
    NoHistory(lab, seed);
    assert AllDiverge([]) by { NoneDiverge(); }
    SeedHoldsIff(lab, seed, seedPreflight);
    steps := [seed];
    var blocked := false;
    if !SeedHolds(lab, seed, seedPreflight) {
      if !lab.overlay || !recorded { return Err("SystemExit"), steps; }
      blocked := true;
    }
    var files: map<Path, Program> := map[Seed := seed];
    var path, currentText, confirmations := Seed, seed, [];
    var changed, clock := true, 1;
    SelfIsSubsequence(seed);
    while changed && !blocked
      invariant changed ==> path in files && files[path] == currentText
      invariant IsHistory(lab, steps) && steps != [] && steps[0] == seed && steps[|steps|-1] == currentText
      invariant IsSubsequence(currentText, seed) && |confirmations| == 3 * (|steps| - 1)
      invariant AllDiverge(confirmations)
      invariant blocked ==> currentText == seed
      invariant !blocked && Deterministic(lab) ==> (
        Reduce(Oracle(lab), seed, None) ==
        if changed then Reduce(Oracle(lab), currentText, AliasOf(path)) else Final(currentText, AliasOf(path)))
      decreases |currentText|, changed
    {
      changed := false;
      var n: nat := |currentText|;
      while n != 0
        invariant path in files && n <= |files[path]| <= |currentText| && IsSubsequence(files[path], seed)
        invariant Deterministic(lab) ==> (
          TryDrops(Oracle(lab), currentText, AliasOf(path), |currentText|) ==
          TryDrops(Oracle(lab), files[path], AliasOf(path), n))
      {
        n := n - 1;
        ghost var file := files[path];
        var trial := Remove(files[path], n);
        RemoveIsSubsequence(file, n);
        SubsequenceIsTransitive(trial, file, seed);
        files := files[Drop(n) := trial];
        var ok, runs := RunTrial(lab, clock, trial);
        AcceptsIff(lab, clock, trial);
        assert ok ==> Shown(lab, trial);
        clock := clock + 4;
        if ok {
          currentText := trial;
          HistoryGrows(lab, steps, trial);
          steps := steps + [trial];
          path := Drop(n);
          changed := true;
          BothDiverge(confirmations, runs);
          confirmations := confirmations + runs;
          break;
        }
      }
    }
    EachDiverges(confirmations);
    LastIsShown(lab, steps);
    r := Ok(Reduction(currentText, path, !blocked, confirmations));
  }

  // ---------------------------------------------------------------- when the result is minimal

  /** No single call can be left out. */
  ghost predicate OneMinimal(accepts: Program -> bool, p: Program) {
    forall i :: 0 <= i < |p| ==> !accepts(Remove(p, i))
  }

  /** The last round does not overwrite the current program's file before its last trial. */
  predicate FileStays(f: Final) {
    f.alias.None? || f.alias.value == 0 || f.alias.value >= |f.program|
  }

  /** Down to the alias index the trials are the single drops of the current program. */
  lemma {:induction false} RoundRejects(accepts: Program -> bool, p: Program, alias: Option<nat>, n: nat, low: nat)
    requires low <= n <= |p| && TryDrops(accepts, p, alias, n) == None
    requires alias.Some? ==> alias.value <= low || alias.value >= n
    ensures forall i :: low <= i < n ==> !accepts(Remove(p, i))
  {
    if low < n - 1 {
      RoundRejects(accepts, p, alias, n - 1, low);
    }
  }

  /** In the last round every drop from the alias index on was tried on the result itself. */
  lemma {:induction false} LastRound(accepts: Program -> bool, p: Program, alias: Option<nat>)
    ensures var f := Reduce(accepts, p, alias); TryDrops(accepts, f.program, f.alias, |f.program|) == None
    decreases |p|
  {
    var next := TryDrops(accepts, p, alias, |p|);
    if next.Some? {
      LastRound(accepts, next.value.program, Some(next.value.index));
    }
  }

  lemma TriedFromAlias(accepts: Program -> bool, seed: Program, i: nat)
    requires var f := Reduce(accepts, seed, None); i < |f.program| && (f.alias.None? || f.alias.value <= i || FileStays(f))
    ensures !accepts(Remove(Reduce(accepts, seed, None).program, i))
  {
    var f := Reduce(accepts, seed, None);
    LastRound(accepts, seed, None);
    var low := if f.alias.Some? && f.alias.value < |f.program| then f.alias.value else 0;
    RoundRejects(accepts, f.program, f.alias, |f.program|, low);
  }

  /** If the last round left the current program's file alone, the result is 1-minimal. */
  lemma MinimalWhenFileStays(accepts: Program -> bool, seed: Program)
    requires FileStays(Reduce(accepts, seed, None))
    ensures OneMinimal(accepts, Reduce(accepts, seed, None).program)
  {
    var f := Reduce(accepts, seed, None);
    forall i | 0 <= i < |f.program| ensures !accepts(Remove(f.program, i)) {
      TriedFromAlias(accepts, seed, i);
    }
  }

  /** For kernels that always behave alike: no program with one call less diverges as the result was shown to. */
  lemma NoShorterProgramIsShown(lab: Lab, seed: Program, i: nat, q: Program)
    requires Deterministic(lab) && FileStays(Reduce(Oracle(lab), seed, None))
    requires var p := Reduce(Oracle(lab), seed, None).program;
      && i < |p| && |q| == |p| - 1 && forall k :: 0 <= k < |q| ==> q[k] == p[if k < i then k else k + 1]
    ensures !Shown(lab, q)
  {
    hide Accepts, ShownAt, Reduce;
    var p := Reduce(Oracle(lab), seed, None).program;
    MinimalWhenFileStays(Oracle(lab), seed);
    assert q == Remove(p, i);
    assert !Oracle(lab)(Remove(p, i));
    forall t: nat ensures !ShownAt(lab, t, q) {
      AcceptsIff(lab, t, q);
      assert Accepts(lab, t, q) == Accepts(lab, 0, q);
    }
  }

  // ---------------------------------------------------------------- and when it need not be

  function Counting(n: nat): Program { seq(n, i => i) }

  function TwoPrograms(a: Program, b: Program): Program -> bool { p => p == a || p == b }

  /** The seed 0, 1, ..., n without call j, and that without its first call. */
  function Kept(n: nat, j: nat): Program
    requires j <= n
  {
    Remove(Counting(n + 1), j)
  }

  function Missed(n: nat, j: nat): Program
    requires 0 < j < n
  {
    Remove(Kept(n, j), 0)
  }

  function Tricky(n: nat, j: nat): Program -> bool
    requires 0 < j < n
  {
    TwoPrograms(Kept(n, j), Missed(n, j))
  }

  lemma {:induction false} FirstRound(n: nat, j: nat, m: nat)
    requires 0 < j < n && j < m <= n + 1
    ensures TryDrops(Tricky(n, j), Counting(n + 1), None, m) == Some(Found(Kept(n, j), j))
  {
    if j < m - 1 {
      FirstRound(n, j, m - 1);
      var trial := Remove(Counting(n + 1), m - 1);
      assert trial[j] == j && Kept(n, j)[j] == j + 1;
    }
  }

  /** Once the file is overwritten every trial is too short to be either program. */
  lemma {:induction false} TooShort(n: nat, j: nat, file: Program, m: nat)
    requires 0 < j < n && m <= j && |file| == n - 1
    ensures TryDrops(Tricky(n, j), file, Some(j), m) == None
  {
    if m > 0 {
      assert |Remove(file, m - 1)| == n - 2;
      TooShort(n, j, file, m - 1);
    }
  }

  lemma {:induction false} SecondRound(n: nat, j: nat, m: nat)
    requires 0 < j < n && j < m <= n
    ensures TryDrops(Tricky(n, j), Kept(n, j), Some(j), m) == None
  {
    var trial := Remove(Kept(n, j), m - 1);
    assert trial[0] == 0 && Missed(n, j)[0] == Kept(n, j)[1] != 0;
    if j == m - 1 {
      TooShort(n, j, trial, m - 1);
    } else {
      SecondRound(n, j, m - 1);
    }
  }

  /** For every alias index strictly inside the program there is a seed whose result is not 1-minimal. */
  lemma OverwrittenFileMissesADrop(n: nat, j: nat)
    requires 0 < j < n
    ensures Reduce(Tricky(n, j), Counting(n + 1), None) == Final(Kept(n, j), Some(j)) && |Kept(n, j)| == n
    ensures !OneMinimal(Tricky(n, j), Kept(n, j))
  {
    FirstRound(n, j, n + 1);
    SecondRound(n, j, n);
    assert Tricky(n, j)(Remove(Kept(n, j), 0));
  }

  /** Whatever the kernels do: a result of n calls that was read from drop-j is 1-minimal. */
  ghost predicate AlwaysMinimal(n: nat, j: nat) {
    forall accepts: Program -> bool, seed: Program {:trigger Reduce(accepts, seed, None)} ::
      var f := Reduce(accepts, seed, None);
      |f.program| == n && f.alias == Some(j) ==> OneMinimal(accepts, f.program)
  }

  /** 1-minimality is certain exactly if the result's own file is not overwritten before the last trial. */
  lemma MinimalityCondition(n: nat, j: nat)
    ensures AlwaysMinimal(n, j) <==> j == 0 || j >= n
  {
    if j == 0 || j >= n {
      forall accepts: Program -> bool, seed: Program
        | var f := Reduce(accepts, seed, None); |f.program| == n && f.alias == Some(j)
        ensures OneMinimal(accepts, Reduce(accepts, seed, None).program)
      {
        MinimalWhenFileStays(accepts, seed);
      }
    } else {
      OverwrittenFileMissesADrop(n, j);
    }
  }
}
