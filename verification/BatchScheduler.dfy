/**
 * The campaign scheduler (orchestrator/scheduler.py): cases are prepared, run on the candidate one by
 * one or in batches, and reported, by threads that finish in any order.
 */
module BatchScheduler {
  import opened Prelude

  /** Preparing a case settles it, or leaves a candidate run to be made. */
  datatype Prep<P, R> = Final(result: R) | Ready(pending: P)

  /** The package that a candidate run is made from, and the slot it has there. */
  datatype Context = Context(dir: Option<string>, slot: Option<nat>)

  const ALONE := Context(None, None)

  /** What a batch returns: results by program, the package it was run from, and the programs' slots in it. */
  datatype Batch<C> = Batch(results: map<string, C>, dir: Option<string>, slots: map<string, nat>)

  /**
   * What is done for one case, as functions: prepare, run alone, run a batch, and load a result (None
   * stands for an exception); rerun in a package, or alone, for triage; report; write down the package
   * where the report has a place for it; and report a failed stage.
   */
  datatype World<!E, !P, !C, !L, !R> = World(
    prepare: E -> Prep<P, R>,
    run: P -> Option<C>,
    batch: seq<P> -> Option<Batch<C>>,
    id: P -> string,
    load: C -> Option<L>,
    rerunCount: nat,
    rerun: (P, Context, nat) -> Option<L>,
    report: (P, L, seq<Option<L>>) -> R,
    inPackage: (R, Context) -> R,
    failed: (P, string) -> R)

  // ---------------------------------------------------------------- thread pools

  /** An order in which n futures can complete. */
  predicate IsCompletionOrder(order: seq<nat>, n: nat) {
    && |order| == n
    && (forall k :: 0 <= k < |order| ==> order[k] < n)
    && (forall j, k :: 0 <= j < k < |order| ==> order[j] != order[k])
  }

  lemma {:induction false} OrderCovers(order: seq<nat>, n: nat, i: nat)
    requires IsCompletionOrder(order, n) && i < n
    ensures i in order
  {
    if i !in order {
      var seen := set k | 0 <= k < |order| :: order[k];
      AsMany(order, |order|);
      assert seen <= Below(n) - {i};
      SmallerSet(seen, Below(n) - {i});
    }
  }

  lemma {:induction false} AsMany(order: seq<nat>, n: nat)
    requires n <= |order| && forall j, k :: 0 <= j < k < |order| ==> order[j] != order[k]
    ensures |set k | 0 <= k < n :: order[k]| == n
  {
    if n > 0 {
      AsMany(order, n - 1);
      assert (set k | 0 <= k < n :: order[k]) == (set k | 0 <= k < n - 1 :: order[k]) + {order[n-1]};
    }
  }

  /** f on every item, in a loop or in a pool; each result goes into its item's slot. */
  method RunAll<A, B>(items: seq<A>, f: A -> B, jobs: int, order: seq<nat>) returns (slots: seq<Option<B>>)
    requires IsCompletionOrder(order, |items|)
    ensures |slots| == |items| && forall i :: 0 <= i < |items| ==> slots[i] == Some(f(items[i]))
  {
    slots := seq(|items|, _ => None);
    if jobs <= 1 || |items| <= 1 {
      for i := 0 to |items|
        invariant |slots| == |items| && forall j :: 0 <= j < i ==> slots[j] == Some(f(items[j]))
      {
        slots := slots[i := Some(f(items[i]))];
      }
    } else {
      for k := 0 to |order|
        invariant |slots| == |items| && forall j :: 0 <= j < k ==> slots[order[j]] == Some(f(items[order[j]]))
      {
        slots := slots[order[k] := Some(f(items[order[k]]))];
      }
      forall i | 0 <= i < |items| ensures slots[i] == Some(f(items[i])) {
        OrderCovers(order, |items|, i);
        var k :| 0 <= k < |order| && order[k] == i;
        assert slots[order[k]] == Some(f(items[order[k]]));
      }
    }
  }

  /** The results that are there, in order. */
  function Present<B>(slots: seq<Option<B>>): (r: seq<B>)
    ensures |r| <= |slots|
    ensures (forall i :: 0 <= i < |slots| ==> slots[i].Some?) ==>
      |r| == |slots| && forall i :: 0 <= i < |slots| ==> r[i] == slots[i].value
  {
    if slots == [] then []
    else Present(slots[..|slots|-1]) + (if slots[|slots|-1].Some? then [slots[|slots|-1].value] else [])
  }

  // ---------------------------------------------------------------- one case at a time

  /** The runs that triage would make. */
  function Reruns<E, P, C, L, R>(w: World<E, P, C, L, R>, p: P, context: Context): seq<Option<L>> {
    seq(w.rerunCount, n requires 0 <= n < w.rerunCount => w.rerun(p, context, n))
  }

  /** The report on a loaded result, with reruns from the same package. */
  function Finish<E, P, C, L, R>(w: World<E, P, C, L, R>, p: P, loaded: L, context: Context): R {
    w.inPackage(w.report(p, loaded, Reruns(w, p, context)), context)
  }

  function ScheduleOne<E, P, C, L, R>(w: World<E, P, C, L, R>, entry: E): R {
    match w.prepare(entry)
    case Final(r) => r
    case Ready(p) =>
      match w.run(p)
      case None => w.failed(p, "run_candidate_once")
      case Some(c) =>
        match w.load(c)
        case None => w.failed(p, "run_candidate_once")
        case Some(loaded) => Finish(w, p, loaded, ALONE)
  }

  /** The report on a case: its loaded result, with the reruns that triage would make from the given package. */
  ghost predicate ReportedFrom<E, P, C, L, R>(w: World<E, P, C, L, R>, p: P, loaded: L, context: Context, r: R) {
    r == w.inPackage(w.report(p, loaded, seq(w.rerunCount, n requires 0 <= n < w.rerunCount => w.rerun(p, context, n))), context)
  }

  /** What becomes of a case that is run alone. */
  ghost predicate AloneReport<E, P, C, L, R>(w: World<E, P, C, L, R>, entry: E, r: R) {
    match w.prepare(entry)
    case Final(result) => r == result
    case Ready(p) =>
      if w.run(p).None? || w.load(w.run(p).value).None? then r == w.failed(p, "run_candidate_once")
      else ReportedFrom(w, p, w.load(w.run(p).value).value, Context(None, None), r)
  }

  lemma FinishIsReport<E, P, C, L, R>(w: World<E, P, C, L, R>, p: P, loaded: L, context: Context)
    ensures ReportedFrom(w, p, loaded, context, Finish(w, p, loaded, context))
  {
    assert Reruns(w, p, context) == seq(w.rerunCount, n requires 0 <= n < w.rerunCount => w.rerun(p, context, n));
  }

  lemma OneIsReported<E, P, C, L, R>(w: World<E, P, C, L, R>, entry: E)
    ensures AloneReport(w, entry, ScheduleOne(w, entry))
  {
    hide Finish, ReportedFrom;
    if w.prepare(entry).Ready? && w.run(w.prepare(entry).pending).Some? {
      var p := w.prepare(entry).pending;
      var loaded := w.load(w.run(p).value);
      if loaded.Some? { FinishIsReport(w, p, loaded.value, ALONE); }
    }
  }

  /** Without batching, the list is that of the sequential loop, whatever order the threads finish in. */
  method ScheduleEntries<E, P, C, L, R>(w: World<E, P, C, L, R>, entries: seq<E>, jobs: int, order: seq<nat>)
    returns (r: seq<R>)
    requires IsCompletionOrder(order, |entries|)
    ensures |r| == |entries| && forall i :: 0 <= i < |entries| ==> r[i] == ScheduleOne(w, entries[i])
    ensures forall i :: 0 <= i < |entries| ==> AloneReport(w, entries[i], r[i])
  {
    hide ScheduleOne, AloneReport;
    var slots := RunAll(entries, e => ScheduleOne(w, e), jobs, order);
    r := Present(slots);
    forall i | 0 <= i < |entries| ensures AloneReport(w, entries[i], r[i]) { OneIsReported(w, entries[i]); }
  }

  // ---------------------------------------------------------------- batches of candidate runs

  function BatchSize(ps: nat, size: nat): nat { if ps < size then ps else size }

  /** Where a program of a batch was run. */
  function ContextOf<C>(b: Batch<C>, id: string): Context {
    Context(b.dir, if id in b.slots then Some(b.slots[id]) else None)
  }

  /** The report on one case of a batch that returned. */
  function FinishOne<E, P, C, L, R>(w: World<E, P, C, L, R>, b: Batch<C>, p: P): R {
    if w.id(p) !in b.results then w.failed(p, "load_candidate_batch_result") else
    match w.load(b.results[w.id(p)])
    case None => w.failed(p, "load_candidate_batch_result")
    case Some(loaded) => Finish(w, p, loaded, ContextOf(b, w.id(p)))
  }

  /** The reports on one chunk: if the batch fails, every case of the chunk, and no other, fails with it. */
  function ChunkResults<E, P, C, L, R>(w: World<E, P, C, L, R>, chunk: seq<P>): (r: seq<R>)
    ensures |r| == |chunk|
  {
    match w.batch(chunk)
    case None => seq(|chunk|, i requires 0 <= i < |chunk| => w.failed(chunk[i], "execute_candidate_batch_with_context"))
    case Some(m) => seq(|chunk|, i requires 0 <= i < |chunk| => FinishOne(w, m, chunk[i]))
  }

  /**
   * What becomes of the case at place k of a chunk: with a batch that fails it fails, and otherwise it is
   * reported from the batch's package and the slot that its program has there.
   */
  ghost predicate CaseReport<E, P, C, L, R>(w: World<E, P, C, L, R>, chunk: seq<P>, k: nat, r: R)
    requires k < |chunk|
  {
    var p := chunk[k];
    match w.batch(chunk)
    case None => r == w.failed(p, "execute_candidate_batch_with_context")
    case Some(b) =>
      if w.id(p) !in b.results || w.load(b.results[w.id(p)]).None? then r == w.failed(p, "load_candidate_batch_result")
      else
        var slot := if w.id(p) in b.slots then Some(b.slots[w.id(p)]) else None;
        ReportedFrom(w, p, w.load(b.results[w.id(p)]).value, Context(b.dir, slot), r)
  }

  lemma ChunkIsReported<E, P, C, L, R>(w: World<E, P, C, L, R>, chunk: seq<P>, k: nat)
    requires k < |chunk|
    ensures CaseReport(w, chunk, k, ChunkResults(w, chunk)[k])
  {
    hide Finish, ReportedFrom;
    var p := chunk[k];
    if w.batch(chunk).Some? {
      var b := w.batch(chunk).value;
      if w.id(p) in b.results && w.load(b.results[w.id(p)]).Some? {
        FinishIsReport(w, p, w.load(b.results[w.id(p)]).value, ContextOf(b, w.id(p)));
      }
    }
  }

  /** The reports on all pending cases, chunk by chunk. */
  function PendingResults<E, P, C, L, R>(w: World<E, P, C, L, R>, ps: seq<P>, size: nat): (r: seq<R>)
    requires size > 0
    ensures |r| == |ps|
    decreases |ps|
  {
    if ps == [] then [] else
    var n := BatchSize(|ps|, size);
    ChunkResults(w, ps[..n]) + PendingResults(w, ps[n..], size)
  }

  function Prepared<E, P, C, L, R>(w: World<E, P, C, L, R>, entries: seq<E>): seq<Prep<P, R>> {
    seq(|entries|, i requires 0 <= i < |entries| => w.prepare(entries[i]))
  }

  /** The positions of the cases that need a candidate run. */
  function Pending<P, R>(preps: seq<Prep<P, R>>): (r: seq<nat>)
    ensures forall k :: 0 <= k < |r| ==> r[k] < |preps| && preps[r[k]].Ready?
    ensures forall j, k :: 0 <= j < k < |r| ==> r[j] < r[k]
  {
    if preps == [] then [] else
    var n := |preps| - 1;
    Pending(preps[..n]) + if preps[n].Ready? then [n] else []
  }

  /** How many of the first i cases need a candidate run. */
  function Rank<P, R>(preps: seq<Prep<P, R>>, i: nat): nat
    requires i <= |preps|
  {
    if i == 0 then 0 else Rank(preps, i - 1) + if preps[i-1].Ready? then 1 else 0
  }

  lemma {:induction false} RankFinds<P, R>(preps: seq<Prep<P, R>>, i: nat)
    requires i < |preps| && preps[i].Ready?
    ensures Rank(preps, i) < |Pending(preps)| && Pending(preps)[Rank(preps, i)] == i
  {
    RankIsPrefix(preps, i);
    PendingOfPrefix(preps, i + 1);
    assert preps[..i+1][..i] == preps[..i];
  }

  lemma {:induction false} RankIsPrefix<P, R>(preps: seq<Prep<P, R>>, i: nat)
    requires i <= |preps|
    ensures Rank(preps, i) == |Pending(preps[..i])|
  {
    if i > 0 {
      RankIsPrefix(preps, i - 1);
      assert preps[..i][..i-1] == preps[..i-1];
    }
  }

  lemma {:induction false} PendingOfPrefix<P, R>(preps: seq<Prep<P, R>>, i: nat)
    requires i <= |preps|
    ensures Pending(preps[..i]) <= Pending(preps)
  {
    if i == |preps| {
      assert preps[..i] == preps;
    } else {
      var n := |preps| - 1;
      PendingOfPrefix(preps[..n], i);
      assert preps[..n][..i] == preps[..i];
    }
  }

  function PendingCases<P, R>(preps: seq<Prep<P, R>>): (r: seq<P>)
    ensures |r| == |Pending(preps)|
  {
    var at := Pending(preps);
    seq(|at|, k requires 0 <= k < |at| => preps[at[k]].pending)
  }

  /** One result for each entry, in the order of the entries. */
  function BatchResults<E, P, C, L, R>(w: World<E, P, C, L, R>, entries: seq<E>, size: nat): (r: seq<R>)
    requires size > 0
    ensures |r| == |entries|
  {
    var preps := Prepared(w, entries);
    var results := PendingResults(w, PendingCases(preps), size);
    seq(|entries|, i requires 0 <= i < |entries| => ResultAt(preps, results, i))
  }

  function ResultAt<P, R>(preps: seq<Prep<P, R>>, results: seq<R>, i: nat): R
    requires i < |preps| && |results| == |Pending(preps)|
  {
    match preps[i]
    case Final(r) => r
    case Ready(_) => RankFinds(preps, i); results[Rank(preps, i)]
  }

  // ---------------------------------------------------------------- the code

  method CollectPending<P, R>(preps: seq<Prep<P, R>>) returns (results: seq<Option<R>>, at: seq<nat>)
    ensures at == Pending(preps) && |results| == |preps|
    ensures forall i :: 0 <= i < |preps| ==>
      results[i] == if preps[i].Final? then Some(preps[i].result) else None
  {
    results, at := seq(|preps|, _ => None), [];
    for i := 0 to |preps|
      invariant at == Pending(preps[..i]) && |results| == |preps|
      invariant forall j :: 0 <= j < |preps| ==>
        results[j] == if j < i && preps[j].Final? then Some(preps[j].result) else None
    {
      assert preps[..i+1][..i] == preps[..i];
      if preps[i].Final? {
        results := results[i := Some(preps[i].result)];
      } else {
        at := at + [i];
      }
    }
    assert preps[..|preps|] == preps;
  }

  /** One chunk: each case's report goes into the slot of its entry. */
  method RunChunk<E, P, C, L, R>(w: World<E, P, C, L, R>, chunk: seq<P>, at: seq<nat>, slots: seq<Option<R>>,
      jobs: int, order: seq<nat>) returns (r: seq<Option<R>>)
    requires |at| == |chunk| && IsCompletionOrder(order, |chunk|)
    requires (forall k :: 0 <= k < |at| ==> at[k] < |slots|) && (forall j, k :: 0 <= j < k < |at| ==> at[j] != at[k])
    ensures |r| == |slots| && forall k :: 0 <= k < |at| ==> r[at[k]] == Some(ChunkResults(w, chunk)[k])
    ensures forall i :: 0 <= i < |slots| && i !in at ==> r[i] == slots[i]
    ensures forall k :: 0 <= k < |at| ==> r[at[k]].Some? && CaseReport(w, chunk, k, r[at[k]].value)
  {
    hide CaseReport;
    r := slots;
    var results := w.batch(chunk);
    var finished: seq<Option<R>>;
    if results.None? {
      finished := seq(|chunk|, k requires 0 <= k < |chunk| => Some(w.failed(chunk[k], "execute_candidate_batch_with_context")));
    } else {
      finished := RunAll(chunk, p => FinishOne(w, results.value, p), jobs, order);
    }
    for k := 0 to |at|
      invariant |r| == |slots| && forall j :: 0 <= j < k ==> r[at[j]] == Some(ChunkResults(w, chunk)[j])
      invariant forall i :: 0 <= i < |slots| && i !in at[..k] ==> r[i] == slots[i]
    {
      assert at[..k+1] == at[..k] + [at[k]];
      r := r[at[k] := finished[k]];
    }
    assert at[..|at|] == at;
    forall k | 0 <= k < |at| ensures r[at[k]].Some? && CaseReport(w, chunk, k, r[at[k]].value) {
      ChunkIsReported(w, chunk, k);
    }
  }

  /** The slots after the reports `done` on the first pending cases. */
  ghost predicate Slots<P, R>(preps: seq<Prep<P, R>>, results: seq<Option<R>>, done: seq<R>) {
    && |results| == |preps| && |done| <= |Pending(preps)|
    && (forall k :: 0 <= k < |done| ==> results[Pending(preps)[k]] == Some(done[k]))
    && (forall i :: 0 <= i < |preps| && preps[i].Final? ==> results[i] == Some(preps[i].result))
  }

  lemma SlotsFilled<P, R>(preps: seq<Prep<P, R>>, before: seq<Option<R>>, after: seq<Option<R>>, done: seq<R>,
      more: seq<R>, places: seq<nat>)
    requires Slots(preps, before, done) && |done| + |more| <= |Pending(preps)| && |after| == |before|
    requires places == Pending(preps)[|done|..|done| + |more|]
    requires forall k :: 0 <= k < |places| ==> places[k] < |after| && after[places[k]] == Some(more[k])
    requires forall i :: 0 <= i < |before| && i !in places ==> after[i] == before[i]
    ensures Slots(preps, after, done + more)
  {
    var at := Pending(preps);
    forall k | 0 <= k < |done| + |more| ensures after[at[k]] == Some((done + more)[k]) {
      if k >= |done| {
        assert places[k - |done|] == at[k];
      } else {
        assert at[k] !in places;
      }
    }
    forall i | 0 <= i < |preps| && preps[i].Final? ensures after[i] == Some(preps[i].result) {
      assert i !in places;
    }
  }

  /** With batching, whatever the job count and the orders in which threads finish. */
  method ScheduleEntriesWithCandidateBatch<E, P, C, L, R>(w: World<E, P, C, L, R>, entries: seq<E>, size: nat, jobs: int,
      order: seq<nat>, orders: (nat, nat) -> seq<nat>) returns (r: seq<R>)
    requires size > 0 && IsCompletionOrder(order, |entries|) && forall offset, n :: IsCompletionOrder(orders(offset, n), n)
    ensures r == BatchResults(w, entries, size)
  {
    hide ChunkResults, CaseReport, IsCompletionOrder, Rank, Slots, PendingResults, ResultAt, Present, Pending;
    if entries == [] { return []; }
    var prepared := RunAll(entries, w.prepare, jobs, order);
    var preps := Present(prepared);
    assert preps == Prepared(w, entries);
    var results, at := CollectPending(preps);
    var ps := PendingCases(preps);
    var offset := 0;
    ghost var done: seq<R> := [];
    ghost var all := PendingResults(w, ps, size);
    NothingDone(w, preps, results, ps, size);
    while offset < |ps|
      invariant 0 <= offset <= |ps| && |done| == offset && |results| == |preps|
      invariant Slots(preps, results, done) && all == done + PendingResults(w, ps[offset..], size)
    {
      var n := BatchSize(|ps| - offset, size);
      var chunk, places := ps[offset..offset + n], at[offset..offset + n];
      ghost var before := results;
      NextChunk(w, ps, offset, size, done, chunk);
      results := RunChunk(w, chunk, places, results, jobs, orders(offset, n));
      SlotsFilled(preps, before, results, done, ChunkResults(w, chunk), places);
      done := done + ChunkResults(w, chunk);
      offset := offset + n;
    }
    assert ps[offset..] == [] && PendingResults(w, [], size) == [];
    assert done == all;
    AllPresent(preps, results, done);
    r := Present(results);
  }

  lemma NothingDone<E, P, C, L, R>(w: World<E, P, C, L, R>, preps: seq<Prep<P, R>>, results: seq<Option<R>>,
      ps: seq<P>, size: nat)
    requires size > 0 && |results| == |preps|
    requires forall i :: 0 <= i < |preps| ==>
      results[i] == if preps[i].Final? then Some(preps[i].result) else None
    ensures Slots(preps, results, []) && PendingResults(w, ps, size) == [] + PendingResults(w, ps[0..], size)
  {
    assert ps[0..] == ps;
  }

  lemma NextChunk<E, P, C, L, R>(w: World<E, P, C, L, R>, ps: seq<P>, offset: nat, size: nat, done: seq<R>, chunk: seq<P>)
    requires size > 0 && offset < |ps|
    requires var n := BatchSize(|ps| - offset, size); chunk == ps[offset..offset + n]
    requires PendingResults(w, ps, size) == done + PendingResults(w, ps[offset..], size)
    ensures PendingResults(w, ps, size) == done + ChunkResults(w, chunk) + PendingResults(w, ps[offset + |chunk|..], size)
  {
    hide ChunkResults, CaseReport;
    var rest, n := ps[offset..], BatchSize(|ps| - offset, size);
    assert rest[..n] == chunk && rest[n..] == ps[offset + n..];
    assert PendingResults(w, rest, size) == ChunkResults(w, chunk) + PendingResults(w, ps[offset + n..], size);
    Regroup(done, ChunkResults(w, chunk), PendingResults(w, ps[offset + n..], size));
  }

  lemma Regroup<R>(a: seq<R>, b: seq<R>, c: seq<R>)
    ensures a + (b + c) == a + b + c
  {
  }

  lemma AllPresent<P, R>(preps: seq<Prep<P, R>>, results: seq<Option<R>>, done: seq<R>)
    requires Slots(preps, results, done) && |done| == |Pending(preps)|
    ensures forall i :: 0 <= i < |preps| ==> results[i] == Some(ResultAt(preps, done, i))
  {
    forall i | 0 <= i < |preps| ensures results[i] == Some(ResultAt(preps, done, i)) {
      if preps[i].Ready? { RankFinds(preps, i); }
    }
  }

  // ---------------------------------------------------------------- what it means

  /** The chunk that pending case q is run in. */
  function ChunkOf<P>(ps: seq<P>, size: nat, q: nat): seq<P>
    requires size > 0 && q < |ps|
    decreases |ps|
  {
    var n := BatchSize(|ps|, size);
    if q < n then ps[..n] else ChunkOf(ps[n..], size, q - n)
  }

  /** Where in its chunk the case is. */
  function PlaceOf(count: nat, size: nat, q: nat): (k: nat)
    requires size > 0 && q < count
    decreases count
  {
    var n := BatchSize(count, size);
    if q < n then q else PlaceOf(count - n, size, q - n)
  }

  /** The chunks that the loop cuts the pending cases into. */
  function Chunks<P>(ps: seq<P>, size: nat): seq<seq<P>>
    requires size > 0
    decreases |ps|
  {
    if ps == [] then [] else
    var n := BatchSize(|ps|, size);
    [ps[..n]] + Chunks(ps[n..], size)
  }

  function Joined<P>(chunks: seq<seq<P>>): seq<P> {
    if chunks == [] then [] else chunks[0] + Joined(chunks[1..])
  }

  /** The chunks, one after the other, are the pending cases; all but the last are of the batch size. */
  lemma {:induction false} ChunksPartition<P>(ps: seq<P>, size: nat)
    requires size > 0
    ensures Joined(Chunks(ps, size)) == ps
    ensures forall i :: 0 <= i < |Chunks(ps, size)| ==> 0 < |Chunks(ps, size)[i]| <= size
    ensures forall i :: 0 <= i < |Chunks(ps, size)| - 1 ==> |Chunks(ps, size)[i]| == size
    decreases |ps|
  {
    if ps != [] {
      var n := BatchSize(|ps|, size);
      ChunksPartition(ps[n..], size);
      assert Chunks(ps, size)[1..] == Chunks(ps[n..], size);
      assert ps == ps[..n] + ps[n..];
      assert |Chunks(ps, size)| > 1 ==> ps[n..] != [];
    }
  }

  /** The case at place k of chunk number c is number c * size + k of the pending cases. */
  lemma {:induction false} ChunkOfCase<P>(ps: seq<P>, size: nat, c: nat, k: nat, q: nat)
    requires k < size && q == c * size + k && q < |ps|
    ensures c < |Chunks(ps, size)| && ChunkOf(ps, size, q) == Chunks(ps, size)[c] && PlaceOf(|ps|, size, q) == k
    decreases c
  {
    OneChunkLess(c, size);
    if c == 0 {
      FirstChunk(ps, size);
    } else {
      ChunkOfCase(ps[size..], size, c - 1, k, q - size);
      LaterChunk(ps, size, c, q);
    }
  }

  lemma OneChunkLess(c: nat, size: nat)
    ensures if c == 0 then c * size == 0 else c * size == (c - 1) * size + size && 0 <= (c - 1) * size
  {
  }

  lemma FirstChunk<P>(ps: seq<P>, size: nat)
    requires size > 0 && ps != []
    ensures Chunks(ps, size) != [] && Chunks(ps, size)[0] == ps[..BatchSize(|ps|, size)]
  {
  }

  lemma LaterChunk<P>(ps: seq<P>, size: nat, c: nat, q: nat)
    requires 0 < size <= q < |ps| && 0 < c && c - 1 < |Chunks(ps[size..], size)|
    ensures c < |Chunks(ps, size)| && Chunks(ps, size)[c] == Chunks(ps[size..], size)[c-1]
    ensures ChunkOf(ps, size, q) == ChunkOf(ps[size..], size, q - size)
    ensures PlaceOf(|ps|, size, q) == PlaceOf(|ps| - size, size, q - size)
  {
  }

  /** Each pending case is in one chunk, of at most the batch size, and its report is made there. */
  lemma {:induction false} ReportedInItsChunk<E, P, C, L, R>(w: World<E, P, C, L, R>, ps: seq<P>, size: nat, q: nat)
    requires size > 0 && q < |ps|
    ensures var chunk, k := ChunkOf(ps, size, q), PlaceOf(|ps|, size, q);
      && k < |chunk| <= size && chunk[k] == ps[q]
      && PendingResults(w, ps, size)[q] == ChunkResults(w, chunk)[k]
    decreases |ps|
  {
    hide ChunkResults;
    var n := BatchSize(|ps|, size);
    if q >= n {
      ReportedInItsChunk(w, ps[n..], size, q - n);
      assert ps[n..][q - n] == ps[q];
    }
  }

  /** Every entry is settled when it is prepared, or is one case of one chunk and reported from there. */
  lemma EveryEntryIsReported<E, P, C, L, R>(w: World<E, P, C, L, R>, entries: seq<E>, size: nat, i: nat)
    requires size > 0 && i < |entries|
    ensures match w.prepare(entries[i])
      case Final(result) => BatchResults(w, entries, size)[i] == result
      case Ready(p) =>
        var ps, q := PendingCases(Prepared(w, entries)), Rank(Prepared(w, entries), i);
        && q < |ps| && ps[q] == p
        && var chunk, k := ChunkOf(ps, size, q), PlaceOf(|ps|, size, q);
           k < |chunk| && chunk[k] == p && CaseReport(w, chunk, k, BatchResults(w, entries, size)[i])
  {
    hide ChunkResults, CaseReport;
    var preps := Prepared(w, entries);
    if preps[i].Ready? {
      var ps, q := PendingCases(preps), Rank(preps, i);
      RankFinds(preps, i);
      ReportedInItsChunk(w, ps, size, q);
      ChunkIsReported(w, ChunkOf(ps, size, q), PlaceOf(|ps|, size, q));
    }
  }

  /** A batch that fails, or answers differently, changes the reports of its own cases only. */
  lemma FailingChunkIsIsolated<E, P, C, L, R>(w: World<E, P, C, L, R>, v: World<E, P, C, L, R>, ps: seq<P>,
      size: nat, q: nat)
    requires size > 0 && q < |ps|
    requires w == v.(batch := w.batch) && w.batch(ChunkOf(ps, size, q)) == v.batch(ChunkOf(ps, size, q))
    ensures PendingResults(w, ps, size)[q] == PendingResults(v, ps, size)[q]
  {
    ReportedInItsChunk(w, ps, size, q);
    ReportedInItsChunk(v, ps, size, q);
  }

  /**
   * A batch gives each of its cases the result that a run of its own would give, and reruns in its
   * package give what reruns of their own would.
   */
  ghost predicate Faithful<E, P, C, L, R>(w: World<E, P, C, L, R>, entries: seq<E>, size: nat)
    requires size > 0
  {
    var ps := PendingCases(Prepared(w, entries));
    forall q :: 0 <= q < |ps| ==> FaithfulFor(w, ChunkOf(ps, size, q), ps[q])
  }

  ghost predicate FaithfulFor<E, P, C, L, R>(w: World<E, P, C, L, R>, chunk: seq<P>, p: P) {
    && w.run(p).Some? && w.load(w.run(p).value).Some?
    && w.batch(chunk).Some?
    && w.id(p) in w.batch(chunk).value.results && w.batch(chunk).value.results[w.id(p)] == w.run(p).value
    && forall n: nat :: w.rerun(p, ContextOf(w.batch(chunk).value, w.id(p)), n) == w.rerun(p, ALONE, n)
  }

  /** What there is to report about a case that is run alone, before a package is written into it. */
  function Findings<E, P, C, L, R>(w: World<E, P, C, L, R>, p: P): R
    requires w.run(p).Some? && w.load(w.run(p).value).Some?
  {
    w.report(p, w.load(w.run(p).value).value, Reruns(w, p, ALONE))
  }

  /** Then batching changes nothing but what is said about the package: the list is that of the loop over single cases. */
  lemma BatchingRefinesTheLoop<E, P, C, L, R>(w: World<E, P, C, L, R>, entries: seq<E>, size: nat, i: nat)
    requires size > 0 && Faithful(w, entries, size) && i < |entries|
    ensures match w.prepare(entries[i])
      case Final(r) => BatchResults(w, entries, size)[i] == ScheduleOne(w, entries[i]) == r
      case Ready(p) =>
        var ps, q := PendingCases(Prepared(w, entries)), Rank(Prepared(w, entries), i);
        && q < |ps| && ps[q] == p && w.batch(ChunkOf(ps, size, q)).Some?
        && w.run(p).Some? && w.load(w.run(p).value).Some?
        && ScheduleOne(w, entries[i]) == w.inPackage(Findings(w, p), ALONE)
        && BatchResults(w, entries, size)[i]
           == w.inPackage(Findings(w, p), ContextOf(w.batch(ChunkOf(ps, size, q)).value, w.id(p)))
  {
    hide ChunkResults;
    var preps := Prepared(w, entries);
    var ps := PendingCases(preps);
    if preps[i].Ready? {
      RankFinds(preps, i);
      var q := Rank(preps, i);
      ReportedInItsChunk(w, ps, size, q);
      assert FaithfulFor(w, ChunkOf(ps, size, q), ps[q]);
      FaithfulReport(w, ChunkOf(ps, size, q), PlaceOf(|ps|, size, q), entries[i]);
    }
  }

  lemma FaithfulReport<E, P, C, L, R>(w: World<E, P, C, L, R>, chunk: seq<P>, k: nat, entry: E)
    requires k < |chunk| && w.prepare(entry) == Ready(chunk[k]) && FaithfulFor(w, chunk, chunk[k])
    ensures ScheduleOne(w, entry) == w.inPackage(Findings(w, chunk[k]), ALONE)
    ensures ChunkResults(w, chunk)[k]
         == w.inPackage(Findings(w, chunk[k]), ContextOf(w.batch(chunk).value, w.id(chunk[k])))
  {
    var p := chunk[k];
    var context := ContextOf(w.batch(chunk).value, w.id(p));
    assert Reruns(w, p, context) == Reruns(w, p, ALONE);
  }
}
