/**
 * The packaged-bundle cache (targets/asterinas/cache_support.py) as a state machine: any number of
 * processes run ensure_packaged_docker_bundle on one package directory, one file-system step at a
 * time, and any of them may raise or die between two steps. The build runs in a named container
 * that can outlive the process that started it and go on writing the bundle.
 */
module BundleCache {
  import opened Prelude

  /** Docker image, initramfs digest, kernel arguments and revision: what a bundle is built from. */
  type Metadata = string

  /** A metadata file that is still being written may read as anything. */
  datatype MetaFile = Missing | Partial(text: Option<Metadata>) | Complete(metadata: Metadata)

  /** What stands in the bundle directory: nothing, a mixture, or the output of one finished build. */
  datatype Bundle = Absent | Mixed | Built(metadata: Metadata)

  datatype Pc =
    | Idle                    // not in the function, or dead
    | Waiting                 // before flock returns
    | CheckStamp | CheckToml | CheckMeta
    | UnlinkStamp | UnlinkMeta | RemoveContainer | StartBuild
    | Building                // the container runs
    | Reaping(ok: bool)       // the build ended; the container is removed in the finally clause
    | OpenMeta | FinishMeta | OpenStamp
    | Leaving(normal: bool)   // about to release the lock, by return or by exception

  datatype Process = Process(pc: Pc, expected: Metadata)

  datatype State = State(
    lock: Option<nat>, stamp: bool, meta: MetaFile, toml: bool, bundle: Bundle,
    container: Option<Metadata>, procs: map<nat, Process>)
  {
    function At(p: nat, pc: Pc): State
      requires p in procs
    {
      this.(procs := procs[p := procs[p].(pc := pc)])
    }
  }

  datatype Event =
    | Call(expected: Metadata)
    | Lock
    | Check                                                     // one of the three tests of the reuse condition
    | Advance                                                   // the next statement
    | BuildEnds(ok: bool, bundle: Bundle, toml: bool)           // docker run returns
    | Raise                                                     // an exception leaves the locked section
    | Crash                                                     // the process dies; the kernel drops its lock
    | ContainerActs(bundle: Bundle, toml: bool, exits: bool)    // the container writes, perhaps for the last time

  predicate Reads(meta: MetaFile, expected: Metadata) {
    match meta
    case Missing => false
    case Partial(text) => text == Some(expected)
    case Complete(m) => m == expected
  }

  predicate InSection(pc: Pc) { pc != Idle && pc != Waiting }

  // ---------------------------------------------------------------- the steps

  ghost predicate CheckStep(s: State, p: nat, t: State)
    requires p in s.procs
  {
    match s.procs[p].pc
    case CheckStamp => t == s.At(p, if s.stamp then CheckToml else UnlinkStamp)
    case CheckToml => t == s.At(p, if s.toml then CheckMeta else UnlinkStamp)
    case CheckMeta => t == s.At(p, if Reads(s.meta, s.procs[p].expected) then Leaving(true) else UnlinkStamp)
    case _ => false
  }

  ghost predicate AdvanceStep(s: State, p: nat, t: State)
    requires p in s.procs
  {
    match s.procs[p].pc
    case UnlinkStamp => t == s.(stamp := false).At(p, UnlinkMeta)
    case UnlinkMeta => t == s.(meta := Missing).At(p, RemoveContainer)
    // docker rm -f is not checked: it may leave the container as it is
    case RemoveContainer => t == s.(container := None).At(p, StartBuild) || t == s.At(p, StartBuild)
    // docker refuses to run a second container of the same name
    case StartBuild =>
      if s.container.Some? then t == s.At(p, Reaping(false))
      else t == s.(container := Some(s.procs[p].expected), bundle := Mixed).At(p, Building)
    case Reaping(ok) =>
      var next := if ok then OpenMeta else Leaving(false);
      t == s.(container := None).At(p, next) || t == s.At(p, next)
    case OpenMeta => t.meta.Partial? && t == s.(meta := t.meta).At(p, FinishMeta)
    case FinishMeta => t == s.(meta := Complete(s.procs[p].expected)).At(p, OpenStamp)
    case OpenStamp => t == s.(stamp := true).At(p, Leaving(true))
    case Leaving(_) => t == s.(lock := None).At(p, Idle)
    case _ => false
  }

  /** One step of process p, or of the container. */
  ghost predicate Step(s: State, p: nat, e: Event, t: State) {
    match e
    case Call(expected) =>
      (p in s.procs ==> s.procs[p].pc == Idle) && t == s.(procs := s.procs[p := Process(Waiting, expected)])
    case Lock => p in s.procs && s.procs[p].pc == Waiting && s.lock == None && t == s.(lock := Some(p)).At(p, CheckStamp)
    case Check => p in s.procs && CheckStep(s, p, t)
    case Advance => p in s.procs && AdvanceStep(s, p, t)
    case BuildEnds(ok, bundle, toml) =>
      && p in s.procs && s.procs[p].pc == Building
      && if ok
         then t == s.(container := None, bundle := Built(s.procs[p].expected), toml := toml).At(p, Reaping(true))
         else t == s.(bundle := bundle, toml := toml).At(p, Reaping(false))
    case Raise => p in s.procs && InSection(s.procs[p].pc) && t == s.At(p, Leaving(false))
    case Crash => p in s.procs && t == s.(lock := if s.lock == Some(p) then None else s.lock).At(p, Idle)
    case ContainerActs(bundle, toml, exits) =>
      s.container.Some? && t == s.(bundle := bundle, toml := toml, container := if exits then None else s.container)
  }

  // ---------------------------------------------------------------- the invariant

  /** A ready stamp promises complete metadata and the bundle of the finished build it describes. */
  ghost predicate StampPromise(s: State) {
    s.stamp ==> s.meta.Complete? && s.bundle == Built(s.meta.metadata) && s.container == None
  }

  /** What holds in the directory while the lock's holder is at a statement. */
  ghost predicate HolderPromise(s: State, pc: Pc, expected: Metadata) {
    match pc
    case CheckToml => s.stamp
    case CheckMeta => s.stamp
    case UnlinkMeta => !s.stamp
    case RemoveContainer => !s.stamp
    case StartBuild => !s.stamp
    case Building => !s.stamp
    case Reaping(ok) => !s.stamp && (ok ==> s.bundle == Built(expected) && s.container == None)
    case OpenMeta => !s.stamp && s.bundle == Built(expected) && s.container == None
    case FinishMeta => !s.stamp && s.bundle == Built(expected) && s.container == None
    case OpenStamp => !s.stamp && s.bundle == Built(expected) && s.container == None && s.meta == Complete(expected)
    case Leaving(normal) => normal ==> s.stamp && s.meta == Complete(expected)
    case _ => true
  }

  ghost predicate Inv(s: State) {
    && StampPromise(s)
    && (forall p :: p in s.procs && InSection(s.procs[p].pc) ==>
          s.lock == Some(p) && HolderPromise(s, s.procs[p].pc, s.procs[p].expected))
    && (s.lock.Some? ==> s.lock.value in s.procs && InSection(s.procs[s.lock.value].pc))
  }

  /** A process in the locked section holds the lock, so nobody else is in the section. */
  lemma HolderIsAlone(s: State, p: nat)
    requires Inv(s) && p in s.procs && InSection(s.procs[p].pc)
    ensures s.lock == Some(p) && HolderPromise(s, s.procs[p].pc, s.procs[p].expected)
    ensures forall q :: q in s.procs && InSection(s.procs[q].pc) ==> q == p
  {
    forall q | q in s.procs && InSection(s.procs[q].pc) ensures q == p {
      assert s.lock == Some(q);
    }
  }

  /** When only p moved and it still holds the lock, its own promise is all there is to show. */
  lemma HolderMoved(s: State, p: nat, pc: Pc, t: State)
    requires Inv(s) && p in s.procs && InSection(s.procs[p].pc) && InSection(pc)
    requires t.procs == s.procs[p := s.procs[p].(pc := pc)] && t.lock == s.lock
    requires StampPromise(t) && HolderPromise(t, pc, s.procs[p].expected)
    ensures Inv(t)
  {
    HolderIsAlone(s, p);
  }

  lemma CheckKeepsInv(s: State, p: nat, t: State)
    requires Inv(s) && p in s.procs && CheckStep(s, p, t)
    ensures Inv(t)
  {
    HolderIsAlone(s, p);
    HolderMoved(s, p, t.procs[p].pc, t);
  }

  lemma AdvanceKeepsInv(s: State, p: nat, t: State)
    requires Inv(s) && p in s.procs && AdvanceStep(s, p, t)
    ensures Inv(t)
  {
    HolderIsAlone(s, p);
    if InSection(t.procs[p].pc) {
      HolderMoved(s, p, t.procs[p].pc, t);
    }
  }

  lemma StepKeepsInv(s: State, p: nat, e: Event, t: State)
    requires Inv(s) && Step(s, p, e, t)
    ensures Inv(t)
  {
    match e {
      case Call(_) =>
      case Lock => LockKeepsInv(s, p, t);
      case Check => CheckKeepsInv(s, p, t);
      case Advance => AdvanceKeepsInv(s, p, t);
      case BuildEnds(ok, _, _) =>
        HolderIsAlone(s, p);
        HolderMoved(s, p, Reaping(ok), t);
      case Raise =>
        HolderIsAlone(s, p);
        HolderMoved(s, p, Leaving(false), t);
      case Crash => CrashKeepsInv(s, p, t);
      case ContainerActs(_, _, _) => ContainerKeepsInv(s, p, e, t);
    }
  }

  lemma LockKeepsInv(s: State, p: nat, t: State)
    requires Inv(s) && Step(s, p, Lock, t)
    ensures Inv(t)
  {
  }

  lemma CrashKeepsInv(s: State, p: nat, t: State)
    requires Inv(s) && Step(s, p, Crash, t)
    ensures Inv(t)
  {
    if InSection(s.procs[p].pc) {
      HolderIsAlone(s, p);
    }
  }

  /** While a container runs there is no stamp, so whatever it writes breaks no promise. */
  lemma ContainerKeepsInv(s: State, p: nat, e: Event, t: State)
    requires Inv(s) && e.ContainerActs? && Step(s, p, e, t)
    ensures Inv(t)
  {
    forall q | q in t.procs && InSection(t.procs[q].pc)
      ensures HolderPromise(t, t.procs[q].pc, t.procs[q].expected)
    {
      HolderIsAlone(s, q);
    }
  }

  // ---------------------------------------------------------------- runs

  /** Before its first use a package has no stamp; everything else in the directory may be left over. */
  predicate Initial(s: State) {
    s.procs == map[] && s.lock == None && !s.stamp
  }

  ghost predicate Next(s: State, t: State) { exists p, e :: Step(s, p, e, t) }

  ghost predicate Run(states: seq<State>) {
    && states != [] && Initial(states[0])
    && forall i :: 0 < i < |states| ==> Next(states[i-1], states[i])
  }

  lemma {:induction false} RunKeepsInv(states: seq<State>, n: nat)
    requires Run(states) && n < |states|
    ensures Inv(states[n])
  {
    if n > 0 {
      RunKeepsInv(states, n - 1);
      assert Next(states[n-1], states[n]);
      var p, e :| Step(states[n-1], p, e, states[n]);
      StepKeepsInv(states[n-1], p, e, states[n]);
    }
  }

  /**
   * Safety, in every state of every run: a ready stamp means complete metadata and the bundle of
   * the finished build it describes, and no two processes are in the locked section.
   */
  lemma CacheIsSafe(states: seq<State>, n: nat)
    requires Run(states) && n < |states|
    ensures StampPromise(states[n])
    ensures forall p, q :: (p in states[n].procs && q in states[n].procs
      && InSection(states[n].procs[p].pc) && InSection(states[n].procs[q].pc)) ==> p == q
  {
    RunKeepsInv(states, n);
    forall p, q | p in states[n].procs && q in states[n].procs
      && InSection(states[n].procs[p].pc) && InSection(states[n].procs[q].pc)
      ensures p == q
    {
      HolderIsAlone(states[n], p);
    }
  }

  /** A process about to return normally, after reuse or rebuild, has a bundle of the metadata it expects. */
  lemma ReturnsMatchingBundle(states: seq<State>, n: nat, p: nat)
    requires Run(states) && n < |states| && p in states[n].procs && states[n].procs[p].pc == Leaving(true)
    ensures states[n].stamp && states[n].meta == Complete(states[n].procs[p].expected)
    ensures states[n].bundle == Built(states[n].procs[p].expected)
  {
    RunKeepsInv(states, n);
    HolderIsAlone(states[n], p);
  }

  /** The reuse branch is taken exactly over a bundle that matches, and it changes no file. */
  lemma ReuseOnlyMatching(states: seq<State>, n: nat, p: nat)
    requires Run(states) && n + 1 < |states| && p in states[n].procs
    requires states[n].procs[p].pc == CheckMeta && Step(states[n], p, Check, states[n+1])
    ensures states[n+1].procs[p].pc == Leaving(true) <==> states[n].bundle == Built(states[n].procs[p].expected)
    ensures states[n+1] == states[n].(procs := states[n+1].procs)
  {
    RunKeepsInv(states, n);
    HolderIsAlone(states[n], p);
  }

  // ---------------------------------------------------------------- the cache caches

  ghost predicate Checking(s: State, p: nat) {
    p in s.procs && s.procs[p].pc in {CheckStamp, CheckToml, CheckMeta}
  }

  /** n tests of process p one after the other lead from s to t. */
  ghost predicate Checks(s: State, p: nat, n: nat, t: State)
    decreases n
  {
    if n == 0 then t == s else exists m :: Step(s, p, Check, m) && Checks(m, p, n - 1, t)
  }

  /** The bundle directory holds what process p would build. */
  predicate Cached(s: State, p: nat) {
    p in s.procs && s.stamp && s.toml && s.bundle == Built(s.procs[p].expected)
  }

  /** However many tests it takes, they end in reuse exactly over a ready bundle, and in a rebuild otherwise. */
  lemma TestsDecide(s: State, p: nat, n: nat, t: State)
    requires Inv(s) && Checking(s, p) && Checks(s, p, n, t) && !Checking(t, p)
    requires s.procs[p].pc == CheckMeta ==> s.toml
    ensures t == s.At(p, if Cached(s, p) then Leaving(true) else UnlinkStamp)
    decreases n
  {
    var m :| Step(s, p, Check, m) && Checks(m, p, n - 1, t);
    HolderIsAlone(s, p);
    CheckKeepsInv(s, p, m);
    if Checking(m, p) {
      TestsDecide(m, p, n - 1, t);
    } else {
      assert n == 1;
    }
  }

  lemma AtTwice(s: State, p: nat, pc: Pc, next: Pc)
    requires p in s.procs
    ensures s.At(p, pc).At(p, next) == s.At(p, next)
  {
    assert s.procs[p := s.procs[p].(pc := pc)][p := s.procs[p].(pc := next)] == s.procs[p := s.procs[p].(pc := next)];
  }

  lemma OneMoreCheck(s: State, p: nat, m: State, n: nat, t: State)
    requires Step(s, p, Check, m) && Checks(m, p, n, t)
    ensures Checks(s, p, n + 1, t)
  {
    hide Step;
  }

  /** The tests of a process in the section: the first one that fails sends it to the rebuild. */
  lemma TestsEnd(s: State, p: nat) returns (n: nat)
    requires Inv(s) && p in s.procs && s.procs[p].pc == CheckStamp
    ensures 1 <= n <= 3 && Checks(s, p, n, s.At(p, if Cached(s, p) then Leaving(true) else UnlinkStamp))
  {
    var u, v, t := s.At(p, CheckToml), s.At(p, CheckMeta), s.At(p, if Cached(s, p) then Leaving(true) else UnlinkStamp);
    HolderIsAlone(s, p);
    AtTwice(s, p, CheckToml, t.procs[p].pc);
    AtTwice(s, p, CheckToml, CheckMeta);
    AtTwice(s, p, CheckMeta, t.procs[p].pc);
    TestsLead(s, p, u, v, t);
    assert Checks(t, p, 0, t);
    if !s.stamp {
      OneMoreCheck(s, p, t, 0, t);
      return 1;
    } else if !s.toml {
      OneMoreCheck(u, p, t, 0, t);
      OneMoreCheck(s, p, u, 1, t);
      return 2;
    }
    OneMoreCheck(v, p, t, 0, t);
    OneMoreCheck(u, p, v, 1, t);
    OneMoreCheck(s, p, u, 2, t);
    return 3;
  }

  lemma TestsLead(s: State, p: nat, u: State, v: State, t: State)
    requires StampPromise(s) && p in s.procs && s.procs[p].pc == CheckStamp
    requires u == s.At(p, CheckToml) && v == s.At(p, CheckMeta) == u.At(p, CheckMeta)
    requires var pc := if Cached(s, p) then Leaving(true) else UnlinkStamp;
      t == s.At(p, pc) == u.At(p, pc) == v.At(p, pc)
    ensures Step(s, p, Check, if s.stamp then u else t)
    ensures s.stamp ==> Step(u, p, Check, if s.toml then v else t)
    ensures s.stamp && s.toml ==> Step(v, p, Check, t)
  {
  }

  /**
   * A call that finds the stamp, bundle.toml and the bundle it wants returns without changing anything, and is
   * the only one that does not go on to delete and rebuild.
   */
  lemma ReusedIffReady(s: State, p: nat)
    requires Inv(s) && p in s.procs && s.procs[p].pc == CheckStamp
    ensures TestsGive(s, p, Leaving(true)) <==> s.stamp && s.toml && s.bundle == Built(s.procs[p].expected)
    ensures TestsGive(s, p, UnlinkStamp) <==> !(s.stamp && s.toml && s.bundle == Built(s.procs[p].expected))
  {
    hide Inv, Checks;
    var n := TestsEnd(s, p);
    var t, u := s.At(p, Leaving(true)), s.At(p, UnlinkStamp);
    assert t.procs[p].pc != u.procs[p].pc;
    if Cached(s, p) {
      assert Checks(s, p, n, t);
      if k: nat :| Checks(s, p, k, u) { TestsDecide(s, p, k, u); }
    } else {
      assert Checks(s, p, n, u);
      if k: nat :| Checks(s, p, k, t) { TestsDecide(s, p, k, t); }
    }
  }

  ghost predicate TestsGive(s: State, p: nat, pc: Pc)
    requires p in s.procs
  {
    exists n: nat :: Checks(s, p, n, s.At(p, pc))
  }

  /** A step of p that neither raises nor dies, and whose command succeeds. */
  ghost predicate GoodStep(s: State, p: nat, t: State) {
    exists e :: Step(s, p, e, t) && !e.Crash? && !e.Raise? && !(e.BuildEnds? && !e.ok)
  }

  ghost predicate GoodSteps(s: State, p: nat, n: nat, t: State)
    decreases n
  {
    if n == 0 then t == s else exists m :: GoodStep(s, p, m) && GoodSteps(m, p, n - 1, t)
  }

  /** How many statements are left of a rebuild. */
  function Left(pc: Pc): nat {
    match pc
    case UnlinkStamp => 9
    case UnlinkMeta => 8
    case RemoveContainer => 7
    case StartBuild => 6
    case Building => 5
    case Reaping(_) => 4
    case OpenMeta => 3
    case FinishMeta => 2
    case OpenStamp => 1
    case _ => 0
  }

  /** What stands in the directory at those statements when all goes well. */
  predicate GoesWell(s: State, p: nat) {
    && p in s.procs && Left(s.procs[p].pc) > 0 && s.procs[p].pc != Reaping(false)
    && (Left(s.procs[p].pc) <= 6 ==> s.container == if s.procs[p].pc == Building then Some(s.procs[p].expected) else None)
    && (Left(s.procs[p].pc) <= 4 ==> s.toml && s.bundle == Built(s.procs[p].expected))
    && (s.procs[p].pc == OpenStamp ==> s.meta == Complete(s.procs[p].expected))
  }

  /** The directory after a rebuild, and the process about to return. */
  function Rebuilt(s: State, p: nat): State
    requires p in s.procs
  {
    var x := s.procs[p].expected;
    s.(stamp := true, meta := Complete(x), toml := true, bundle := Built(x), container := None).At(p, Leaving(true))
  }

  /** Without a crash or a failing command a rebuild leads to a normal return over the new bundle. */
  lemma {:induction false} RebuildSucceeds(s: State, p: nat)
    requires GoesWell(s, p)
    ensures GoodSteps(s, p, Left(s.procs[p].pc), Rebuilt(s, p))
    decreases Left(s.procs[p].pc)
  {
    hide GoodStep;
    var t := GoodNext(s, p);
    GoodNextIsAStep(s, p);
    GoodNextGoesOn(s, p);
    SameGoal(s, p);
    if s.procs[p].pc == OpenStamp {
      assert GoodSteps(t, p, 0, Rebuilt(s, p));
    } else {
      RebuildSucceeds(t, p);
    }
    assert GoodSteps(t, p, Left(s.procs[p].pc) - 1, Rebuilt(s, p));
  }

  function GoodNext(s: State, p: nat): State
    requires p in s.procs
  {
    var x := s.procs[p].expected;
    match s.procs[p].pc
    case UnlinkStamp => s.(stamp := false).At(p, UnlinkMeta)
    case UnlinkMeta => s.(meta := Missing).At(p, RemoveContainer)
    case RemoveContainer => s.(container := None).At(p, StartBuild)
    case StartBuild => s.(container := Some(x), bundle := Mixed).At(p, Building)
    case Building => s.(container := None, bundle := Built(x), toml := true).At(p, Reaping(true))
    case Reaping(_) => s.At(p, OpenMeta)
    case OpenMeta => s.(meta := Partial(None)).At(p, FinishMeta)
    case FinishMeta => s.(meta := Complete(x)).At(p, OpenStamp)
    case _ => s.(stamp := true).At(p, Leaving(true))
  }

  lemma GoodNextIsAStep(s: State, p: nat)
    requires GoesWell(s, p)
    ensures GoodStep(s, p, GoodNext(s, p))
  {
    var x := s.procs[p].expected;
    if s.procs[p].pc == Building {
      assert Step(s, p, BuildEnds(true, Built(x), true), GoodNext(s, p));
    } else {
      assert Step(s, p, Advance, GoodNext(s, p));
    }
  }

  lemma GoodNextGoesOn(s: State, p: nat)
    requires GoesWell(s, p)
    ensures if s.procs[p].pc == OpenStamp then GoodNext(s, p) == Rebuilt(s, p)
            else GoesWell(GoodNext(s, p), p) && Left(GoodNext(s, p).procs[p].pc) == Left(s.procs[p].pc) - 1
  {
  }

  lemma SameGoal(s: State, p: nat)
    requires GoesWell(s, p)
    ensures p in GoodNext(s, p).procs && Rebuilt(GoodNext(s, p), p) == Rebuilt(s, p)
  {
    AtTwice(s, p, GoodNext(s, p).procs[p].pc, Leaving(true));
  }

  /** A ready bundle of metadata x, with every process that is in the function looking for just that. */
  ghost predicate Warm(s: State, x: Metadata) {
    && s.stamp && s.toml && s.meta == Complete(x) && s.bundle == Built(x) && s.container == None
    && forall p :: p in s.procs ==> s.procs[p].expected == x && ReadsOnly(s.procs[p].pc)
  }

  predicate ReadsOnly(pc: Pc) { pc in {Idle, Waiting, CheckStamp, CheckToml, CheckMeta, Leaving(true), Leaving(false)} }

  lemma WarmStep(s: State, p: nat, e: Event, t: State, x: Metadata)
    requires Warm(s, x) && Step(s, p, e, t)
    requires forall q :: q in t.procs ==> t.procs[q].expected == x
    ensures Warm(t, x)
  {
  }

  /**
   * Over whole runs, with processes that come, wait, raise and die: once a bundle is ready, and as long as all
   * callers look for that bundle, nobody removes or rebuilds it.
   */
  lemma {:induction false} NothingIsRebuilt(states: seq<State>, n: nat, k: nat, x: Metadata)
    requires Run(states) && n <= k < |states| && Warm(states[n], x)
    requires forall i, q :: n <= i <= k && q in states[i].procs ==> states[i].procs[q].expected == x
    ensures Warm(states[k], x)
  {
    if k > n {
      NothingIsRebuilt(states, n, k - 1, x);
      assert Next(states[k-1], states[k]);
      var p, e :| Step(states[k-1], p, e, states[k]);
      WarmStep(states[k-1], p, e, states[k], x);
    }
  }

  /** A bundle gets warm by the first normal return, if all callers look for it and its build wrote bundle.toml. */
  lemma NormalReturnWarms(states: seq<State>, n: nat, p: nat)
    requires Run(states) && n < |states| && p in states[n].procs && states[n].procs[p].pc == Leaving(true)
    requires forall q :: q in states[n].procs ==> states[n].procs[q].expected == states[n].procs[p].expected
    ensures Warm(states[n], states[n].procs[p].expected) <==> states[n].toml
  {
    RunKeepsInv(states, n);
    HolderIsAlone(states[n], p);
    forall q | q in states[n].procs ensures ReadsOnly(states[n].procs[q].pc) {
      if InSection(states[n].procs[q].pc) { assert q == p; }
    }
  }

  /** Nobody waits for ever on a dead process: with the lock taken, its holder has a step to take. */
  lemma WaitersAreNotStuck(s: State, p: nat)
    requires Inv(s) && p in s.procs && s.procs[p].pc == Waiting
    ensures exists q, e, t :: Step(s, q, e, t) && !e.Crash? && !e.Raise? && !e.Call? && !e.ContainerActs?
  {
    if s.lock == None {
      assert Step(s, p, Lock, s.(lock := Some(p)).At(p, CheckStamp));
    } else {
      var q := s.lock.value;
      var pc, x := s.procs[q].pc, s.procs[q].expected;
      match pc {
        case CheckStamp => assert Step(s, q, Check, s.At(q, if s.stamp then CheckToml else UnlinkStamp));
        case CheckToml => assert Step(s, q, Check, s.At(q, if s.toml then CheckMeta else UnlinkStamp));
        case CheckMeta => assert Step(s, q, Check, s.At(q, if Reads(s.meta, x) then Leaving(true) else UnlinkStamp));
        case UnlinkStamp => assert Step(s, q, Advance, s.(stamp := false).At(q, UnlinkMeta));
        case UnlinkMeta => assert Step(s, q, Advance, s.(meta := Missing).At(q, RemoveContainer));
        case RemoveContainer => assert Step(s, q, Advance, s.At(q, StartBuild));
        case StartBuild =>
          if s.container.Some? {
            assert Step(s, q, Advance, s.At(q, Reaping(false)));
          } else {
            assert Step(s, q, Advance, s.(container := Some(x), bundle := Mixed).At(q, Building));
          }
        case Building => assert Step(s, q, BuildEnds(false, Mixed, s.toml), s.(bundle := Mixed).At(q, Reaping(false)));
        case Reaping(ok) => assert Step(s, q, Advance, s.At(q, if ok then OpenMeta else Leaving(false)));
        case OpenMeta => assert Step(s, q, Advance, s.(meta := Partial(None)).At(q, FinishMeta));
        case FinishMeta => assert Step(s, q, Advance, s.(meta := Complete(x)).At(q, OpenStamp));
        case OpenStamp => assert Step(s, q, Advance, s.(stamp := true).At(q, Leaving(true)));
        case Leaving(_) => assert Step(s, q, Advance, s.(lock := None).At(q, Idle));
      }
    }
  }
}
