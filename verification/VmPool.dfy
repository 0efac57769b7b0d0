/**
 * The limit on running virtual machines (core/concurrency.py) and the pool of workers under it
 * (orchestrator/vm_runner.py), as a state machine over the actions of all cases of a batch.
 */
module VmPool {
  import opened Prelude

  // ---------------------------------------------------------------- the limiter

  /** A permit is taken, if there is one; a permit comes back. */
  predicate Takes(before: nat, after: nat) { before > 0 && after == before - 1 }

  predicate GivesBack(before: nat, after: nat) { after == before + 1 }

  function LimitOf(wanted: int): nat { Max(wanted, 1) }

  class ConcurrencyLimiter {
    const limit: nat
    /** What the semaphore has left. */
    var permits: nat

    constructor (wanted: int)
      ensures limit == LimitOf(wanted) && permits == limit
    {
      limit := if wanted < 1 then 1 else wanted;
      permits := if wanted < 1 then 1 else wanted;
    }

    /** A thread that blocks without a time limit has no step to make until there is a permit. */
    method Acquire(blocking: bool, timesOut: bool) returns (ok: bool)
      requires permits > 0 || !blocking || timesOut
      modifies this
      ensures if old(permits) > 0 then ok && Takes(old(permits), permits) else !ok && permits == old(permits)
    {
      ok := permits > 0;
      if ok { permits := permits - 1; }
    }

    method Release()
      modifies this
      ensures GivesBack(old(permits), permits)
    {
      permits := permits + 1;
    }

    /** The two ends of a with-statement. */
    method Enter()
      requires permits > 0
      modifies this
      ensures Takes(old(permits), permits)
    {
      var _ := Acquire(true, false);
    }

    method Exit()
      modifies this
      ensures GivesBack(old(permits), permits)
    {
      Release();
    }
  }

  /** Without a limiter the case just runs; with one the permit comes back whether it returns or raises. */
  method RunCase<A, B>(limiter: ConcurrencyLimiter?, run: A -> Result<B>, arg: A) returns (r: Result<B>)
    requires limiter != null ==> limiter.permits > 0
    modifies limiter
    ensures r == run(arg) && (limiter != null ==> limiter.permits == old(limiter.permits))
  {
    if limiter != null { limiter.Enter(); }
    r := run(arg);
    if limiter != null { limiter.Exit(); }
  }

  // ---------------------------------------------------------------- what a case does

  /** Entering and leaving a with-statement on the limiter, and anything else, which may raise. */
  datatype Action = Enter | Leave | Work

  /** With so many permits held, the rest of the actions leaves as often as it enters, at every point and in all. */
  predicate Bracketed(rest: seq<Action>, held: nat) {
    if rest == [] then held == 0
    else match rest[0]
      case Enter => Bracketed(rest[1..], held + 1)
      case Leave => held > 0 && Bracketed(rest[1..], held - 1)
      case Work => Bracketed(rest[1..], held)
  }

  /** With so many permits held, never more than `most` are. */
  predicate Nested(rest: seq<Action>, held: nat, most: nat) {
    held <= most && (rest == [] || (
      match rest[0]
      case Enter => Nested(rest[1..], held + 1, most)
      case Leave => held > 0 && Nested(rest[1..], held - 1, most)
      case Work => Nested(rest[1..], held, most)))
  }

  /** An exception runs through the with-statements, and each of them gives its permit back. */
  function Unwind(held: nat): (rest: seq<Action>)
    ensures |rest| == held
  {
    if held == 0 then [] else [Leave] + Unwind(held - 1)
  }

  lemma {:induction false} UnwindIsBracketed(held: nat, most: nat)
    requires held <= most
    ensures Bracketed(Unwind(held), held) && Nested(Unwind(held), held, most)
  {
    if held > 0 {
      UnwindIsBracketed(held - 1, most);
      assert Unwind(held)[1..] == Unwind(held - 1);
    }
  }

  lemma {:induction false} LeavesAreLeft(rest: seq<Action>, held: nat)
    requires Bracketed(rest, held)
    ensures |rest| >= held
  {
    if rest != [] {
      LeavesAreLeft(rest[1..], match rest[0] case Enter => held + 1 case Leave => held - 1 case Work => held);
    }
  }

  /** What a case does under the limiter: one with-statement around its run. */
  function CaseActions(before: nat, after: nat): seq<Action> {
    seq(before, _ => Work) + [Enter, Work, Leave] + seq(after, _ => Work)
  }

  lemma {:induction false} CaseIsBracketed(before: nat, after: nat)
    ensures Bracketed(CaseActions(before, after), 0) && Nested(CaseActions(before, after), 0, 1)
    decreases before
  {
    var all := CaseActions(before, after);
    if before > 0 {
      CaseIsBracketed(before - 1, after);
      assert all[1..] == CaseActions(before - 1, after);
    } else {
      OnlyWork(after);
      assert all[1..][1..][1..] == seq(after, _ => Work);
      assert all[0] == Enter && all[1..][0] == Work && all[1..][1..][0] == Leave;
    }
  }

  lemma {:induction false} OnlyWork(n: nat)
    ensures Bracketed(seq(n, _ => Work), 0) && Nested(seq(n, _ => Work), 0, 1)
  {
    if n > 0 {
      OnlyWork(n - 1);
      assert seq(n, _ => Work)[1..] == seq(n - 1, _ => Work);
    }
  }

  // ---------------------------------------------------------------- the pool

  /** A case waits for a worker, is at work on the rest of its actions, or is over (perhaps by an exception). */
  datatype Phase = Queued(actions: seq<Action>) | Active(rest: seq<Action>, held: nat, raised: bool) | Finished(raised: bool)

  datatype Pool = Pool(limit: nat, workers: nat, permits: nat, phases: seq<Phase>)

  datatype Event = Pick | Act | Raise | Finish

  function Held(p: Phase): nat { if p.Active? then p.held else 0 }

  function Busy(p: Phase): nat { if p.Active? then 1 else 0 }

  /** How many actions and changes of phase are left at most. */
  function Left(p: Phase): nat {
    match p case Queued(actions) => |actions| + 2 case Active(rest, _, _) => |rest| + 1 case Finished(_) => 0
  }

  function Sum(phases: seq<Phase>, f: Phase -> nat): nat {
    if phases == [] then 0 else Sum(phases[..|phases|-1], f) + f(phases[|phases|-1])
  }

  /** One step of case c. */
  predicate Step(s: Pool, c: nat, e: Event, t: Pool) {
    && c < |s.phases|
    && t == s.(permits := t.permits, phases := t.phases) && |t.phases| == |s.phases| && t.phases == s.phases[c := t.phases[c]]
    && PhaseStep(s.phases[c], s.permits, e, t.phases[c], t.permits)
    && (e.Pick? ==> Sum(s.phases, Busy) < s.workers)
  }

  predicate PhaseStep(p: Phase, before: nat, e: Event, q: Phase, after: nat) {
    match e
    case Pick => p.Queued? && q == Active(p.actions, 0, false) && after == before
    case Act => p.Active? && p.rest != [] && ActionStep(p, before, q, after)
    case Raise => p.Active? && p.rest != [] && p.rest[0] == Work && q == Active(Unwind(p.held), p.held, true) && after == before
    case Finish => p.Active? && p.rest == [] && q == Finished(p.raised) && after == before
  }

  predicate ActionStep(p: Phase, before: nat, q: Phase, after: nat)
    requires p.Active? && p.rest != []
  {
    match p.rest[0]
    case Enter => Takes(before, after) && q == Active(p.rest[1..], p.held + 1, p.raised)
    case Leave => p.held > 0 && GivesBack(before, after) && q == Active(p.rest[1..], p.held - 1, p.raised)
    case Work => q == p.(rest := p.rest[1..]) && after == before
  }

  predicate Well(p: Phase, most: nat) {
    match p
    case Queued(actions) => Bracketed(actions, 0) && Nested(actions, 0, most)
    case Active(rest, held, _) => Bracketed(rest, held) && Nested(rest, held, most)
    case Finished(_) => true
  }

  ghost predicate Inv(s: Pool, most: nat) {
    && s.limit > 0 && s.workers > 0
    && s.permits + Sum(s.phases, Held) == s.limit
    && Sum(s.phases, Busy) <= s.workers
    && forall c :: 0 <= c < |s.phases| ==> Well(s.phases[c], most)
  }

  lemma {:induction false} SumPut(phases: seq<Phase>, c: nat, p: Phase, f: Phase -> nat)
    requires c < |phases|
    ensures Sum(phases[c := p], f) == Sum(phases, f) - f(phases[c]) + f(p)
  {
    var n := |phases| - 1;
    if c == n {
      assert phases[c := p][..n] == phases[..n];
    } else {
      SumPut(phases[..n], c, p, f);
      assert phases[c := p][..n] == phases[..n][c := p];
    }
  }

  lemma PhaseKeeps(p: Phase, before: nat, e: Event, q: Phase, after: nat, most: nat)
    requires PhaseStep(p, before, e, q, after) && Well(p, most)
    ensures Well(q, most) && after + Held(q) == before + Held(p) && Left(q) < Left(p)
    ensures Busy(q) == Busy(p) || (e.Pick? && Busy(q) == Busy(p) + 1) || (e.Finish? && Busy(q) == Busy(p) - 1)
  {
    if e.Raise? {
      UnwindIsBracketed(p.held, most);
      LeavesAreLeft(p.rest[1..], p.held);
    }
  }

  lemma StepKeepsInv(s: Pool, c: nat, e: Event, t: Pool, most: nat)
    requires Inv(s, most) && Step(s, c, e, t)
    ensures Inv(t, most)
  {
    hide PhaseStep, Well, Held, Busy;
    PhaseKeeps(s.phases[c], s.permits, e, t.phases[c], t.permits, most);
    SumPut(s.phases, c, t.phases[c], Held);
    SumPut(s.phases, c, t.phases[c], Busy);
  }

  // ---------------------------------------------------------------- runs

  /** A batch of cases whose actions are with-statements, nested at most so deep. */
  predicate Initial(s: Pool, most: nat) {
    && s.limit > 0 && s.workers > 0 && s.permits == s.limit
    && forall c :: 0 <= c < |s.phases| ==> s.phases[c].Queued? && Well(s.phases[c], most)
  }

  ghost predicate Next(s: Pool, t: Pool) { exists c, e :: Step(s, c, e, t) }

  ghost predicate Run(states: seq<Pool>, most: nat) {
    states != [] && Initial(states[0], most) && forall i :: 0 < i < |states| ==> Next(states[i-1], states[i])
  }

  lemma {:induction false} SumIsZero(phases: seq<Phase>, f: Phase -> nat)
    requires forall c :: 0 <= c < |phases| ==> f(phases[c]) == 0
    ensures Sum(phases, f) == 0
  {
    if phases != [] { SumIsZero(phases[..|phases|-1], f); }
  }

  lemma {:induction false} RunKeepsInv(states: seq<Pool>, n: nat, most: nat)
    requires Run(states, most) && n < |states|
    ensures Inv(states[n], most) && states[n].limit == states[0].limit && states[n].workers == states[0].workers
    ensures |states[n].phases| == |states[0].phases|
  {
    if n == 0 {
      SumIsZero(states[0].phases, Held);
      SumIsZero(states[0].phases, Busy);
    } else {
      RunKeepsInv(states, n - 1, most);
      assert Next(states[n-1], states[n]);
      var c: nat, e :| Step(states[n-1], c, e, states[n]);
      StepKeepsInv(states[n-1], c, e, states[n], most);
    }
  }

  /**
   * In every state of every run, permits and permits held add up to the limit, however the
   * with-statements are nested and however many cases raise, so none is ever lost: when all are
   * finished, all permits are back.
   */
  lemma PermitsAreConserved(states: seq<Pool>, n: nat, most: nat)
    requires Run(states, most) && n < |states|
    ensures states[n].permits + Sum(states[n].phases, Held) == states[0].limit
    ensures (forall c :: 0 <= c < |states[n].phases| ==> states[n].phases[c].Finished?) ==> states[n].permits == states[0].limit
  {
    RunKeepsInv(states, n, most);
    if forall c :: 0 <= c < |states[n].phases| ==> states[n].phases[c].Finished? {
      SumIsZero(states[n].phases, Held);
    }
  }

  /** Every step is progress: a run has at most as many steps as there are actions, and two for each case. */
  lemma {:induction false} RunsEnd(states: seq<Pool>, n: nat, most: nat)
    requires Run(states, most) && n < |states|
    ensures Sum(states[n].phases, Left) + n <= Sum(states[0].phases, Left)
  {
    hide Left;
    if n > 0 {
      RunsEnd(states, n - 1, most);
      RunKeepsInv(states, n - 1, most);
      assert Next(states[n-1], states[n]);
      var c: nat, e :| Step(states[n-1], c, e, states[n]);
      PhaseKeeps(states[n-1].phases[c], states[n-1].permits, e, states[n].phases[c], states[n].permits, most);
      SumPut(states[n-1].phases, c, states[n].phases[c], Left);
    }
  }

  // ---------------------------------------------------------------- nobody is stuck, and when somebody is

  /** Case d has a step to make. */
  ghost predicate CanStep(s: Pool, d: nat) { exists e, t :: Step(s, d, e, t) && !e.Raise? }

  lemma StepTo(s: Pool, d: nat, e: Event, q: Phase, after: nat)
    requires d < |s.phases| && PhaseStep(s.phases[d], s.permits, e, q, after) && !e.Raise?
    requires e.Pick? ==> Sum(s.phases, Busy) < s.workers
    ensures CanStep(s, d)
  {
    assert Step(s, d, e, s.(permits := after, phases := s.phases[d := q]));
  }

  /** An active case can go on unless it enters a with-statement and there is no permit. */
  lemma ActiveGoesOn(s: Pool, d: nat, most: nat)
    requires Inv(s, most) && d < |s.phases| && s.phases[d].Active?
    ensures CanStep(s, d) || (s.permits == 0 && s.phases[d].held < most)
  {
    var p := s.phases[d];
    assert Well(p, most);
    if p.rest == [] {
      StepTo(s, d, Finish, Finished(p.raised), s.permits);
    } else {
      match p.rest[0]
      case Work => StepTo(s, d, Act, p.(rest := p.rest[1..]), s.permits);
      case Leave => StepTo(s, d, Act, Active(p.rest[1..], p.held - 1, p.raised), s.permits + 1);
      case Enter =>
        assert Nested(p.rest[1..], p.held + 1, most);
        if s.permits > 0 { StepTo(s, d, Act, Active(p.rest[1..], p.held + 1, p.raised), s.permits - 1); }
    }
  }

  lemma {:induction false} HeldIsBounded(phases: seq<Phase>, most: nat)
    requires forall d :: 0 <= d < |phases| && phases[d].Active? ==> phases[d].held < most
    ensures Sum(phases, Held) <= Sum(phases, Busy) * (most - 1)
  {
    if phases != [] {
      var n := |phases| - 1;
      HeldIsBounded(phases[..n], most);
      if phases[n].Active? {
        assert (Sum(phases[..n], Busy) + 1) * (most - 1) == Sum(phases[..n], Busy) * (most - 1) + (most - 1);
      }
    }
  }

  lemma {:induction false} SomebodyIsBusy(phases: seq<Phase>)
    requires Sum(phases, Busy) > 0
    ensures exists d :: 0 <= d < |phases| && phases[d].Active?
  {
    if !phases[|phases|-1].Active? { SomebodyIsBusy(phases[..|phases|-1]); }
  }

  /**
   * Nobody is stuck while the permits outnumber what all workers together could hold and still want
   * more: with an unfinished case some case has a step. With single with-statements that is any limit.
   */
  lemma NotStuck(s: Pool, c: nat, most: nat)
    requires Inv(s, most) && c < |s.phases| && !s.phases[c].Finished?
    requires most > 0 && s.workers * (most - 1) < s.limit
    ensures exists d :: CanStep(s, d)
  {
    if forall d: nat :: !CanStep(s, d) {
      forall d: nat | d < |s.phases| && s.phases[d].Active? ensures s.permits == 0 && s.phases[d].held < most {
        ActiveGoesOn(s, d, most);
      }
      HeldIsBounded(s.phases, most);
      Products(Sum(s.phases, Busy), s.workers, most - 1);
      if Sum(s.phases, Busy) == 0 {
        NobodyIsBusy(s.phases, c);
        StepTo(s, c, Pick, Active(s.phases[c].actions, 0, false), s.permits);
      } else {
        SomebodyIsBusy(s.phases);
      }
    }
  }

  lemma Products(a: nat, b: nat, k: nat)
    requires a <= b
    ensures a * k <= b * k
  {
  }

  lemma {:induction false} NobodyIsBusy(phases: seq<Phase>, c: nat)
    requires Sum(phases, Busy) == 0 && c < |phases|
    ensures !phases[c].Active?
  {
    if c < |phases| - 1 { NobodyIsBusy(phases[..|phases|-1], c); }
  }

  /** With one with-statement at a time in each case, no run gets stuck. */
  lemma SingleBracketsNeverStick(states: seq<Pool>, n: nat, c: nat)
    requires Run(states, 1) && n < |states| && c < |states[n].phases| && !states[n].phases[c].Finished?
    ensures exists d :: CanStep(states[n], d)
  {
    RunKeepsInv(states, n, 1);
    NotStuck(states[n], c, 1);
  }

  ghost predicate IsCase(p: Phase) { exists before, after :: p == Queued(CaseActions(before, after)) }

  /** The batches that the scheduler makes: every case is a run under the limiter, between other work. */
  ghost predicate BatchRun(states: seq<Pool>) {
    && states != [] && states[0].limit > 0 && states[0].workers > 0 && states[0].permits == states[0].limit
    && (forall c :: 0 <= c < |states[0].phases| ==> IsCase(states[0].phases[c]))
    && forall i :: 0 < i < |states| ==> Next(states[i-1], states[i])
  }

  /** They never get stuck, give all permits back, and end. */
  lemma BatchesNeverStick(states: seq<Pool>, n: nat)
    requires BatchRun(states) && n < |states|
    ensures (forall c :: 0 <= c < |states[n].phases| ==> states[n].phases[c].Finished?) || exists d :: CanStep(states[n], d)
    ensures (forall d :: !CanStep(states[n], d)) ==> states[n].permits == states[0].limit
    ensures Sum(states[n].phases, Left) + n <= Sum(states[0].phases, Left)
  {
    hide Step, Well, CanStep, Left;
    forall c | 0 <= c < |states[0].phases| ensures states[0].phases[c].Queued? && Well(states[0].phases[c], 1) {
      CaseIsWell(states[0].phases[c]);
    }
    assert Run(states, 1);
    RunsEnd(states, n, 1);
    PermitsAreConserved(states, n, 1);
    if c :| 0 <= c < |states[n].phases| && !states[n].phases[c].Finished? {
      SingleBracketsNeverStick(states, n, c);
    }
  }

  lemma CaseIsWell(p: Phase)
    requires IsCase(p)
    ensures p.Queued? && Well(p, 1)
  {
    var before, after :| p == Queued(CaseActions(before, after));
    CaseIsBracketed(before, after);
  }

  // ---------------------------------------------------------------- acquiring twice

  const TWICE: seq<Action> := [Enter, Enter, Work, Leave, Leave]

  function Waiting(): Phase { Active([Enter, Work, Leave, Leave], 1, false) }

  /** The first i of n cases hold a permit and want another. */
  function HalfWay(n: nat, workers: nat, i: nat): Pool
    requires i <= n
  {
    Pool(n, workers, n - i, seq(n, c requires 0 <= c < n => if c < i then Waiting() else Queued(TWICE)))
  }

  lemma {:induction false} FirstAreBusy(phases: seq<Phase>, i: nat)
    requires i <= |phases| && forall c :: 0 <= c < |phases| ==> (phases[c].Active? <==> c < i)
    ensures Sum(phases, Busy) == i
  {
    if phases != [] {
      var n := |phases| - 1;
      FirstAreBusy(phases[..n], Min(i, n));
    }
  }

  lemma NextHalfWay(n: nat, workers: nat, i: nat)
    requires i < n <= workers
    ensures var s, t := HalfWay(n, workers, i), HalfWay(n, workers, i + 1);
      var u := s.(phases := s.phases[i := Active(TWICE, 0, false)]); Next(s, u) && Next(u, t)
  {
    var s, t := HalfWay(n, workers, i), HalfWay(n, workers, i + 1);
    var u := s.(phases := s.phases[i := Active(TWICE, 0, false)]);
    assert forall c :: 0 <= c < n ==> s.phases[c] == if c < i then Waiting() else Queued(TWICE);
    FirstAreBusy(s.phases, i);
    assert Step(s, i, Pick, u);
    assert TWICE[1..] == [Enter, Work, Leave, Leave];
    assert t.phases == u.phases[i := Waiting()];
    assert Step(u, i, Act, t);
  }

  lemma TwiceIsNested()
    ensures Bracketed(TWICE, 0) && Nested(TWICE, 0, 2)
  {
    var a: seq<Action> := [Enter, Work, Leave, Leave];
    var b: seq<Action> := [Work, Leave, Leave];
    var c: seq<Action> := [Leave, Leave];
    var d: seq<Action> := [Leave];
    assert TWICE[1..] == a && a[1..] == b && b[1..] == c && c[1..] == d && d[1..] == [];
  }

  ghost predicate Reached(s: Pool, most: nat) { exists states :: Run(states, most) && states[|states|-1] == s }

  lemma ReachedNext(s: Pool, t: Pool, most: nat)
    requires Reached(s, most) && Next(s, t)
    ensures Reached(t, most)
  {
    var states :| Run(states, most) && states[|states|-1] == s;
    var longer := states + [t];
    forall k | 0 < k < |longer| ensures Next(longer[k-1], longer[k]) {
      if k < |states| { assert longer[k-1] == states[k-1] && longer[k] == states[k]; }
    }
    assert Run(longer, most);
  }

  lemma {:induction false} HalfWayIsReached(n: nat, workers: nat, i: nat)
    requires 0 < n <= workers && i <= n
    ensures Reached(HalfWay(n, workers, i), 2)
  {
    hide Next;
    var t := HalfWay(n, workers, i);
    if i == 0 {
      TwiceIsNested();
      assert Run([t], 2) && [t][|[t]|-1] == t;
    } else {
      HalfWayIsReached(n, workers, i - 1);
      NextHalfWay(n, workers, i - 1);
      var s := HalfWay(n, workers, i - 1);
      var u := s.(phases := s.phases[i-1 := Active(TWICE, 0, false)]);
      ReachedNext(s, u, 2);
      ReachedNext(u, t, 2);
    }
  }

  /**
   * Why a case must not acquire around its own acquiring: with two nested with-statements and as many
   * workers as permits, a batch can get stuck before any of its cases did its work.
   */
  lemma AcquiringTwiceSticks(limit: nat, workers: nat)
    requires 0 < limit <= workers
    ensures exists s: Pool :: (
      Reached(s, 2) && s.limit == limit && s.workers == workers && s.phases != [] && (forall t :: !Next(s, t))
      && forall c :: 0 <= c < |s.phases| ==> s.phases[c].Active?)
  {
    var s := HalfWay(limit, workers, limit);
    HalfWayIsReached(limit, workers, limit);
    assert forall c :: 0 <= c < limit ==> s.phases[c] == Waiting();
    assert s.permits == 0 && forall t :: !Next(s, t);
  }
}
