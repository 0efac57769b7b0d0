/**
 * The tracer's own descriptor (agent/arceos/trace.c): it is moved out of the way of the traced
 * program by duplicating stdout until a high number comes up. POSIX.1-2017, System Interfaces,
 * section 2.14: a new descriptor is the lowest one that is not open.
 */
module TraceFd {
  import opened Prelude

  /** An open file description. */
  type File = nat

  type Table = map<nat, File>

  const TRACE_FD_MIN: nat := 256
  const STDOUT: nat := 1

  /** The lowest descriptor from `from` on that is not open. */
  ghost predicate IsLowestFree(table: Table, from: nat, fd: nat) {
    from <= fd && fd !in table && forall f :: from <= f < fd ==> f in table
  }

  class Process {
    var table: Table
    var traceFd: int

    constructor (open: Table)
      ensures table == open && traceFd == -1
    {
      table, traceFd := open, -1;
    }

    /** dup(): the lowest free descriptor, unless the call fails. */
    method Dup(fd: nat, fails: bool) returns (r: int)
      modifies this`table
      ensures r >= 0 <==> fd in old(table) && !fails
      ensures r < 0 ==> table == old(table)
      ensures r >= 0 ==> IsLowestFree(old(table), 0, r) && table == old(table)[r := old(table)[fd]]
    {
      if fd !in table || fails { return -1; }
      var free: nat := 0;
      while free in table
        invariant table == old(table) && forall f: nat :: f < free ==> f in table
        invariant free <= |table.Keys|
        decreases |table.Keys| - free
      {
        AllOpen(table, free + 1);
        free := free + 1;
      }
      table := table[free := table[fd]];
      return free;
    }

    method Close(fd: nat)
      modifies this`table
      ensures table == old(table) - {fd}
    {
      table := table - {fd};
    }

    /** Duplicates of stdout until one is high enough, or dup fails. */
    method Reserve(fails: nat -> bool) returns (reserved: array<nat>, count: nat, candidate: int)
      modifies this`table
      ensures fresh(reserved) && count <= reserved.Length && Holds(old(table), table, reserved[..count])
      ensures candidate == if count == 0 then -1 else reserved[count-1]
      ensures count == 0 ==> STDOUT !in table || fails(0)
      ensures STDOUT in old(table) && (forall i :: !fails(i)) ==>
        candidate >= 0 && IsLowestFree(old(table), TRACE_FD_MIN, candidate)
    {
      hide Holds, IsLowestFree;
      reserved := new nat[TRACE_FD_MIN];
      count, candidate := 0, -1;
      NothingHeld(table);
      assert reserved[..0] == [];
      while count < TRACE_FD_MIN
        invariant 0 <= count <= TRACE_FD_MIN && Holds(old(table), table, reserved[..count])
        invariant if count == 0 then candidate == -1 else candidate == reserved[count-1] < TRACE_FD_MIN
      {
        ghost var before, held := table, reserved[..count];
        StdoutStaysOpen(old(table), table, held);
        var r := Dup(STDOUT, fails(count));
        if r < 0 { return; }
        HoldsMore(old(table), before, held, r);
        reserved[count] := r;
        count := count + 1;
        candidate := r;
        assert reserved[..count] == held + [r as nat];
        if r >= TRACE_FD_MIN {
          LowestHighFree(old(table), before, held, r);
          return;
        }
      }
      Pigeonhole(old(table), table, reserved[..count]);
    }

    /** Every reserved descriptor is closed again, but for the candidate. */
    method Release(reserved: array<nat>, all: nat, candidate: int, ghost start: Table)
      requires all <= reserved.Length && Holds(start, table, reserved[..all])
      requires candidate == if all == 0 then -1 else reserved[all-1]
      modifies this`table
      ensures table == if all == 0 then start else start[candidate := start[STDOUT]]
    {
      ghost var held := reserved[..all];
      var count := all;
      LastIsHeld(start, table, held);
      while count > 0
        invariant 0 <= count <= all
        invariant all > 0 ==> STDOUT in start && table == With(start, held[..count])[candidate := start[STDOUT]]
        invariant all == 0 ==> table == start
      {
        hide With, Holds;
        count := count - 1;
        var fd := reserved[count];
        ReleaseOne(start, held, count);
        if fd == candidate { continue; }
        Close(fd);
      }
    }

    /**
     * A descriptor of at least 256 if stdout is open and no dup fails. In any case the table is as it
     * was, but for the one descriptor that was kept.
     */
    method EnsureTraceFd(fails: nat -> bool) returns (fd: int)
      modifies this
      ensures old(traceFd) >= 0 ==> fd == old(traceFd) && table == old(table)
      ensures fd == traceFd >= 0
      ensures old(traceFd) < 0 ==>
        (table == old(table) && fd == 1 && (1 !in old(table) || fails(0)))
        || (1 in old(table) && fd !in old(table) && table == old(table)[fd := old(table)[1]])
      ensures old(traceFd) < 0 && 1 in old(table) && (forall i :: !fails(i)) ==>
        IsLowestFree(old(table), 256, fd)
    {
      if traceFd >= 0 { return traceFd; }
      var reserved, count, candidate := Reserve(fails);
      Release(reserved, count, candidate, old(table));
      if candidate >= 0 {
        traceFd := candidate;
        return traceFd;
      }
      traceFd := STDOUT;
      return traceFd;
    }
  }

  lemma AllOpen(table: Table, n: nat)
    requires forall f: nat :: f < n ==> f in table
    ensures n <= |table.Keys|
  {
    SmallerSet(Below(n), table.Keys);
  }

  lemma NothingHeld(table: Table)
    ensures Holds(table, table, [])
  {
  }

  lemma StdoutStaysOpen(start: Table, table: Table, held: seq<nat>)
    requires Holds(start, table, held)
    ensures STDOUT in table <==> STDOUT in start
  {
  }

  lemma LastIsHeld(start: Table, table: Table, held: seq<nat>)
    requires Holds(start, table, held)
    ensures held == [] ==> table == start
    ensures held != [] ==> (
      STDOUT in start && held[|held|-1] !in start && table == With(start, held)[held[|held|-1] := start[STDOUT]])
    ensures held[..|held|] == held
  {
  }

  /** The table with duplicates of stdout at the given descriptors. */
  ghost function With(start: Table, held: seq<nat>): (t: Table)
    requires held != [] ==> STDOUT in start
    ensures forall f :: f in t <==> f in start || f in held
  {
    if held == [] then start else With(start, held[..|held|-1])[held[|held|-1] := start[STDOUT]]
  }

  /** What the first loop keeps: the descriptors it holds increase, and below the last one all are open. */
  ghost predicate Holds(start: Table, table: Table, held: seq<nat>) {
    && (held != [] ==> STDOUT in start) && table == With(start, held)
    && (forall k :: 0 <= k < |held| ==> held[k] !in start)
    && (forall j, k :: 0 <= j < k < |held| ==> held[j] < held[k])
    && (held != [] ==> forall f: nat :: f <= held[|held|-1] ==> f in table)
  }

  lemma WithOneMore(start: Table, held: seq<nat>, r: nat)
    requires STDOUT in start
    ensures With(start, held + [r]) == With(start, held)[r := start[STDOUT]]
  {
    assert (held + [r])[..|held|] == held;
  }

  lemma HoldsMore(start: Table, table: Table, held: seq<nat>, r: nat)
    requires Holds(start, table, held) && IsLowestFree(table, 0, r) && STDOUT in table
    ensures STDOUT in start
    ensures Holds(start, table[r := start[STDOUT]], held + [r]) && table[STDOUT] == start[STDOUT]
  {
    var more := held + [r];
    hide With;
    StdoutStays(start, held);
    WithOneMore(start, held, r);
    NewIsLast(start, table, held, r);
  }

  lemma NewIsLast(start: Table, table: Table, held: seq<nat>, r: nat)
    requires Holds(start, table, held) && IsLowestFree(table, 0, r)
    ensures var more := held + [r];
      && (forall k :: 0 <= k < |more| ==> more[k] !in start)
      && (forall j, k :: 0 <= j < k < |more| ==> more[j] < more[k])
  {
    if held != [] {
      assert held[|held|-1] < r;
      assert forall k :: 0 <= k < |held| ==> held[k] <= held[|held|-1];
    }
  }

  lemma {:induction false} StdoutStays(start: Table, held: seq<nat>)
    requires held != [] ==> STDOUT in start
    requires forall k :: 0 <= k < |held| ==> held[k] !in start
    ensures forall f :: f in start ==> f in With(start, held) && With(start, held)[f] == start[f]
  {
    if held != [] { StdoutStays(start, held[..|held|-1]); }
  }

  /** Descriptors that are free, increasing and never stdout are past 255 after 256 of them. */
  lemma Pigeonhole(start: Table, table: Table, held: seq<nat>)
    requires Holds(start, table, held) && |held| == 256
    ensures held[255] >= 256
  {
    AtLeast(held, TRACE_FD_MIN - 1);
  }

  lemma {:induction false} AtLeast(held: seq<nat>, k: nat)
    requires k < |held| && (forall i, j :: 0 <= i < j < |held| ==> held[i] < held[j])
    requires forall i :: 0 <= i < |held| ==> held[i] != STDOUT
    ensures held[k] >= k && (k > 0 ==> held[k] > k)
  {
    if k > 0 {
      AtLeast(held, k - 1);
      assert held[k-1] < held[k];
    }
  }

  lemma LowestHighFree(start: Table, table: Table, held: seq<nat>, r: nat)
    requires Holds(start, table, held) && IsLowestFree(table, 0, r) && r >= TRACE_FD_MIN
    requires held != [] ==> held[|held|-1] < TRACE_FD_MIN
    ensures IsLowestFree(start, TRACE_FD_MIN, r)
  {
    assert forall k :: 0 <= k < |held| ==> held[k] < TRACE_FD_MIN;
  }

  /** Closing one of the held descriptors leaves the lower ones and the last. */
  lemma ReleaseOne(start: Table, held: seq<nat>, count: nat)
    requires count < |held| && STDOUT in start && Holds(start, With(start, held), held)
    ensures var last := held[|held|-1]; var out := start[STDOUT];
      With(start, held[..count])[last := out] ==
        if held[count] == last then With(start, held[..count+1])[last := out]
        else With(start, held[..count+1])[last := out] - {held[count]}
  {
    var last, out, fd := held[|held|-1], start[STDOUT], held[count];
    var low := With(start, held[..count]);
    assert held[..count+1][..count] == held[..count];
    assert With(start, held[..count+1]) == low[fd := out];
    assert fd !in held[..count] && fd !in start && fd !in low;
    TakeAndPut(low, fd, last, out);
  }

  lemma TakeAndPut(low: Table, fd: nat, last: nat, out: File)
    requires fd !in low
    ensures fd == last ==> low[fd := out][last := out] == low[last := out]
    ensures fd != last ==> low[fd := out][last := out] - {fd} == low[last := out]
  {
  }

  // ---------------------------------------------------------------- writing a line to it

  /** What one write() does: it takes some bytes, is interrupted, or gives up. */
  datatype Answer = Took(n: nat) | Interrupted | GaveUp

  /** How many of n bytes get out. */
  function Accepted(n: nat, answers: seq<Answer>): (r: nat)
    ensures r <= n
  {
    if n == 0 || answers == [] then 0 else
    match answers[0]
    case Took(k) => if k == 0 then 0 else Min(k, n) + Accepted(n - Min(k, n), answers[1..])
    case Interrupted => Accepted(n, answers[1..])
    case GaveUp => 0
  }

  /** The writes that take something before the first one that gives up or takes nothing. */
  function Tries(answers: seq<Answer>): (n: nat)
    ensures n <= |answers|
  {
    if answers == [] || answers[0].GaveUp? || answers[0] == Took(0) then 0 else 1 + Tries(answers[1..])
  }

  /** What the answers take, each by itself. */
  function Sum(answers: seq<Answer>): nat {
    if answers == [] then 0 else (if answers[0].Took? then answers[0].n else 0) + Sum(answers[1..])
  }

  /** All that the answers take up to the first failure gets out, but no more than there is. */
  lemma {:induction false} AcceptedIs(n: nat, answers: seq<Answer>)
    ensures Accepted(n, answers) == Min(n, Sum(answers[..Tries(answers)]))
    decreases |answers|
  {
    var k := Tries(answers);
    if k > 0 {
      assert answers[..k][1..] == answers[1..][..k-1];
      if answers[0].Took? {
        AcceptedIs(n - Min(answers[0].n, n), answers[1..]);
      } else {
        AcceptedIs(n, answers[1..]);
      }
    }
  }

  method WriteAll(buf: string, answers: seq<Answer>) returns (out: string)
    ensures out == buf[..Accepted(|buf|, answers)]
  {
    out := "";
    var i := 0;
    while |out| < |buf| && i < |answers|
      invariant 0 <= i <= |answers| && out <= buf
      invariant Accepted(|buf|, answers) == |out| + Accepted(|buf| - |out|, answers[i..])
      decreases |answers| - i
    {
      assert answers[i..][0] == answers[i] && answers[i..][1..] == answers[i+1..];
      match answers[i] {
        case Took(k) =>
          if k == 0 { break; }
          var n := Min(k, |buf| - |out|);
          out := buf[..|out| + n];
        case Interrupted =>
        case GaveUp => break;
      }
      i := i + 1;
    }
  }

  function WithoutInterrupts(answers: seq<Answer>): seq<Answer> {
    if answers == [] then []
    else (if answers[0].Interrupted? then [] else [answers[0]]) + WithoutInterrupts(answers[1..])
  }

  /** Signals do not lose output. */
  lemma {:induction false} InterruptsAreInvisible(n: nat, answers: seq<Answer>)
    ensures Accepted(n, answers) == Accepted(n, WithoutInterrupts(answers))
    decreases answers
  {
    if answers != [] {
      var rest := WithoutInterrupts(answers[1..]);
      if answers[0].Interrupted? {
        assert [] + rest == rest;
      } else {
        assert ([answers[0]] + rest)[1..] == rest;
      }
      if answers[0].Took? {
        InterruptsAreInvisible(n - Min(answers[0].n, n), answers[1..]);
      } else {
        InterruptsAreInvisible(n, answers[1..]);
      }
    }
  }
}
