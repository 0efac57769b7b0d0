/**
 * The source instrumenter (tools/prog2c_wrap.py): every statement that is a raw system call becomes
 * a call of the tracer, numbered in source order.
 */
module Instrumenter {
  import opened Prelude
  import opened Text
  import opened SplitArguments
  import Json

  const RAW := "syscall"
  const CALL := "syscall("

  /** A letter, digit or underscore: what can continue a C identifier. */
  predicate IsWord(c: char) {
    'a' <= c <= 'z' || 'A' <= c <= 'Z' || '0' <= c <= '9' || c == '_'
  }

  /** No identifier runs into position i from the left. */
  predicate Boundary(s: string, i: nat)
    requires i <= |s|
  {
    i == 0 || !('a' <= s[i-1] <= 'z' || 'A' <= s[i-1] <= 'Z' || '0' <= s[i-1] <= '9' || s[i-1] == '_')
  }

  // ---------------------------------------------------------------- the header

  /** Where the tracer's include goes: after the last include of the first n lines. */
  function InsertAt(lines: seq<string>, n: nat): (r: nat)
    requires n <= |lines|
    ensures r <= n
  {
    if n == 0 then 0 else if "#include" <= lines[n-1] then n else InsertAt(lines, n - 1)
  }

  function JoinLines(lines: seq<string>): string {
    if lines == [] then "" else lines[0] + "\n" + JoinLines(lines[1..])
  }

  function WithHeader(source: string): string {
    var lines := SplitLines(source);
    var at := InsertAt(lines, |lines|);
    JoinLines(lines[..at] + ["#include \"trace.h\""] + lines[at..])
  }

  /** The first `at` lines, the tracer's include, and the other lines, each with a line end. */
  ghost predicate HeaderAt(r: string, lines: seq<string>, at: nat) {
    && at <= |lines| && r == JoinLines(lines[..at] + ["#include \"trace.h\""] + lines[at..])
    && (at > 0 ==> "#include" <= lines[at-1]) && forall k :: at <= k < |lines| ==> !("#include" <= lines[k])
  }

  method InjectHeader(source: string) returns (r: string)
    ensures r == WithHeader(source)
    ensures exists at: nat :: HeaderAt(r, SplitLines(source), at)
  {
    var lines := SplitLines(source);
    var insertAt := 0;
    for index := 0 to |lines|
      invariant insertAt == InsertAt(lines, index)
      invariant insertAt > 0 ==> "#include" <= lines[insertAt-1]
      invariant forall k :: insertAt <= k < index ==> !("#include" <= lines[k])
    {
      if "#include" <= lines[index] { insertAt := index + 1; }
    }
    r := JoinLines(lines[..insertAt] + ["#include \"trace.h\""] + lines[insertAt..]);
    assert HeaderAt(r, lines, insertAt);
  }

  // ---------------------------------------------------------------- finding the calls

  /** A call statement: where it starts and ends, its line up to it, and what is between its parentheses. */
  datatype Call = Call(start: nat, end: nat, prefix: string, body: string)

  /** How many parentheses are open at j, counting the one before `from`. */
  function Depth(s: string, from: nat, j: nat): int
    requires from <= j <= |s|
  {
    if j == from then 1
    else Depth(s, from, j - 1) + (if s[j-1] == '(' then 1 else if s[j-1] == ')' then -1 else 0)
  }

  /** The parenthesis before `from` is closed by the character before j. */
  ghost predicate ClosesAt(s: string, from: nat, j: nat) {
    from < j <= |s| && Depth(s, from, j) == 0 && forall m :: from <= m < j ==> Depth(s, from, m) > 0
  }

  ghost predicate NeverCloses(s: string, from: nat) {
    from <= |s| && forall m :: from <= m <= |s| ==> Depth(s, from, m) > 0
  }

  predicate IsGap(c: char) { c in {' ', '\t', '\n'} }

  predicate AllGap(s: string, i: nat, j: nat)
    requires i <= j <= |s|
  {
    forall m :: i <= m < j ==> s[m] == ' ' || s[m] == '\t' || s[m] == '\n'
  }

  function LineStart(s: string, i: nat): (r: nat)
    requires i <= |s|
    ensures r <= i && (r > 0 ==> s[r-1] == '\n') && forall m :: r <= m < i ==> s[m] != '\n'
  {
    if i == 0 || s[i-1] == '\n' then i else LineStart(s, i - 1)
  }

  /** What the scanner found, spelled out: a call, its closing parenthesis before j, and a semicolon. */
  ghost predicate IsCallTo(s: string, c: Call, j: nat) {
    && At(s, c.start, "syscall(") && Boundary(s, c.start) && c.start + |CALL| <= |s|
    && ClosesAt(s, c.start + |CALL|, j) && j < c.end <= |s|
    && AllGap(s, j, c.end - 1) && s[c.end-1] == ';'
    && c.body == s[c.start+|CALL|..j-1] && c.prefix == s[LineStart(s, c.start)..c.start]
  }

  ghost predicate IsCall(s: string, c: Call) { exists j: nat :: IsCallTo(s, c, j) }

  function EndOf(calls: seq<Call>, k: nat): nat
    requires k <= |calls|
  {
    if k == 0 then 0 else calls[k-1].end
  }

  ghost predicate CallInPlace(s: string, calls: seq<Call>, k: nat)
    requires k < |calls|
  {
    IsCall(s, calls[k]) && EndOf(calls, k) <= calls[k].start < calls[k].end <= |s|
  }

  /** Call statements one after the other, without overlap. */
  ghost predicate AreCalls(s: string, calls: seq<Call>) {
    forall k :: 0 <= k < |calls| ==> CallInPlace(s, calls, k)
  }

  /** A raw call at an identifier boundary. */
  ghost predicate CallHere(s: string, p: nat) {
    p + |CALL| <= |s| && At(s, p, "syscall(") && Boundary(s, p)
  }

  /** The call at q goes on to j, and no semicolon follows: it is part of an expression, or never closed. */
  ghost predicate NotAStatement(s: string, q: nat, j: nat) {
    && CallHere(s, q) && j <= |s|
    && (ClosesAt(s, q + |CALL|, j) || (NeverCloses(s, q + |CALL|) && j == |s|))
    && forall k :: j <= k < |s| && AllGap(s, j, k) ==> s[k] != ';'
  }

  ghost predicate InCall(calls: seq<Call>, p: nat) {
    exists k :: 0 <= k < |calls| && calls[k].start <= p < calls[k].end
  }

  ghost predicate InExpression(s: string, p: nat) {
    exists q: nat, j: nat :: q <= p < j && NotAStatement(s, q, j)
  }

  /** Every raw call before `end` is in a statement that was found, or in a call that is no statement. */
  ghost predicate AllFound(s: string, calls: seq<Call>, end: nat) {
    forall p: nat :: p < end && CallHere(s, p) ==> InCall(calls, p) || InExpression(s, p)
  }

  method FindClosing(s: string, from: nat) returns (j: nat, closed: bool)
    requires from <= |s|
    ensures from <= j <= |s| && (if closed then ClosesAt(s, from, j) else NeverCloses(s, from) && j == |s|)
  {
    var depth := 1;
    j := from;
    while j < |s| && depth > 0
      invariant from <= j <= |s| && depth == Depth(s, from, j)
      invariant forall m :: from <= m < j ==> Depth(s, from, m) > 0
    {
      if s[j] == '(' { depth := depth + 1; } else if s[j] == ')' { depth := depth - 1; }
      j := j + 1;
    }
    closed := depth <= 0;
    if closed { DepthSteps(s, from, j); }
  }

  lemma DepthSteps(s: string, from: nat, j: nat)
    requires from <= j <= |s| && Depth(s, from, j) <= 0
    requires forall m :: from <= m < j ==> Depth(s, from, m) > 0
    ensures ClosesAt(s, from, j)
  {
    assert j > from;
    assert Depth(s, from, j - 1) > 0;
  }

  method SkipGap(s: string, j: nat) returns (k: nat)
    requires j <= |s|
    ensures j <= k <= |s| && AllGap(s, j, k) && (k < |s| ==> !IsGap(s[k]))
  {
    k := j;
    while k < |s| && IsGap(s[k])
      invariant j <= k <= |s| && AllGap(s, j, k)
    {
      k := k + 1;
    }
  }

  lemma FoundCall(s: string, c: Call, j: nat)
    requires At(s, c.start, CALL) && Boundary(s, c.start) && c.start + |CALL| <= |s| && ClosesAt(s, c.start + |CALL|, j)
    requires j < c.end <= |s| && AllGap(s, j, c.end - 1) && s[c.end-1] == ';'
    requires c.body == s[c.start+|CALL|..j-1] && c.prefix == s[LineStart(s, c.start)..c.start]
    ensures IsCall(s, c)
  {
    assert IsCallTo(s, c, j);
  }

  lemma AddCall(s: string, calls: seq<Call>, c: Call)
    requires AreCalls(s, calls) && IsCall(s, c) && EndOf(calls, |calls|) <= c.start < c.end <= |s|
    ensures AreCalls(s, calls + [c])
  {
    hide IsCall;
    var more := calls + [c];
    forall k | 0 <= k < |more| ensures CallInPlace(s, more, k) {
      if k < |calls| { assert CallInPlace(s, calls, k); }
    }
  }

  method FindCalls(source: string) returns (calls: seq<Call>)
    ensures AreCalls(source, calls) && AllFound(source, calls, |source|)
  {
    hide Depth, LineStart, ClosesAt, NeverCloses, AreCalls, IsCall, Find, AllGap, AllFound, NotAStatement;
    calls := [];
    NoCalls(source);
    var i: nat := 0;
    while i < |source|
      invariant AreCalls(source, calls) && EndOf(calls, |calls|) <= i
      invariant AllFound(source, calls, i)
      decreases |source| - i
    {
      var idx := Find(source, CALL, i);
      FindIsFirst(source, CALL, i);
      if idx == -1 {
        NothingBetween(source, calls, i, |source|);
        return;
      }
      NothingBetween(source, calls, i, idx);
      if idx > 0 && IsWord(source[idx-1]) {
        NotABoundary(source, calls, idx);
        i := idx + 1;
        continue;
      }
      var j, closed := FindClosing(source, idx + |CALL|);
      var k := SkipGap(source, j);
      if k < |source| && source[k] == ';' {
        ClosedAfter(source, idx + |CALL|, j, closed);
        var c := Call(idx, k + 1, source[LineStart(source, idx)..idx], source[idx + |CALL|..j - 1]);
        FoundCall(source, c, j);
        AddCall(source, calls, c);
        FoundUpTo(source, calls, c);
        calls := calls + [c];
        i := k + 1;
      } else {
        SkippedUpTo(source, calls, idx, j, k);
        i := j;
      }
    }
    FoundToTheEnd(source, calls, i);
  }

  lemma NothingBetween(s: string, calls: seq<Call>, i: nat, end: nat)
    requires AllFound(s, calls, i) && forall p :: i <= p < end ==> !At(s, p, CALL)
    ensures AllFound(s, calls, end)
  {
    hide InCall, InExpression;
  }

  lemma NotABoundary(s: string, calls: seq<Call>, p: nat)
    requires AllFound(s, calls, p) && 0 < p <= |s| && IsWord(s[p-1])
    ensures AllFound(s, calls, p + 1)
  {
    hide InCall, InExpression;
  }

  lemma FoundUpTo(s: string, calls: seq<Call>, c: Call)
    requires AllFound(s, calls, c.start)
    ensures AllFound(s, calls + [c], c.end)
  {
    hide InExpression, CallHere;
    var more := calls + [c];
    forall p: nat | p < c.end && CallHere(s, p) ensures InCall(more, p) || InExpression(s, p) {
      if p >= c.start {
        assert more[|calls|] == c;
      } else if InCall(calls, p) {
        var k :| 0 <= k < |calls| && calls[k].start <= p < calls[k].end;
        assert more[k] == calls[k];
      }
    }
  }

  lemma SkippedUpTo(s: string, calls: seq<Call>, q: nat, j: nat, k: nat)
    requires AllFound(s, calls, q) && CallHere(s, q) && j <= k <= |s| && AllGap(s, j, k)
    requires ClosesAt(s, q + |CALL|, j) || (NeverCloses(s, q + |CALL|) && j == |s|)
    requires k < |s| ==> !IsGap(s[k]) && s[k] != ';'
    ensures AllFound(s, calls, j)
  {
    hide InCall, CallHere, ClosesAt, NeverCloses;
    assert NotAStatement(s, q, j);
    assert forall p: nat :: q <= p < j ==> InExpression(s, p);
  }

  lemma FoundToTheEnd(s: string, calls: seq<Call>, i: nat)
    requires AllFound(s, calls, i) && i >= |s|
    ensures AllFound(s, calls, |s|)
  {
    hide InCall, InExpression, CallHere;
  }

  lemma NoCalls(s: string)
    ensures AreCalls(s, []) && AllFound(s, [], 0)
  {
  }

  lemma ClosedAfter(s: string, from: nat, j: nat, closed: bool)
    requires (if closed then ClosesAt(s, from, j) else j == |s|) && j < |s|
    ensures from < j <= |s| && ClosesAt(s, from, j)
  {
  }

  // ---------------------------------------------------------------- the replacements

  function SyscallName(nr: string): string {
    if "__NR_" <= nr then nr[5..] else if "SYS_" <= nr then nr[4..] else nr
  }

  /** The number expression and six arguments; the source raises on none, and on more than six. */
  datatype Arguments = Arguments(nr: string, six: seq<string>)

  function ArgumentsOf(body: string): (r: Option<Arguments>)
    ensures r.Some? ==> |r.value.six| == 6
  {
    var args := Stripped(RawArgs(body));
    if args == [] || |args| > 7 then None
    else Some(Arguments(args[0], args[1..] + seq(7 - |args|, _ => "0")))
  }

  /** What the tracer is passed: the call's name, its number expression, its index, and six arguments. */
  function Passed(a: Arguments, idx: nat): seq<string> {
    ["\"" + SyscallName(a.nr) + "\"", a.nr, Json.Decimal(idx)] + a.six
  }

  function TracedCall(a: Arguments, idx: nat): string { "traced_syscall(" + Commas(Passed(a, idx)) }

  /** The line's beginning once more, and the traced call. */
  function Replacement(c: Call, idx: nat): Option<string> {
    match ArgumentsOf(c.body)
    case None => None
    case Some(a) => Some(c.prefix + TracedCall(a, idx) + ");")
  }

  /** The name of a call by its number expression: what follows __NR_ or SYS_, or the whole expression. */
  predicate IsNameOf(name: string, nr: string) {
    nr == "__NR_" + name || nr == "SYS_" + name || (name == nr && !("__NR_" <= nr) && !("SYS_" <= nr))
  }

  /** The replacement letter by letter; the arguments are those between the parentheses, and zeros after them. */
  ghost predicate IsReplacement(r: string, c: Call, idx: nat, args: seq<string>, name: string) {
    && 1 <= |args| <= 7 && IsNameOf(name, args[0])
    && var six := args[1..] + seq(7 - |args|, _ => "0");
       r == c.prefix + ("traced_syscall(" + (("\"" + name + "\"") + ", " + args[0] + ", " + Json.Decimal(idx) + ", " + six[0]
         + ", " + six[1] + ", " + six[2] + ", " + six[3] + ", " + six[4] + ", " + six[5])) + ");"
  }

  lemma NineItems(p: seq<string>)
    requires |p| == 9
    ensures Commas(p) == p[0] + ", " + p[1] + ", " + p[2] + ", " + p[3] + ", " + p[4] + ", " + p[5] + ", " + p[6] + ", " + p[7]
      + ", " + p[8]
  {
    assert p[..8] == [p[0], p[1], p[2], p[3], p[4], p[5], p[6], p[7]];
    CommasOf(p, 8);
    CommasOf(p, 7);
    CommasOf(p, 6);
    CommasOf(p, 5);
    CommasOf(p, 4);
    CommasOf(p, 3);
    CommasOf(p, 2);
    CommasOf(p, 1);
    assert p[..1] == [p[0]] && p[..9] == p;
  }

  lemma CommasOf(p: seq<string>, n: nat)
    requires 0 < n < |p|
    ensures Commas(p[..n+1]) == Commas(p[..n]) + ", " + p[n]
  {
    assert p[..n+1][..n] == p[..n];
  }

  lemma ReplacementIs(c: Call, idx: nat)
    ensures var args := Stripped(RawArgs(c.body));
      if Replacement(c, idx).None? then args == [] || |args| > 7
      else IsReplacement(Replacement(c, idx).value, c, idx, args, SyscallName(args[0]))
  {
    hide Commas, Stripped, RawArgs;
    var args := Stripped(RawArgs(c.body));
    if Replacement(c, idx).Some? {
      NameIs(args[0]);
      ReplacementText(c.prefix, ArgumentsOf(c.body).value, idx);
    }
  }

  lemma NameIs(nr: string)
    ensures IsNameOf(SyscallName(nr), nr)
  {
    assert "__NR_" <= nr ==> nr == nr[..5] + nr[5..];
    assert "SYS_" <= nr ==> nr == nr[..4] + nr[4..];
  }

  lemma ReplacementText(prefix: string, a: Arguments, idx: nat)
    requires |a.six| == 6
    ensures prefix + TracedCall(a, idx) + ");" ==
      prefix + ("traced_syscall(" + (("\"" + SyscallName(a.nr) + "\"") + ", " + a.nr + ", " + Json.Decimal(idx) + ", " + a.six[0]
        + ", " + a.six[1] + ", " + a.six[2] + ", " + a.six[3] + ", " + a.six[4] + ", " + a.six[5])) + ");"
  {
    hide Commas, SyscallName;
    NineItems(Passed(a, idx));
  }

  method ReplacementFor(c: Call, idx: nat) returns (r: Option<string>)
    ensures r == Replacement(c, idx)
    ensures var args := Stripped(RawArgs(c.body));
      if r.None? then args == [] || |args| > 7 else exists name :: IsReplacement(r.value, c, idx, args, name)
  {
    ReplacementIs(c, idx);
    hide IsReplacement, TracedCall, Stripped, RawArgs;
    var args := SplitArgs(c.body);
    if args == [] { return None; }
    var callArgs := args[1..];
    while |callArgs| < 6
      invariant callArgs == args[1..] + seq(|callArgs| - (|args| - 1), _ => "0") && |callArgs| <= Max(6, |args| - 1)
      decreases 6 - |callArgs|
    {
      callArgs := callArgs + ["0"];
    }
    if |callArgs| > 6 { return None; }
    r := Some(c.prefix + TracedCall(Arguments(args[0], callArgs), idx) + ");");
  }

  /** The output up to the end of call n - 1: source gaps and replacements in turn. */
  function Written(s: string, calls: seq<Call>, n: nat): Option<string>
    requires n <= |calls|
  {
    if n == 0 then Some("") else
    var before, new_ := Written(s, calls, n - 1), Replacement(calls[n-1], n - 1);
    if before.None? || new_.None? then None
    else Some(before.value + Gap(s, EndOf(calls, n - 1), calls[n-1].start) + new_.value)
  }

  function Gap(s: string, lo: nat, hi: nat): string {
    if lo <= hi <= |s| then s[lo..hi] else ""
  }

  function Output(s: string, calls: seq<Call>): Option<string> {
    match Written(s, calls, |calls|)
    case None => None
    case Some(w) => Some(w + Gap(s, EndOf(calls, |calls|), |s|))
  }

  /** A raw system call, as the final check looks for it: the word, perhaps blanks, and a parenthesis. */
  predicate OpensCall(s: string, i: nat, j: nat) {
    i + |RAW| <= j < |s| && s[j] == '(' && forall m :: i + |RAW| <= m < j ==> IsSpace(s[m])
  }

  ghost predicate RawAt(s: string, i: nat) {
    At(s, i, "syscall") && i <= |s| && Boundary(s, i) && exists j: nat :: OpensCall(s, i, j)
  }

  method HasRawSyscall(s: string) returns (r: bool)
    ensures r <==> exists i: nat :: RawAt(s, i)
  {
    hide IsSpace, Find;
    var i: nat := 0;
    while true
      invariant forall k: nat :: k < i ==> !RawAt(s, k)
      decreases |s| - i
    {
      var at := Find(s, RAW, i);
      FindIsFirst(s, RAW, i);
      if at == -1 {
        assert forall k: nat :: RawAt(s, k) ==> At(s, k, RAW);
        return false;
      }
      if at == 0 || !IsWord(s[at-1]) {
        var j := at + |RAW|;
        while j < |s| && IsSpace(s[j])
          invariant at + |RAW| <= j <= |s| && forall m :: at + |RAW| <= m < j ==> IsSpace(s[m])
        {
          j := j + 1;
        }
        ParenthesisIsNoSpace();
        if j < |s| && s[j] == '(' {
          assert OpensCall(s, at, j);
          assert RawAt(s, at);
          return true;
        }
        assert forall q: nat :: !OpensCall(s, at, q);
      }
      assert forall k: nat :: i <= k < at ==> !At(s, k, RAW);
      i := at + 1;
    }
  }

  lemma ParenthesisIsNoSpace()
    ensures !IsSpace('(')
  {
  }

  datatype Instrumented = Instrumented(text: string, count: nat)

  method InstrumentSource(text: string) returns (r: Result<Instrumented>, source: string, calls: seq<Call>)
    ensures source == WithHeader(text) && AreCalls(source, calls) && AllFound(source, calls, |source|)
    ensures r.Ok? ==> Output(source, calls) == Some(r.value.text) && r.value.count == |calls|
    ensures r.Ok? <==> Output(source, calls).Some? && !exists i: nat :: RawAt(Output(source, calls).value, i)
  {
    hide AreCalls, AllFound, Replacement, RawAt, Gap;
    source := InjectHeader(text);
    calls := FindCalls(source);
    var parts, lastEnd := "", 0;
    for idx := 0 to |calls|
      invariant Written(source, calls, idx) == Some(parts) && lastEnd == EndOf(calls, idx)
    {
      var replacement := ReplacementFor(calls[idx], idx);
      if replacement.None? {
        WrittenStops(source, calls, idx + 1);
        return Err("arity"), source, calls;
      }
      parts := parts + Gap(source, lastEnd, calls[idx].start) + replacement.value;
      lastEnd := calls[idx].end;
    }
    var instrumented := parts + Gap(source, lastEnd, |source|);
    var raw := HasRawSyscall(instrumented);
    if raw { return Err("raw syscall invocation remains"), source, calls; }
    r := Ok(Instrumented(instrumented, |calls|));
  }

  lemma {:induction false} WrittenStops(s: string, calls: seq<Call>, n: nat)
    requires n <= |calls| && Written(s, calls, n) == None
    ensures Output(s, calls) == None
    decreases |calls| - n
  {
    hide Replacement;
    if n < |calls| { WrittenStops(s, calls, n + 1); }
  }

  // ---------------------------------------------------------------- the traced call passes the call's arguments

  lemma PieceOf(body: string, i: nat)
    requires body != "" && Brackets(body) == 0 && !EndsOpen(body)
    requires i < |RawArgs(body)|
    ensures var p := Stripped(RawArgs(body))[i]; IsPiece(p) && IsTrimmed(p)
  {
    hide ScanFrom, Strip;
    PiecesRejoin(body);
    StrippedIsPiece(RawArgs(body)[i]);
    StripCutsEdges(RawArgs(body)[i], IsSpace);
  }

  lemma PlainPiece(p: string)
    requires IsPlain(p)
    ensures IsPiece(p)
  {
    ScanPlain(Start(), p);
  }

  lemma DigitsArePiece(n: nat)
    ensures IsPiece(Json.Decimal(n)) && IsTrimmed(Json.Decimal(n))
  {
    Json.DecimalIsRead(n);
    PlainPiece(Json.Decimal(n));
  }

  lemma NameIsPiece(nr: string)
    requires IsPiece(nr)
    ensures IsPiece("\"" + SyscallName(nr) + "\"") && IsTrimmed("\"" + SyscallName(nr) + "\"")
  {
    hide ScanFrom, IsPiece;
    var name := SyscallName(nr);
    var before := if "__NR_" <= nr then "__NR_" else if "SYS_" <= nr then "SYS_" else "";
    assert nr == before + name + "";
    PlainAround(before, name, "");
    PlainAround("\"", name, "\"");
  }

  /**
   * Read as a list of arguments, what the traced call passes is the name, the number expression and
   * the index, and then the call's own arguments in their order, padded with zeros to six.
   */
  lemma ArgumentsArePassedOn(body: string, idx: nat)
    requires body != "" && Brackets(body) == 0 && !EndsOpen(body)
    requires ArgumentsOf(body).Some?
    ensures var args := Stripped(RawArgs(body));
      Stripped(RawArgs(Commas(Passed(ArgumentsOf(body).value, idx)))) ==
        ["\"" + SyscallName(args[0]) + "\"", args[0], Json.Decimal(idx)] + args[1..] + seq(7 - |args|, _ => "0")
  {
    hide ScanFrom, RawArgs, IsPiece, IsTrimmed, SyscallName, Commas, Stripped;
    var a, args := ArgumentsOf(body).value, Stripped(RawArgs(body));
    StrippedLength(RawArgs(body));
    forall i | 0 <= i < |args| ensures IsPiece(args[i]) && IsTrimmed(args[i]) {
      PieceOf(body, i);
    }
    NameIsPiece(a.nr);
    DigitsArePiece(idx);
    ZeroIsPiece();
    CommasAreSplit(Passed(a, idx));
  }

  lemma StrippedLength(pieces: seq<string>)
    ensures |Stripped(pieces)| == |pieces|
  {
  }

  lemma ZeroIsPiece()
    ensures IsPiece("0") && IsTrimmed("0")
  {
    PlainPiece("0");
  }

  // ---------------------------------------------------------------- what the output says about the source

  lemma {:induction false} WrittenGrows(s: string, calls: seq<Call>, m: nat, n: nat)
    requires m <= n <= |calls| && Written(s, calls, n).Some?
    ensures Written(s, calls, m).Some? && Written(s, calls, m).value <= Written(s, calls, n).value
  {
    hide Replacement, Gap;
    if m < n { WrittenGrows(s, calls, m, n - 1); }
  }

  /** What is written ends with a semicolon, so that no identifier runs on. */
  lemma WrittenEnds(s: string, calls: seq<Call>, n: nat)
    requires n <= |calls| && Written(s, calls, n).Some?
    ensures var w := Written(s, calls, n).value; w == "" || !IsWord(w[|w|-1])
  {
    hide Gap, TracedCall, ArgumentsOf;
  }

  /** Around call k the output is: what was written before, the gap, the call's line up to it, and more. */
  lemma OutputAt(s: string, calls: seq<Call>, k: nat) returns (before: string, after: string)
    requires k < |calls| && Output(s, calls).Some?
    ensures Output(s, calls).value == before + Gap(s, EndOf(calls, k), calls[k].start) + (calls[k].prefix + after)
    ensures before == "" || !IsWord(before[|before|-1])
  {
    hide Gap, TracedCall, ArgumentsOf;
    var out := Output(s, calls).value;
    WrittenGrows(s, calls, k + 1, |calls|);
    WrittenGrows(s, calls, k, k + 1);
    WrittenEnds(s, calls, k);
    before := Written(s, calls, k).value;
    var gap, c := Gap(s, EndOf(calls, k), calls[k].start), calls[k];
    var w := Written(s, calls, k + 1).value;
    var all := Written(s, calls, |calls|).value;
    var traced := Replacement(c, k).value[|c.prefix|..];
    after := traced + all[|w|..] + Gap(s, EndOf(calls, |calls|), |s|);
    assert Replacement(c, k).value == c.prefix + traced;
    assert all == w + all[|w|..];
    Regroup(before, gap, c.prefix, traced, all[|w|..], Gap(s, EndOf(calls, |calls|), |s|));
  }

  lemma Regroup(a: string, b: string, c: string, d: string, e: string, f: string)
    ensures a + b + (c + d) + e + f == a + b + (c + (d + e + f))
  {
  }

  lemma OpensInContext(a: string, g: string, b: string, i: nat, j: nat)
    requires OpensCall(g, i, j)
    ensures OpensCall(a + g + b, |a| + i, |a| + j)
  {
    hide IsSpace;
    var s := a + g + b;
    assert forall m :: 0 <= m < |g| ==> s[|a|+m] == g[m];
    forall m | |a| + i + |RAW| <= m < |a| + j ensures IsSpace(s[m]) {
      assert s[m] == g[m-|a|];
    }
  }

  /** A raw call in a piece is one in the whole, unless an identifier runs into it. */
  lemma RawInContext(a: string, g: string, b: string, i: nat)
    requires RawAt(g, i) && (i > 0 || a == "" || !IsWord(a[|a|-1]))
    ensures RawAt(a + g + b, |a| + i)
  {
    hide IsSpace, OpensCall;
    var s := a + g + b;
    var j: nat :| OpensCall(g, i, j);
    OpensInContext(a, g, b, i, j);
    assert s[|a|+i..|a|+i+|RAW|] == g[i..i+|RAW|];
    assert i > 0 ==> s[|a|+i-1] == g[i-1];
  }

  /** A raw call of the source that begins before a call statement also ends before it. */
  lemma RawBeforeCall(s: string, i: nat, j: nat, start: nat)
    requires At(s, i, RAW) && OpensCall(s, i, j) && At(s, start, CALL) && i < start
    ensures j < start
  {
    var u, v := s[i..i+|RAW|], s[start..start+|CALL|];
    assert s[start] == v[0] == 's' && s[start+1] == v[1] == 'y';
    assert forall m :: 0 <= m < |RAW| ==> s[i+m] == u[m];
    assert u[1] == 'y' && u[2] == 's' && u[3] == 'c' && u[4] == 'a' && u[5] == 'l' && u[6] == 'l';
    LetterIsNoSpace();
  }

  lemma LetterIsNoSpace()
    ensures !IsSpace('s')
  {
  }

  lemma RawInGap(s: string, lo: nat, hi: nat, i: nat, j: nat)
    requires RawAt(s, i) && OpensCall(s, i, j) && lo <= i && j < hi <= |s|
    ensures RawAt(Gap(s, lo, hi), i - lo)
  {
    var g := Gap(s, lo, hi);
    SliceOfSlice(s, lo, hi, i - lo, i - lo + |RAW|);
    assert forall m :: lo <= m < hi ==> g[m-lo] == s[m];
    assert OpensCall(g, i - lo, j - lo) by {
      forall m | i - lo + |RAW| <= m < j - lo ensures IsSpace(g[m]) {
        assert g[m] == s[m+lo];
      }
    }
  }

  lemma CallStands(s: string, calls: seq<Call>, k: nat)
    requires AreCalls(s, calls) && k < |calls|
    ensures var c := calls[k];
      && EndOf(calls, k) <= c.start < c.end <= |s| && c.start + |CALL| < c.end
      && At(s, c.start, CALL) && Boundary(s, c.start) && c.prefix == s[LineStart(s, c.start)..c.start]
  {
    assert CallInPlace(s, calls, k);
    var j: nat :| IsCallTo(s, calls[k], j);
  }

  /**
   * If the instrumenter succeeds, every raw system call of the source lies inside one of the
   * statements that were replaced.
   */
  lemma NoCallIsMissed(s: string, calls: seq<Call>, i: nat)
    requires AreCalls(s, calls) && Output(s, calls).Some? && RawAt(s, i)
    requires !exists p: nat :: RawAt(Output(s, calls).value, p)
    ensures exists k :: 0 <= k < |calls| && calls[k].start <= i < calls[k].end
  {
    NotMissedFrom(s, calls, i, 0);
  }

  lemma {:induction false} NotMissedFrom(s: string, calls: seq<Call>, i: nat, n: nat)
    requires AreCalls(s, calls) && Output(s, calls).Some? && RawAt(s, i) && n <= |calls| && EndOf(calls, n) <= i
    requires !exists p: nat :: RawAt(Output(s, calls).value, p)
    ensures exists k :: 0 <= k < |calls| && calls[k].start <= i < calls[k].end
    decreases |calls| - n
  {
    hide Output, RawAt, Gap, AreCalls;
    if n == |calls| {
      RawInTail(s, calls, i);
    } else if i < calls[n].start {
      RawInGapOf(s, calls, i, n);
    } else if i >= calls[n].end {
      NotMissedFrom(s, calls, i, n + 1);
    }
  }

  lemma RawInTail(s: string, calls: seq<Call>, i: nat)
    requires Output(s, calls).Some? && RawAt(s, i) && EndOf(calls, |calls|) <= i
    ensures exists p: nat :: RawAt(Output(s, calls).value, p)
  {
    hide Written, Gap, IsSpace, Boundary;
    var j: nat :| OpensCall(s, i, j);
    WrittenEnds(s, calls, |calls|);
    RawInLastGap(s, Written(s, calls, |calls|).value, EndOf(calls, |calls|), i, j);
  }

  lemma RawInLastGap(s: string, w: string, lo: nat, i: nat, j: nat)
    requires RawAt(s, i) && OpensCall(s, i, j) && lo <= i && (w == "" || !IsWord(w[|w|-1]))
    ensures RawAt(w + Gap(s, lo, |s|), |w| + i - lo)
  {
    hide RawAt, Gap, IsSpace;
    RawInGap(s, lo, |s|, i, j);
    RawInContext(w, Gap(s, lo, |s|), "", i - lo);
    assert w + Gap(s, lo, |s|) + "" == w + Gap(s, lo, |s|);
  }

  lemma RawInGapOf(s: string, calls: seq<Call>, i: nat, k: nat)
    requires AreCalls(s, calls) && Output(s, calls).Some? && RawAt(s, i) && k < |calls|
    requires EndOf(calls, k) <= i < calls[k].start
    ensures exists p: nat :: RawAt(Output(s, calls).value, p)
  {
    hide Output, Gap, AreCalls;
    var j: nat :| OpensCall(s, i, j);
    var lo, hi := EndOf(calls, k), calls[k].start;
    CallStands(s, calls, k);
    RawBeforeCall(s, i, j, hi);
    RawInGap(s, lo, hi, i, j);
    var before, after := OutputAt(s, calls, k);
    RawInContext(before, Gap(s, lo, hi), calls[k].prefix + after, i - lo);
  }

  /**
   * Because a call's line is written once more before it, success also means that no two replaced
   * statements begin on one line.
   */
  lemma OneCallPerLine(s: string, calls: seq<Call>, k: nat, l: nat)
    requires AreCalls(s, calls) && Output(s, calls).Some? && k < l < |calls|
    requires !exists p: nat :: RawAt(Output(s, calls).value, p)
    ensures exists m :: calls[k].start <= m < calls[l].start <= |s| && s[m] == '\n'
  {
    hide Output, RawAt, Gap, AreCalls;
    CallStands(s, calls, l);
    CallsInOrder(s, calls, k, l);
    var lo := LineStart(s, calls[l].start);
    if lo <= calls[k].start {
      RawInPrefix(s, calls, k, l);
    } else {
      assert s[lo-1] == '\n';
    }
  }

  lemma {:induction false} CallsInOrder(s: string, calls: seq<Call>, k: nat, l: nat)
    requires AreCalls(s, calls) && k < l < |calls|
    ensures calls[k].end <= calls[l].start
  {
    hide AreCalls;
    CallStands(s, calls, l);
    if k < l - 1 {
      CallsInOrder(s, calls, k, l - 1);
      CallStands(s, calls, l - 1);
    }
  }

  /** Then the line's beginning holds the raw call. */
  lemma RawInPrefix(s: string, calls: seq<Call>, k: nat, l: nat)
    requires AreCalls(s, calls) && Output(s, calls).Some? && k < l < |calls| && calls[l].start <= |s|
    requires LineStart(s, calls[l].start) <= calls[k].start
    ensures exists p: nat :: RawAt(Output(s, calls).value, p)
  {
    hide Output, AreCalls, LineStart, RawAt, Gap;
    CallStands(s, calls, l);
    CallsInOrder(s, calls, k, l);
    var hi, lo := calls[l].start, LineStart(s, calls[l].start);
    PrefixHasRaw(s, calls, k, lo, hi);
    GapIsSlice(s, lo, hi);
    var before, after := OutputAt(s, calls, l);
    GapEnds(s, before, EndOf(calls, l), hi);
    RawInContext(before + Gap(s, EndOf(calls, l), hi), calls[l].prefix, after, calls[k].start - lo);
    Reassociate(before + Gap(s, EndOf(calls, l), hi), calls[l].prefix, after);
  }

  lemma Reassociate(a: string, b: string, c: string)
    ensures a + b + c == a + (b + c)
  {
  }

  lemma GapIsSlice(s: string, lo: nat, hi: nat)
    requires lo <= hi <= |s|
    ensures Gap(s, lo, hi) == s[lo..hi]
  {
  }

  lemma PrefixHasRaw(s: string, calls: seq<Call>, k: nat, lo: nat, hi: nat)
    requires AreCalls(s, calls) && k < |calls| && lo <= calls[k].start && calls[k].end <= hi <= |s|
    ensures RawAt(Gap(s, lo, hi), calls[k].start - lo)
  {
    hide AreCalls, LineStart, Gap;
    var i := calls[k].start;
    CallStands(s, calls, k);
    assert RAW + "(" == CALL;
    AtSplit(s, i, RAW, "(");
    assert s[i+|RAW|] == s[i+|RAW|..i+|CALL|][0];
    assert OpensCall(s, i, i + |RAW|);
    RawInGap(s, lo, hi, i, i + |RAW|);
  }

  lemma GapEnds(s: string, before: string, lo: nat, hi: nat)
    requires lo <= hi <= |s| && Boundary(s, hi) && (before == "" || !IsWord(before[|before|-1]))
    ensures var a := before + Gap(s, lo, hi); a == "" || !IsWord(a[|a|-1])
  {
  }
}
