/** One result for each requested case, from whatever part of the batch console arrived. */
module ConsoleResults {
  import opened Prelude
  import opened PyValues
  import opened Text
  import opened Console
  import opened ConsoleMarks
  import opened ConsoleRecovery
  import opened ConsoleSections

  datatype ProcessExit = ProcessExit(status: string, exitCode: Option<int>, timedOut: bool)

  datatype Event = Event(returnValue: int, errno: int)

  /** The JSON texts of a console as the host loads them; None stands for the decoder's exception. */
  datatype Decoder = Decoder(
    header: Header,
    exit: string -> Option<ProcessExit>,
    events: string -> Option<seq<Event>>,
    external: string -> Option<PyValue>)

  datatype Request = Request(programId: string, runId: string)

  /** The status and the detail given to every case whose block is missing. */
  datatype Fallback = Fallback(status: string, detail: string)

  datatype CaseResult = CaseResult(
    programId: string, runId: string, status: string, exitCode: Option<int>, detail: Option<string>,
    stdout: string, stderr: string, consoleLog: string,
    events: seq<Event>, external: PyValue, exit: ProcessExit)

  // ---------------------------------------------------------------- what the host does

  /** `section or ""`: a missing section reads as an empty one. */
  function OrEmpty(section: Option<string>): string {
    if section.Some? then section.value else ""
  }

  function ParseProcessExit(section: Option<string>, d: Decoder): Option<ProcessExit> {
    if OrEmpty(section) == "" then Some(ProcessExit("infra_error", None, false)) else d.exit(section.value)
  }

  function ParseEvents(section: Option<string>, d: Decoder): Option<seq<Event>> {
    if OrEmpty(section) == "" then Some([]) else d.events(section.value)
  }

  function NoFiles(): PyValue { PyDict(map["files" := PyList([])]) }

  function ParseExternalState(section: Option<string>, d: Decoder): Option<PyValue> {
    if OrEmpty(section) == "" then Some(NoFiles()) else d.external(section.value)
  }

  predicate Unsupported(e: Event) { e.returnValue == -1 && e.errno in {38, 95} }

  function CandidateStatus(events: seq<Event>, exit: ProcessExit): string {
    if exit.status != "ok" then exit.status
    else if exists i :: 0 <= i < |events| && Unsupported(events[i]) then "unsupported" else "ok"
  }

  function MissingResult(text: string, q: Request, f: Fallback): CaseResult {
    CaseResult(q.programId, q.runId, f.status, None, Some(f.detail), "", "", text, [], NoFiles(),
      ProcessExit(f.status, None, f.status == "timeout"))
  }

  function FinishedResult(b: Block, q: Request, d: Decoder): Option<CaseResult> {
    var exit := ParseProcessExit(ExtractSection(b.body, "PROCESS_EXIT"), d);
    var events := ParseEvents(ExtractSection(b.body, "EVENTS"), d);
    var external := ParseExternalState(ExtractSection(b.body, "EXTERNAL_STATE"), d);
    if exit.None? || events.None? || external.None? then None else
    Some(CaseResult(q.programId, q.runId, CandidateStatus(events.value, exit.value), exit.value.exitCode, None,
      OrEmpty(ExtractSection(b.body, "STDOUT")), OrEmpty(ExtractSection(b.body, "STDERR")), b.consoleLog,
      events.value, external.value, exit.value))
  }

  /** The dictionary of blocks by program: a later block replaces an earlier one. */
  function Lookup(blocks: seq<Block>, id: string): Option<Block> {
    if blocks == [] then None
    else if blocks[|blocks|-1].programId == id then Some(blocks[|blocks|-1])
    else Lookup(blocks[..|blocks|-1], id)
  }

  function ResultOf(text: string, blocks: seq<Block>, q: Request, f: Fallback, d: Decoder): Option<CaseResult> {
    match Lookup(blocks, q.programId)
    case None => Some(MissingResult(text, q, f))
    case Some(b) => FinishedResult(b, q, d)
  }

  // ---------------------------------------------------------------- what a result says

  /** A case without a complete block: the fallback, no output, no events, and the whole console as its log. */
  predicate MissingFields(r: CaseResult, text: string, q: Request, f: Fallback) {
    && r.programId == q.programId && r.runId == q.runId
    && r.status == f.status && r.detail == Some(f.detail) && r.exitCode == None
    && r.stdout == "" && r.stderr == "" && r.consoleLog == text && r.events == []
    && r.external == PyDict(map["files" := PyList([])])
    && r.exit.status == f.status && r.exit.exitCode == None && (r.exit.timedOut <==> f.status == "timeout")
  }

  /** The texts of a case's sections. */
  datatype Outputs = Outputs(exit: string, stdout: string, stderr: string, events: string, external: string)

  /** A finished case with these sections: what the decoder makes of them, or the defaults for empty ones. */
  ghost predicate FinishedFields(r: CaseResult, o: Outputs, q: Request, log: string, d: Decoder) {
    && r.programId == q.programId && r.runId == q.runId && r.detail == None && r.exitCode == r.exit.exitCode
    && r.stdout == o.stdout && r.stderr == o.stderr && r.consoleLog == log
    && (if o.exit == "" then r.exit.status == "infra_error" && r.exit.exitCode == None && !r.exit.timedOut
        else d.exit(o.exit) == Some(r.exit))
    && (if o.events == "" then r.events == [] else d.events(o.events) == Some(r.events))
    && (if o.external == "" then r.external == PyDict(map["files" := PyList([])]) else d.external(o.external) == Some(r.external))
    && StatusFollows(r.status, r.exit.status, r.events)
  }

  /** A process that ended well is unsupported if some call failed with ENOSYS (38) or EOPNOTSUPP (95). */
  ghost predicate StatusFollows(status: string, exit: string, events: seq<Event>) {
    && (exit != "ok" ==> status == exit)
    && (exit == "ok" && (exists e :: e in events && e.returnValue == -1 && (e.errno == 38 || e.errno == 95)) ==>
          status == "unsupported")
    && (exit == "ok" && (forall e :: e in events ==> e.returnValue != -1 || (e.errno != 38 && e.errno != 95)) ==> status == "ok")
  }

  /** One of the sections is not what the decoder takes. */
  predicate Undecodable(o: Outputs, d: Decoder) {
    (o.exit != "" && d.exit(o.exit) == None) || (o.events != "" && d.events(o.events) == None)
    || (o.external != "" && d.external(o.external) == None)
  }

  /** The sections of a block; a missing one reads as an empty one. */
  function OutputsOf(body: string): Outputs {
    Outputs(OrEmpty(ExtractSection(body, "PROCESS_EXIT")), OrEmpty(ExtractSection(body, "STDOUT")),
      OrEmpty(ExtractSection(body, "STDERR")), OrEmpty(ExtractSection(body, "EVENTS")),
      OrEmpty(ExtractSection(body, "EXTERNAL_STATE")))
  }

  /** The last block of a program. */
  predicate IsLast(blocks: seq<Block>, id: string, j: int) {
    0 <= j < |blocks| && blocks[j].programId == id && forall k :: j < k < |blocks| ==> blocks[k].programId != id
  }

  ghost predicate IsResult(r: CaseResult, text: string, blocks: seq<Block>, q: Request, f: Fallback, d: Decoder) {
    || ((forall j :: 0 <= j < |blocks| ==> blocks[j].programId != q.programId) && MissingFields(r, text, q, f))
    || (exists j :: IsLast(blocks, q.programId, j)
         && FinishedFields(r, OutputsOf(blocks[j].body), q, blocks[j].consoleLog, d))
  }

  ghost predicate IsUndecodable(blocks: seq<Block>, q: Request, d: Decoder) {
    exists j :: IsLast(blocks, q.programId, j) && Undecodable(OutputsOf(blocks[j].body), d)
  }

  lemma {:induction false} LookupIsLast(blocks: seq<Block>, id: string)
    ensures Lookup(blocks, id) == None <==> forall j :: 0 <= j < |blocks| ==> blocks[j].programId != id
    ensures Lookup(blocks, id).Some? ==> exists j :: IsLast(blocks, id, j) && blocks[j] == Lookup(blocks, id).value
  {
    if blocks != [] {
      var n := |blocks| - 1;
      if blocks[n].programId == id {
        assert IsLast(blocks, id, n);
      } else {
        LookupIsLast(blocks[..n], id);
        if Lookup(blocks[..n], id).Some? {
          var j :| IsLast(blocks[..n], id, j) && blocks[..n][j] == Lookup(blocks[..n], id).value;
          assert IsLast(blocks, id, j);
        }
      }
    }
  }

  lemma StatusIs(status: string, events: seq<Event>, exit: ProcessExit)
    ensures status == CandidateStatus(events, exit) <==> StatusFollows(status, exit.status, events)
  {
    if i :| 0 <= i < |events| && Unsupported(events[i]) { assert events[i] in events; }
  }

  lemma FinishedResultIs(b: Block, q: Request, d: Decoder, r: CaseResult)
    ensures FinishedResult(b, q, d) == Some(r) <==> FinishedFields(r, OutputsOf(b.body), q, b.consoleLog, d)
    ensures FinishedResult(b, q, d) == None <==> Undecodable(OutputsOf(b.body), d)
  {
    hide ExtractSection, CandidateStatus, StatusFollows;
    StatusIs(r.status, r.events, r.exit);
  }

  lemma LastIsUnique(blocks: seq<Block>, id: string, j: int, k: int)
    requires IsLast(blocks, id, j) && IsLast(blocks, id, k)
    ensures j == k
  {
  }

  /** What the host computes for a request is the one result that says this. */
  lemma ResultIs(text: string, blocks: seq<Block>, q: Request, f: Fallback, d: Decoder, r: CaseResult)
    ensures ResultOf(text, blocks, q, f, d) == Some(r) <==> IsResult(r, text, blocks, q, f, d)
    ensures ResultOf(text, blocks, q, f, d) == None <==> IsUndecodable(blocks, q, d)
  {
    hide Lookup, FinishedResult, FinishedFields, Undecodable, OutputsOf;
    LookupIsLast(blocks, q.programId);
    match Lookup(blocks, q.programId) {
      case None =>
      case Some(b) =>
        FinishedResultIs(b, q, d, r);
        var j :| IsLast(blocks, q.programId, j) && blocks[j] == b;
        forall k | IsLast(blocks, q.programId, k) ensures k == j { LastIsUnique(blocks, q.programId, j, k); }
    }
  }

  method ByProgram(blocks: seq<Block>) returns (parsed: map<string, Block>)
    ensures forall id :: Lookup(blocks, id) == if id in parsed then Some(parsed[id]) else None
  {
    parsed := map[];
    for i := 0 to |blocks|
      invariant forall id :: Lookup(blocks[..i], id) == if id in parsed then Some(parsed[id]) else None
    {
      assert blocks[..i+1][..i] == blocks[..i];
      parsed := parsed[blocks[i].programId := blocks[i]];
    }
    assert blocks[..|blocks|] == blocks;
  }

  method ParseBatchCaseResults(text: string, requests: seq<Request>, f: Fallback, d: Decoder)
    returns (r: Result<seq<CaseResult>>)
    ensures var found := Blocks(text, 0, CaseFrame(), d.header, []);
      match r
      case Ok(results) => found.Ok? && |results| == |requests|
        && forall i :: 0 <= i < |results| ==> IsResult(results[i], text, found.value, requests[i], f, d)
      case Err(_) => found.Err? || exists i :: 0 <= i < |requests| && IsUndecodable(found.value, requests[i], d)
  {
    hide Blocks, CaseFrame, Lookup, FinishedResult, MissingResult, IsResult, IsUndecodable;
    var found := ExtractBlocks(text, CaseFrame(), d.header);
    if found.Err? { return Err(found.message); }
    var blocks := found.value;
    var parsed := ByProgram(blocks);
    var results := [];
    for i := 0 to |requests|
      invariant |results| == i
      invariant forall j :: 0 <= j < i ==> IsResult(results[j], text, blocks, requests[j], f, d)
    {
      var q := requests[i];
      if q.programId !in parsed {
        ResultIs(text, blocks, q, f, d, MissingResult(text, q, f));
        results := results + [MissingResult(text, q, f)];
      } else {
        var finished := FinishedResult(parsed[q.programId], q, d);
        if finished.None? {
          ResultIs(text, blocks, q, f, d, MissingResult(text, q, f));
          return Err("section");
        }
        ResultIs(text, blocks, q, f, d, finished.value);
        results := results + [finished.value];
      }
    }
    return Ok(results);
  }

  // ---------------------------------------------------------------- what the guest prints for a case

  function SectionsOf(o: Outputs): seq<Section> {
    [Section("PROCESS_EXIT", o.exit), Section("STDOUT", o.stdout), Section("STDERR", o.stderr),
     Section("EVENTS", o.events), Section("EXTERNAL_STATE", o.external)]
  }

  ghost predicate CleanOutputs(o: Outputs) {
    Clean(o.exit) && Clean(o.stdout) && Clean(o.stderr) && Clean(o.events) && Clean(o.external)
  }

  lemma OutputsAreGood(o: Outputs)
    requires CleanOutputs(o)
    ensures GoodSections(SectionsOf(o))
  {
    var s := SectionsOf(o);
    assert s[4..][1..] == [];
    assert GoodSections(s[4..]);
    assert s[3..][1..] == s[4..];
    assert s[2..][1..] == s[3..];
    assert s[1..][1..] == s[2..];
    assert GoodSections(s[2..]);
    assert GoodSections(s[1..]);
  }

  lemma OutputsAreDistinct(o: Outputs)
    ensures DistinctNames(SectionsOf(o))
  {
    var s := SectionsOf(o);
    assert s[0].name[0] == 'P' && s[1].name[2] == 'D' && s[2].name[2] == 'D';
    assert s[1].name[3] == 'O' && s[2].name[3] == 'E' && s[3].name[1] == 'V' && s[4].name[1] == 'X';
    assert s[1].name[1] == 'T' && s[2].name[1] == 'T' && s[3].name[0] == 'E' && s[4].name[0] == 'E';
  }

  lemma OutputsAreExtracted(o: Outputs)
    requires CleanOutputs(o)
    ensures var body := Body(SectionsOf(o));
      && Extracts(body, Section("PROCESS_EXIT", o.exit)) && Extracts(body, Section("STDOUT", o.stdout))
      && Extracts(body, Section("STDERR", o.stderr)) && Extracts(body, Section("EVENTS", o.events))
      && Extracts(body, Section("EXTERNAL_STATE", o.external))
  {
    OutputsAreGood(o);
    OutputsAreDistinct(o);
    forall n | 0 <= n < |SectionsOf(o)| ensures Extracts(Body(SectionsOf(o)), SectionsOf(o)[n]) {
      SectionIsExtracted(SectionsOf(o), n);
    }
    ExtractsEach(Body(SectionsOf(o)), o);
  }

  predicate Extracts(body: string, s: Section) {
    ExtractSection(body, s.name) == Some(Strip(s.payload, IsNewline))
  }

  lemma ExtractsEach(body: string, o: Outputs)
    requires forall n :: 0 <= n < |SectionsOf(o)| ==> Extracts(body, SectionsOf(o)[n])
    ensures Extracts(body, Section("PROCESS_EXIT", o.exit)) && Extracts(body, Section("STDOUT", o.stdout))
    ensures Extracts(body, Section("STDERR", o.stderr)) && Extracts(body, Section("EVENTS", o.events))
    ensures Extracts(body, Section("EXTERNAL_STATE", o.external))
  {
    var s := SectionsOf(o);
    assert Extracts(body, s[0]) && Extracts(body, s[1]) && Extracts(body, s[2]) && Extracts(body, s[3]) && Extracts(body, s[4]);
  }

  /** The payloads without newlines at their edges. */
  function Stripped(o: Outputs): Outputs {
    Outputs(Strip(o.exit, IsNewline), Strip(o.stdout, IsNewline), Strip(o.stderr, IsNewline), Strip(o.events, IsNewline),
      Strip(o.external, IsNewline))
  }

  lemma OutputsComeBack(o: Outputs)
    requires CleanOutputs(o)
    ensures OutputsOf(Body(SectionsOf(o))) == Stripped(o)
  {
    OutputsAreExtracted(o);
    OutputsAre(Body(SectionsOf(o)), o);
  }

  lemma OutputsAre(body: string, o: Outputs)
    requires Extracts(body, Section("PROCESS_EXIT", o.exit)) && Extracts(body, Section("STDOUT", o.stdout))
    requires Extracts(body, Section("STDERR", o.stderr)) && Extracts(body, Section("EVENTS", o.events))
    requires Extracts(body, Section("EXTERNAL_STATE", o.external))
    ensures OutputsOf(body) == Stripped(o)
  {
    hide ExtractSection, Strip;
  }

  // ---------------------------------------------------------------- one result for each case

  ghost predicate DistinctPrograms(requests: seq<Request>) {
    forall a, b :: 0 <= a < b < |requests| ==> requests[a].programId != requests[b].programId
  }

  /** The script prints the requested cases, in the order of the requests. */
  ghost predicate PrintsFor(cases: seq<Case>, outputs: seq<Outputs>, requests: seq<Request>) {
    && |cases| == |outputs| == |requests|
    && forall i :: 0 <= i < |cases| ==>
      cases[i].programId == requests[i].programId && cases[i].sections == SectionsOf(outputs[i]) && CleanOutputs(outputs[i])
  }

  lemma CaseResultIs(text: string, cases: seq<Case>, outputs: seq<Outputs>, requests: seq<Request>, n: nat, i: nat,
      f: Fallback, d: Decoder, r: CaseResult)
    requires PrintsFor(cases, outputs, requests) && DistinctPrograms(requests) && n <= |cases| && i < |cases|
    ensures IsResult(r, text, BlocksOf(cases[..n]), requests[i], f, d) <==>
      if i < n then FinishedFields(r, Stripped(outputs[i]), requests[i], CaseText(cases[i]), d)
      else MissingFields(r, text, requests[i], f)
  {
    hide FinishedFields, MissingFields, Stripped, OutputsOf, SectionsOf, Body, CaseText;
    var blocks := BlocksOf(cases[..n]);
    var id := requests[i].programId;
    assert forall j :: 0 <= j < n ==> blocks[j].programId == requests[j].programId;
    if i < n {
      assert IsLast(blocks, id, i);
      OutputsComeBack(outputs[i]);
      assert blocks[i] == Block(id, Body(SectionsOf(outputs[i])), CaseText(cases[i]));
      forall j | IsLast(blocks, id, j) ensures j == i { LastIsUnique(blocks, id, i, j); }
    }
  }

  /**
   * Of a console cut at any byte, with distinct programs and payloads free of markers, the host makes
   * one result for each request, in order: the real payloads, less edge newlines, when the case's end
   * marker arrived, and the fallback otherwise.
   */
  lemma OneResultForEachCase(noise: string, cases: seq<Case>, outputs: seq<Outputs>, requests: seq<Request>, k: nat,
      f: Fallback, d: Decoder, i: nat, r: CaseResult)
    requires Clean(noise) && GoodCases(cases, d.header) && PrintsFor(cases, outputs, requests) && DistinctPrograms(requests)
    requires k <= |ConsoleText(noise, cases)| && i < |cases|
    ensures var text := ConsoleText(noise, cases)[..k];
      var found := Blocks(text, 0, CaseFrame(), d.header, []);
      && found.Ok?
      && (IsResult(r, text, found.value, requests[i], f, d) <==>
        if EndOffset(noise, cases, i) <= k then FinishedFields(r, Stripped(outputs[i]), requests[i], CaseText(cases[i]), d)
        else MissingFields(r, text, requests[i], f))
  {
    hide IsResult, FinishedFields, MissingFields, Stripped;
    CutConsoleGivesCompleteCases(noise, cases, d.header, k);
    CaseResultIs(ConsoleText(noise, cases)[..k], cases, outputs, requests, CompleteCases(noise, cases, k, |cases|), i, f, d, r);
  }
}
