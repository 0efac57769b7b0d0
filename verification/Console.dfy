/**
 * The batch console (tools/run_asterinas_shared.py): a script in the guest prints one block for each
 * case, and the host cuts the blocks out of whatever part of the console it got.
 */
module Console {
  import opened Prelude
  import opened Text

  const MARK := "__SYZABI"

  function BeginCase(): string { MARK + "_BEGIN_BATCH_CASE__\n" }
  function EndCase(): string { "\n" + MARK + "_END_BATCH_CASE__" }
  function BeginOf(name: string): string { MARK + "_BEGIN_" + name + "__\n" }
  function EndOf(name: string): string { "\n" + MARK + "_END_" + name + "__" }

  // ---------------------------------------------------------------- what the host does

  predicate IsNewline(c: char) { c == '\n' }

  function ExtractSection(text: string, name: string): Option<string> {
    var start := Find(text, BeginOf(name), 0);
    if start < 0 then None else
    var from := start + |BeginOf(name)|;
    var finish := Find(text, EndOf(name), from);
    if finish < 0 then None else Some(Strip(text[from..finish], IsNewline))
  }

  datatype Block = Block(programId: string, body: string, consoleLog: string)

  /** A header line as json.loads and the "program_id" lookup take it: None stands for their exceptions. */
  type Header = string -> Option<string>

  /** The two lines around a block. */
  datatype Frame = Frame(begin: string, end: string)

  datatype Span = Span(start: nat, headerEnd: nat, finish: nat)

  /** The next block that is complete at or after a position. */
  function NextBlock(text: string, from: nat, f: Frame): (r: Option<Span>)
    ensures r.Some? ==> from <= r.value.start && r.value.start + |f.begin| <= r.value.headerEnd < r.value.finish
    ensures r.Some? ==> r.value.finish + |f.end| <= |text|
  {
    var start := Find(text, f.begin, from);
    if start < 0 then None else
    var headerEnd := Find(text, "\n", start + |f.begin|);
    if headerEnd < 0 then None else
    var finish := Find(text, f.end, headerEnd + 1);
    if finish < 0 then None else Some(Span(start, headerEnd, finish))
  }

  /** The blocks found so far, followed by all complete blocks at or after a position. */
  function Blocks(text: string, from: nat, f: Frame, header: Header, found: seq<Block>): Result<seq<Block>>
    decreases |text| - from
  {
    match NextBlock(text, from, f)
    case None => Ok(found)
    case Some(Span(start, headerEnd, finish)) =>
      match header(text[start+|f.begin|..headerEnd])
      case None => Err("header")
      case Some(id) =>
        var block := Block(id, text[headerEnd+1..finish], text[start..finish+|f.end|]);
        Blocks(text, finish + |f.end|, f, header, found + [block])
  }

  /** The frame of a case's block. */
  function CaseFrame(): Frame { Frame(BeginCase(), EndCase()) }

  method ExtractBlocks(text: string, f: Frame, header: Header) returns (r: Result<seq<Block>>)
    ensures r == Blocks(text, 0, f, header, [])
  {
    hide Find;
    var blocks: seq<Block> := [];
    var searchFrom: nat := 0;
    while true
      invariant Blocks(text, 0, f, header, []) == Blocks(text, searchFrom, f, header, blocks)
      decreases |text| - searchFrom
    {
      var start := Find(text, f.begin, searchFrom);
      if start < 0 { break; }
      var headerEnd := Find(text, "\n", start + |f.begin|);
      if headerEnd < 0 { break; }
      var finish := Find(text, f.end, headerEnd + 1);
      if finish < 0 { break; }
      var id := header(text[start+|f.begin|..headerEnd]);
      if id == None { return Err("header"); }
      blocks := blocks + [Block(id.value, text[headerEnd+1..finish], text[start..finish+|f.end|])];
      searchFrom := finish + |f.end|;
    }
    return Ok(blocks);
  }
}
