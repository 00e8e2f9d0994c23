/** The server-sent-event decoder of `frontend/src/api/stream.ts`, as functions on
    decoded characters. Reading is split in two: how a text, cut into chunks, is
    parsed into event blocks, and how blocks are delivered until one raises. */
module EventStream {
  import opened Text

  // ------------------------------------------------------------------ one line

  /** What `String.prototype.trim` removes. */
  predicate JsSpace(c: char) {
    var n := c as int;
    || 9 <= n <= 13 || n == 0x20 || n == 0xA0 || n == 0x1680
    || 0x2000 <= n <= 0x200A || n == 0x2028 || n == 0x2029
    || n == 0x202F || n == 0x205F || n == 0x3000 || n == 0xFEFF
  }

  predicate StartsWith(s: string, prefix: string) {
    prefix <= s
  }

  function NormalizeLine(line: string): string {
    if line != "" && Last(line) == '\r' then ButLast(line) else line
  }

  function ReadDataLine(line: string, trimPrefix: bool): Option<string> {
    if !StartsWith(line, "data:") then None
    else
      var rest := line[5..];
      var content := if trimPrefix && StartsWith(rest, " ") then rest[1..] else rest;
      Some(if content == "" then "\n" else content)
  }

  function AsciiLower(s: string): string {
    seq(|s|, i requires 0 <= i < |s| =>
      if 'A' <= s[i] <= 'Z' then (s[i] as int + 32) as char else s[i])
  }

  function EventNameOf(line: string): string
    requires StartsWith(line, "event:")
  {
    Trim(line[6..], JsSpace)
  }

  // ------------------------------------------------------------------- a block

  /** A block that carries data: its data contents in order, and whether the last
      `event:` line of the block names the error event. */
  datatype EventBlock = EventBlock(parts: seq<string>, errorNamed: bool)

  function DataOf(line: string, trimPrefix: bool): seq<string> {
    match ReadDataLine(NormalizeLine(line), trimPrefix)
    case Some(content) => [content]
    case None => []
  }

  function DataParts(lines: seq<string>, trimPrefix: bool): seq<string> {
    if lines == [] then [] else DataOf(lines[0], trimPrefix) + DataParts(lines[1..], trimPrefix)
  }

  function EventName(lines: seq<string>): Option<string> {
    if lines == [] then None
    else
      var line := NormalizeLine(Last(lines));
      if StartsWith(line, "event:") then Some(EventNameOf(line)) else EventName(ButLast(lines))
  }

  predicate NamesError(name: Option<string>) {
    name.Some? && AsciiLower(name.value) == "error"
  }

  /** The blocks a block text gives rise to: one if it has any data, else none. */
  function BlockEvents(text: string, trimPrefix: bool): seq<EventBlock> {
    var parts := DataParts(Lines(text), trimPrefix);
    if parts == [] then [] else [EventBlock(parts, NamesError(EventName(Lines(text))))]
  }

  // ------------------------------------------------------- line ends normalised

  function CrLfToLf(s: string): string {
    if s == "" then ""
    else if |s| >= 2 && s[0] == '\r' && s[1] == '\n' then "\n" + CrLfToLf(s[2..])
    else [s[0]] + CrLfToLf(s[1..])
  }

  function CrToLf(s: string): string {
    if s == "" then ""
    else [if s[0] == '\r' then '\n' else s[0]] + CrToLf(s[1..])
  }

  /** `replace(/\r\n/g, '\n').replace(/\r/g, '\n')`. */
  function Normalize(s: string): string {
    CrToLf(CrLfToLf(s))
  }

  // ----------------------------------------------------------------- event mode

  const SEPARATOR: string := "\n\n"

  /** The blocks of all completely received paragraphs of a buffer. */
  function CompleteBlocks(text: string, trimPrefix: bool): seq<EventBlock>
    decreases |text|
  {
    var i := IndexOf(text, SEPARATOR);
    if i == -1 then []
    else BlockEvents(text[..i], trimPrefix) + CompleteBlocks(text[i + 2..], trimPrefix)
  }

  /** What follows the last separator. */
  function Remainder(text: string): string
    decreases |text|
  {
    var i := IndexOf(text, SEPARATOR);
    if i == -1 then text else Remainder(text[i + 2..])
  }

  /** Where the first line of an open paragraph ends, if that line is complete and
      carries data: the line the decoder delivers without waiting for the rest. */
  function EarlyLine(open: string): (r: Option<int>)
    ensures r.Some? ==> 0 <= r.value < |open|
  {
    var j := IndexOf(open, "\n");
    if j != -1 && StartsWith(open[..j], "data:") then Some(j) else None
  }

  function EarlyBlocks(open: string, trimPrefix: bool): seq<EventBlock> {
    match EarlyLine(open)
    case Some(j) => BlockEvents(open[..j], trimPrefix)
    case None => []
  }

  function EarlyRest(open: string): string {
    match EarlyLine(open)
    case Some(j) => open[j + 1..]
    case None => open
  }

  /** One flush in the middle of the stream: the blocks found and the buffer kept. */
  function FlushOpen(text: string, trimPrefix: bool): (seq<EventBlock>, string) {
    (CompleteBlocks(text, trimPrefix) + EarlyBlocks(Remainder(text), trimPrefix), EarlyRest(Remainder(text)))
  }

  /** The last flush: the open paragraph counts as complete. */
  function FlushDone(text: string, trimPrefix: bool): seq<EventBlock> {
    CompleteBlocks(text, trimPrefix) + BlockEvents(Remainder(text), trimPrefix)
  }

  /** Everything parsed from a stream that arrives as `chunks` and then `tail`, the
      characters that closing the character decoder may still yield. */
  function ParseEvents(buffer: string, chunks: seq<string>, tail: string, trimPrefix: bool): seq<EventBlock>
    decreases |chunks|
  {
    if chunks == [] then FlushDone(Normalize(buffer + tail), trimPrefix)
    else
      var (blocks, rest) := FlushOpen(Normalize(buffer + chunks[0]), trimPrefix);
      blocks + ParseEvents(rest, chunks[1..], tail, trimPrefix)
  }

  // ------------------------------------------------------------------ line mode

  /** Each data line is a block of its own. */
  function LineBlock(line: string, trimPrefix: bool): seq<EventBlock> {
    match ReadDataLine(NormalizeLine(line), trimPrefix)
    case Some(content) => [EventBlock([content], false)]
    case None => []
  }

  function LineEvents(lines: seq<string>, trimPrefix: bool): seq<EventBlock> {
    if lines == [] then [] else LineBlock(lines[0], trimPrefix) + LineEvents(lines[1..], trimPrefix)
  }

  function ParseLines(buffer: string, chunks: seq<string>, tail: string, trimPrefix: bool): seq<EventBlock>
    decreases |chunks|
  {
    if chunks == [] then LineEvents(Lines(buffer + tail), trimPrefix)
    else
      var lines := Lines(buffer + chunks[0]);
      LineEvents(ButLast(lines), trimPrefix) + ParseLines(Last(lines), chunks[1..], tail, trimPrefix)
  }

  // ------------------------------------------------------------------- delivery

  /** The messages handed over, and the content that ended the stream if one raised. */
  datatype Outcome = Outcome(delivered: seq<string>, failure: Option<string>)

  predicate Raises(block: EventBlock, joiner: string, isBusinessError: string -> bool) {
    block.errorNamed || isBusinessError(Join(block.parts, joiner))
  }

  function Deliver(blocks: seq<EventBlock>, joiner: string, isBusinessError: string -> bool): Outcome {
    if blocks == [] then Outcome([], None)
    else
      var content := Join(blocks[0].parts, joiner);
      if Raises(blocks[0], joiner, isBusinessError) then Outcome([], Some(content))
      else
        var rest := Deliver(blocks[1..], joiner, isBusinessError);
        rest.(delivered := [content] + rest.delivered)
  }

  /** Delivery is the join of every block before the first that raises. */
  lemma {:induction false} DeliverIs(blocks: seq<EventBlock>, joiner: string, isBusinessError: string -> bool)
    returns (k: nat)
    ensures k <= |blocks|
    ensures forall i | 0 <= i < k :: !Raises(blocks[i], joiner, isBusinessError)
    ensures k < |blocks| ==> Raises(blocks[k], joiner, isBusinessError)
    ensures var o := Deliver(blocks, joiner, isBusinessError);
            && |o.delivered| == k
            && (forall i | 0 <= i < k :: o.delivered[i] == Join(blocks[i].parts, joiner))
            && o.failure == if k < |blocks| then Some(Join(blocks[k].parts, joiner)) else None
  {
    if blocks == [] || Raises(blocks[0], joiner, isBusinessError) {
      k := 0;
    } else {
      var k' := DeliverIs(blocks[1..], joiner, isBusinessError);
      k := k' + 1;
    }
  }

  /** Delivering in two instalments: the second happens only if the first did not raise. */
  lemma {:induction false} DeliverAppend(a: seq<EventBlock>, b: seq<EventBlock>, joiner: string,
      isBusinessError: string -> bool)
    ensures var oa := Deliver(a, joiner, isBusinessError);
            var ob := Deliver(b, joiner, isBusinessError);
            Deliver(a + b, joiner, isBusinessError)
            == if oa.failure.Some? then oa else Outcome(oa.delivered + ob.delivered, ob.failure)
  {
    if a == [] {
      assert a + b == b;
    } else {
      assert (a + b)[1..] == a[1..] + b;
      DeliverAppend(a[1..], b, joiner, isBusinessError);
    }
  }
}
