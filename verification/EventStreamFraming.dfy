/** The round trip between the framing that the servers write (`data: <payload>` and a
    blank line; to report an error, an event of that name) and the decoder. */
module EventStreamFraming {
  import opened Text
  import opened EventStream
  import opened EventStreamTheorems
  import opened EventStreamBoundaries

  function Frame(payload: string): string {
    "data: " + payload + "\n\n"
  }

  function Frames(payloads: seq<string>): string {
    if payloads == [] then "" else Frame(payloads[0]) + Frames(payloads[1..])
  }

  /** What a payload comes out as: the space of the framing stays unless it is trimmed. */
  function Received(payload: string, trimPrefix: bool): string {
    if !trimPrefix then " " + payload
    else if payload == "" then "\n"
    else payload
  }

  function FrameBlocks(payloads: seq<string>, trimPrefix: bool): seq<EventBlock> {
    seq(|payloads|, i requires 0 <= i < |payloads| => EventBlock([Received(payloads[i], trimPrefix)], false))
  }

  lemma FrameBlocksStep(payloads: seq<string>, trimPrefix: bool)
    requires payloads != []
    ensures FrameBlocks(payloads, trimPrefix)
         == [EventBlock([Received(payloads[0], trimPrefix)], false)] + FrameBlocks(payloads[1..], trimPrefix)
  {
  }

  lemma NoFrames(trimPrefix: bool)
    ensures FrameBlocks([], trimPrefix) == []
  {
  }

  lemma FrameLine(payload: string, trimPrefix: bool)
    requires OneLine(payload)
    ensures var line := "data: " + payload;
            && '\n' !in line && '\r' !in line && StartsWith(line, "data:")
            && NormalizeLine(line) == line
            && ReadDataLine(line, trimPrefix) == Some(Received(payload, trimPrefix))
  {
    var line := "data: " + payload;
    assert line[..5] == "data:" && line[5..] == " " + payload;
    assert line[5..][1..] == payload;
  }

  lemma FrameBlock(payload: string, trimPrefix: bool)
    requires OneLine(payload)
    ensures BlockEvents("data: " + payload, trimPrefix) == [EventBlock([Received(payload, trimPrefix)], false)]
  {
    hide Received, ReadDataLine, NormalizeLine, Lines;
    var line := "data: " + payload;
    FrameLine(payload, trimPrefix);
    DataOfDataLine(line, trimPrefix);
    assert DataParts([line][1..], trimPrefix) == [];
    assert DataParts([line], trimPrefix) == [Received(payload, trimPrefix)];
  }

  lemma BlankInFrontIsSafe(paragraph: string, trimPrefix: bool)
    ensures EarlySafe("\n" + paragraph, trimPrefix)
  {
    LinesCut("", paragraph);
    assert "" + "\n" + paragraph == "\n" + paragraph;
    assert Lines("") == [""];
  }

  lemma FrameInFront(payload: string, rest: string, trimPrefix: bool)
    requires OneLine(payload)
    requires AllEarlySafe(rest, trimPrefix) && AllEarlySafe("\n" + rest, trimPrefix)
    ensures var text := Frame(payload) + rest;
            && FlushDone(text, trimPrefix)
               == [EventBlock([Received(payload, trimPrefix)], false)] + FlushDone(rest, trimPrefix)
            && AllEarlySafe(text, trimPrefix) && AllEarlySafe("\n" + text, trimPrefix)
  {
    hide IndexOf, BlockEvents, FlushDone, EarlySafe, AllEarlySafe;
    var line, text := "data: " + payload, Frame(payload) + rest;
    assert text == line + SEPARATOR + rest;
    assert "\n" + text == "" + "\n" + text;
    FrameLine(payload, trimPrefix);
    FrameBlock(payload, trimPrefix);
    SeparatorAfterLine(line, rest);
    UnfoldDone(text, line, rest, trimPrefix);
    LoneLineIsSafe(line, trimPrefix);
    UnfoldSafe(text, line, rest, trimPrefix);
    FirstParagraphAfterLine("", text, line, rest);
    BlankInFrontIsSafe(line, trimPrefix);
    assert "" + "\n" + line == "\n" + line;
    UnfoldSafe("\n" + text, "\n" + line, rest, trimPrefix);
  }

  /** Frames in front of something that ends the stream. */
  lemma {:induction false} FramesAreSafe(payloads: seq<string>, ending: string, trimPrefix: bool)
    requires forall p | p in payloads :: OneLine(p)
    requires '\r' !in ending && AllEarlySafe(ending, trimPrefix) && AllEarlySafe("\n" + ending, trimPrefix)
    ensures var text := Frames(payloads) + ending;
            && '\r' !in text
            && FlushDone(text, trimPrefix) == FrameBlocks(payloads, trimPrefix) + FlushDone(ending, trimPrefix)
            && AllEarlySafe(text, trimPrefix) && AllEarlySafe("\n" + text, trimPrefix)
  {
    hide FlushDone, AllEarlySafe, FrameBlocks;
    if payloads == [] {
      NoFrames(trimPrefix);
      assert Frames(payloads) + ending == ending;
    } else {
      var rest := Frames(payloads[1..]) + ending;
      assert Frames(payloads) + ending == Frame(payloads[0]) + rest;
      FramesAreSafe(payloads[1..], ending, trimPrefix);
      FrameInFront(payloads[0], rest, trimPrefix);
      FrameBlocksStep(payloads, trimPrefix);
      AppendAssociates([EventBlock([Received(payloads[0], trimPrefix)], false)],
                       FrameBlocks(payloads[1..], trimPrefix), FlushDone(ending, trimPrefix));
    }
  }

  lemma EmptyIsSafe(trimPrefix: bool)
    ensures FlushDone("", trimPrefix) == []
    ensures AllEarlySafe("", trimPrefix) && AllEarlySafe("\n", trimPrefix)
  {
    EmptyText(trimPrefix);
    LoneLineIsSafe("", trimPrefix);
    BlankInFrontIsSafe("", trimPrefix);
    assert "\n" + "" == "\n";
    IndexOfAfterLine("", "");
    assert "" + "\n" + "" == "\n";
    SingleParagraph("", trimPrefix);
    SingleParagraph("\n", trimPrefix);
  }

  // ------------------------------------------------------------------ the error frame

  const ERROR_LINE: string := "event: error"

  function ErrorFrame(message: string): string {
    ERROR_LINE + "\n" + "data: " + message + "\n\n"
  }

  /** What follows the payloads: nothing, or one error. */
  function Ending(error: Option<string>): string {
    match error
    case Some(message) => ErrorFrame(message)
    case None => ""
  }

  function EndingBlocks(error: Option<string>, trimPrefix: bool): seq<EventBlock> {
    match error
    case Some(message) => [EventBlock([Received(message, trimPrefix)], true)]
    case None => []
  }

  lemma ErrorLineNames()
    ensures '\n' !in ERROR_LINE && '\r' !in ERROR_LINE
    ensures NormalizeLine(ERROR_LINE) == ERROR_LINE && !StartsWith(ERROR_LINE, "data:")
    ensures NamesError(EventName([ERROR_LINE]))
  {
    assert ERROR_LINE[0] == 'e';
    assert ERROR_LINE[..6] == "event:" && ERROR_LINE[6..] == " error";
    assert TrimLeft(" error", JsSpace) == "error" by { assert " error"[1..] == "error"; }
    assert Trim(" error", JsSpace) == "error";
    assert AsciiLower("error") == "error";
    assert Last([ERROR_LINE]) == ERROR_LINE;
    assert EventName([ERROR_LINE]) == Some("error");
  }

  lemma ErrorParagraph(message: string, trimPrefix: bool)
    requires OneLine(message)
    ensures var p := ERROR_LINE + "\n" + ("data: " + message);
            && BlockEvents(p, trimPrefix) == [EventBlock([Received(message, trimPrefix)], true)]
            && EarlySafe(p, trimPrefix) && !OpensWithData(p)
  {
    hide Received, ReadDataLine, NormalizeLine, Lines, NamesError;
    var line := "data: " + message;
    var p := ERROR_LINE + "\n" + line;
    ErrorLineNames();
    FrameLine(message, trimPrefix);
    LinesOfOne(ERROR_LINE);
    LinesOfOne(line);
    LinesCut(ERROR_LINE, line);
    assert Lines(p) == [ERROR_LINE, line];
    assert [ERROR_LINE, line][1..] == [line];
    assert DataParts([line][1..], trimPrefix) == [];
    assert DataOf(ERROR_LINE, trimPrefix) == [] by { EventLineNoData(trimPrefix); }
    assert DataParts([line], trimPrefix) == [Received(message, trimPrefix)];
    assert ButLast([ERROR_LINE, line]) == [ERROR_LINE];
    assert !StartsWith(line, "event:") by { assert line[0] == 'd'; }
    assert EventName([ERROR_LINE, line]) == EventName([ERROR_LINE]);
    assert DataParts(Lines(p), trimPrefix) == [Received(message, trimPrefix)];
    assert NamesError(EventName(Lines(p)));
  }

  lemma EventLineNoData(trimPrefix: bool)
    ensures DataOf(ERROR_LINE, trimPrefix) == []
  {
    ErrorLineNames();
  }

  lemma EndingIsSafe(error: Option<string>, trimPrefix: bool)
    requires error.Some? ==> OneLine(error.value)
    ensures var ending := Ending(error);
            && '\r' !in ending && AllEarlySafe(ending, trimPrefix) && AllEarlySafe("\n" + ending, trimPrefix)
            && FlushDone(ending, trimPrefix) == EndingBlocks(error, trimPrefix)
  {
    EmptyIsSafe(trimPrefix);
    match error
    case None => assert "\n" + "" == "\n";
    case Some(message) => ErrorFrameIsSafe(message, trimPrefix);
  }

  lemma ErrorFrameIsSafe(message: string, trimPrefix: bool)
    requires OneLine(message)
    ensures var frame := ErrorFrame(message);
            && '\r' !in frame && AllEarlySafe(frame, trimPrefix) && AllEarlySafe("\n" + frame, trimPrefix)
            && FlushDone(frame, trimPrefix) == [EventBlock([Received(message, trimPrefix)], true)]
  {
    hide IndexOf, BlockEvents, FlushDone, EarlySafe, AllEarlySafe, OpensWithData;
    var line := "data: " + message;
    var p, frame := ERROR_LINE + "\n" + line, ErrorFrame(message);
    EmptyIsSafe(trimPrefix);
    ErrorLineNames();
    ErrorParagraph(message, trimPrefix);
    FrameLine(message, trimPrefix);
    SeparatorAfterLine(line, "");
    assert line + SEPARATOR + "" == line + SEPARATOR;
    FirstParagraphAfterLine(ERROR_LINE, line + SEPARATOR, line, "");
    assert frame == ERROR_LINE + "\n" + (line + SEPARATOR);
    UnfoldDone(frame, p, "", trimPrefix);
    UnfoldSafe(frame, p, "", trimPrefix);
    FirstParagraphAfterLine("", frame, p, "");
    BlankInFrontIsSafe(p, trimPrefix);
    assert "" + "\n" + p == "\n" + p && "" + "\n" + frame == "\n" + frame;
    UnfoldSafe("\n" + frame, "\n" + p, "", trimPrefix);
    BlankNotOpening(p);
  }

  lemma BlankNotOpening(paragraph: string)
    ensures !OpensWithData("\n" + paragraph)
  {
    LinesCut("", paragraph);
    assert "" + "\n" + paragraph == "\n" + paragraph;
    assert Lines("") == [""];
  }

  // ------------------------------------------------------------------ the round trip

  /** However the framed stream is cut, event mode parses one block per payload, and one
      that names the error if the stream ends in one. */
  lemma FramesParsed(payloads: seq<string>, error: Option<string>, chunks: seq<string>, tail: string, trimPrefix: bool)
    requires forall p | p in payloads :: OneLine(p)
    requires error.Some? ==> OneLine(error.value)
    requires Flatten(chunks) + tail == Frames(payloads) + Ending(error)
    ensures ParseEvents("", chunks, tail, trimPrefix)
         == FrameBlocks(payloads, trimPrefix) + EndingBlocks(error, trimPrefix)
  {
    hide *;
    var text := Frames(payloads) + Ending(error);
    EndingIsSafe(error, trimPrefix);
    FramesAreSafe(payloads, Ending(error), trimPrefix);
    assert forall i | 0 <= i < |tail| :: tail[i] == text[|Flatten(chunks)| + i];
    assert "" + (Flatten(chunks) + tail) == text;
    SafeTextBoundaries("", chunks, tail, trimPrefix);
  }

  lemma LinesOfFrame(line: string, rest: string)
    requires '\n' !in line
    ensures Lines(line + "\n\n" + rest) == [line, ""] + Lines(rest)
  {
    hide Lines;
    assert line + "\n\n" + rest == line + "\n" + ("" + "\n" + rest);
    LinesCut(line, "" + "\n" + rest);
    LinesCut("", rest);
    LinesOfOne(line);
    LinesOfOne("");
  }

  lemma LineEventsOfFrame(payload: string, trimPrefix: bool)
    requires OneLine(payload)
    ensures LineEvents(["data: " + payload, ""], trimPrefix) == [EventBlock([Received(payload, trimPrefix)], false)]
  {
    FrameLine(payload, trimPrefix);
    assert ["data: " + payload, ""][1..] == [""] && [""][1..] == [];
    assert LineEvents([""], trimPrefix) == [];
  }

  lemma {:induction false} FrameLines(payloads: seq<string>, ending: string, trimPrefix: bool)
    requires forall p | p in payloads :: OneLine(p)
    ensures LineEvents(Lines(Frames(payloads) + ending), trimPrefix)
         == FrameBlocks(payloads, trimPrefix) + LineEvents(Lines(ending), trimPrefix)
  {
    hide Lines, LineEvents;
    if payloads == [] {
      NoFrames(trimPrefix);
      assert Frames(payloads) + ending == ending;
    } else {
      var line, rest := "data: " + payloads[0], Frames(payloads[1..]) + ending;
      FrameLines(payloads[1..], ending, trimPrefix);
      FrameBlocksStep(payloads, trimPrefix);
      FrameLine(payloads[0], trimPrefix);
      LinesOfFrame(line, rest);
      assert Frames(payloads) + ending == line + "\n\n" + rest;
      LineEventsAppend([line, ""], Lines(rest), trimPrefix);
      LineEventsOfFrame(payloads[0], trimPrefix);
      AppendAssociates(LineEvents([line, ""], trimPrefix), FrameBlocks(payloads[1..], trimPrefix),
                       LineEvents(Lines(ending), trimPrefix));
    }
  }

  function ErrorTexts(error: Option<string>): seq<string> {
    match error
    case Some(message) => [message]
    case None => []
  }

  lemma EndingLines(error: Option<string>, trimPrefix: bool)
    requires error.Some? ==> OneLine(error.value)
    ensures LineEvents(Lines(Ending(error)), trimPrefix) == FrameBlocks(ErrorTexts(error), trimPrefix)
  {
    hide Lines, LineEvents;
    NoLines(trimPrefix);
    NoFrames(trimPrefix);
    if error.Some? {
      var message := error.value;
      assert ErrorFrame(message) == ERROR_LINE + "\n" + (Frames([message]) + "");
      ErrorLineNames();
      LinesCut(ERROR_LINE, Frames([message]) + "");
      LinesOfOne(ERROR_LINE);
      FrameLines([message], "", trimPrefix);
      LineEventsAppend([ERROR_LINE], Lines(Frames([message]) + ""), trimPrefix);
      ErrorLineDropped(trimPrefix);
    }
  }

  lemma NoLines(trimPrefix: bool)
    ensures LineEvents(Lines(""), trimPrefix) == []
  {
    LinesOfOne("");
    assert [""][1..] == [];
  }

  lemma ErrorLineDropped(trimPrefix: bool)
    ensures LineEvents([ERROR_LINE], trimPrefix) == []
  {
    ErrorLineNames();
    assert [ERROR_LINE][1..] == [];
  }

  /** Line mode parses the same blocks from the same stream, but knows no events: the text
      of an error is one more message. */
  lemma FramesParsedInLineMode(
      payloads: seq<string>, error: Option<string>, chunks: seq<string>, tail: string, trimPrefix: bool)
    requires forall p | p in payloads :: OneLine(p)
    requires error.Some? ==> OneLine(error.value)
    requires Flatten(chunks) + tail == Frames(payloads) + Ending(error)
    ensures ParseLines("", chunks, tail, trimPrefix) == FrameBlocks(payloads + ErrorTexts(error), trimPrefix)
  {
    hide LineEvents, Lines, Frames;
    LineModeChunkingIndependent(chunks, tail, trimPrefix);
    FrameLines(payloads, Ending(error), trimPrefix);
    EndingLines(error, trimPrefix);
    assert FrameBlocks(payloads + ErrorTexts(error), trimPrefix)
        == FrameBlocks(payloads, trimPrefix) + FrameBlocks(ErrorTexts(error), trimPrefix);
  }

  /** The payloads that come through as messages unless they raise. */
  function Expected(payloads: seq<string>, error: Option<string>, eventMode: bool): seq<string> {
    if eventMode then payloads else payloads + ErrorTexts(error)
  }

  /** Round trip: one message per payload, in order, up to the first payload that is a
      business error; that one is reported as the failure and nothing follows it. If there
      is none, event mode hands over every payload and then fails with the error the stream
      ends in, if it ends in one. */
  lemma FramingRoundTrip(
      payloads: seq<string>, error: Option<string>, chunks: seq<string>, tail: string, eventMode: bool,
      trimPrefix: bool, joiner: string, isBusinessError: string -> bool)
    returns (k: nat)
    requires forall p | p in payloads :: OneLine(p)
    requires error.Some? ==> OneLine(error.value)
    requires Flatten(chunks) + tail == Frames(payloads) + Ending(error)
    ensures var messages := Expected(payloads, error, eventMode);
            var blocks := if eventMode then ParseEvents("", chunks, tail, trimPrefix)
                          else ParseLines("", chunks, tail, trimPrefix);
            var o := Deliver(blocks, joiner, isBusinessError);
            && k <= |messages|
            && (forall i | 0 <= i < k :: !isBusinessError(Received(messages[i], trimPrefix)))
            && (k < |messages| ==> isBusinessError(Received(messages[k], trimPrefix)))
            && |o.delivered| == k
            && (forall i | 0 <= i < k :: o.delivered[i] == Received(messages[i], trimPrefix))
            && o.failure == if k < |messages| then Some(Received(messages[k], trimPrefix))
                            else if eventMode && error.Some? then Some(Received(error.value, trimPrefix))
                            else None
  {
    hide ParseEvents, ParseLines, Deliver, Frames, OneLine, Ending;
    var messages := Expected(payloads, error, eventMode);
    if eventMode {
      FramesParsed(payloads, error, chunks, tail, trimPrefix);
    } else {
      FramesParsedInLineMode(payloads, error, chunks, tail, trimPrefix);
    }
    var last := if eventMode then EndingBlocks(error, trimPrefix) else [];
    var blocks := FrameBlocks(messages, trimPrefix) + last;
    assert FrameBlocks(messages, trimPrefix) + [] == FrameBlocks(messages, trimPrefix);
    assert forall i | 0 <= i < |messages| :: Join(blocks[i].parts, joiner) == Received(messages[i], trimPrefix);
    assert last != [] ==> Join(last[0].parts, joiner) == Received(error.value, trimPrefix);
    assert last != [] ==> blocks[|messages|] == last[0] && Raises(last[0], joiner, isBusinessError);
    k := DeliverIs(blocks, joiner, isBusinessError);
  }
}
