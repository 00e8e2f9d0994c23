/** What the clients of the reader are handed: the messages themselves, for the options each
    page sets, whatever the chunks. */
module EventStreamClients {
  import opened Text
  import opened EventStream
  import opened EventStreamTheorems
  import opened EventStreamBoundaries
  import opened EventStreamPairs
  import opened EventStreamRows
  import opened EventStreamChunkings
  import opened EventStreamFraming
  import opened EventStreamEscaping
  import opened EventStreamReader

  // ------------------------------------------------------------------------ delivery

  /** Each message is the data of its block, joined, as it came, unless the client asks for
      unescaping. */
  lemma DeliveredIs(blocks: seq<EventBlock>, options: StreamOptions, isBusinessError: string -> bool)
    returns (k: nat)
    ensures var joiner := if options.dataJoiner.Some? then options.dataJoiner.value else "\n";
            var o := Delivered(blocks, options, isBusinessError);
            && |o.delivered| == k <= |blocks|
            && (forall i | 0 <= i < k ::
                  && !blocks[i].errorNamed && !isBusinessError(Join(blocks[i].parts, joiner))
                  && o.delivered[i] == if options.unescapeEscapedNewlines
                                       then UnescapeNewlines(Join(blocks[i].parts, joiner))
                                       else Join(blocks[i].parts, joiner))
            && (k < |blocks| ==> blocks[k].errorNamed || isBusinessError(Join(blocks[k].parts, joiner)))
            && o.failure == if k < |blocks| then Some(Join(blocks[k].parts, joiner)) else None
  {
    hide Deliver, UnescapeNewlines;
    k := DeliverIs(blocks, options.Joiner(), isBusinessError);
  }

  // -------------------------------------------------------------------- the name of an event

  /** The error event is recognised in any mixture of cases. */
  lemma ErrorInAnyCase(name: string)
    ensures NamesError(Some(name))
       <==> |name| == 5 && name[0] in "eE" && name[1] in "rR" && name[2] in "rR" && name[3] in "oO" && name[4] in "rR"
  {
    var lower := AsciiLower(name);
    assert lower == "error" <==>
      |lower| == 5 && lower[0] == 'e' && lower[1] == 'r' && lower[2] == 'r' && lower[3] == 'o' && lower[4] == 'r';
  }

  /** The last `event:` line of a block counts, trimmed; other lines name nothing. */
  lemma {:induction false} LastEventLine(lines: seq<string>, before: seq<string>, name: string, after: seq<string>)
    requires lines == before + ["event:" + name] + after && CleanLines(lines)
    requires forall i | 0 <= i < |after| :: !StartsWith(after[i], "event:")
    ensures EventName(lines) == Some(Trim(name, JsSpace))
    decreases |after|
  {
    hide Trim;
    var line := NormalizeLine(Last(lines));
    assert '\r' !in lines[|lines| - 1];
    NotReturned(Last(lines));
    if after == [] {
      assert ("event:" + name)[6..] == name;
    } else {
      assert Last(lines) == Last(after) == after[|after| - 1];
      assert ButLast(lines) == before + ["event:" + name] + ButLast(after);
      LastEventLine(ButLast(lines), before, name, ButLast(after));
    }
  }

  lemma {:induction false} NoEventLine(lines: seq<string>)
    requires CleanLines(lines) && forall i | 0 <= i < |lines| :: !StartsWith(lines[i], "event:")
    ensures EventName(lines) == None
  {
    if lines != [] {
      assert lines[|lines| - 1] == Last(lines) && '\r' !in lines[|lines| - 1];
      NotReturned(Last(lines));
      NoEventLine(ButLast(lines));
    }
  }

  // ------------------------------------------------------- frames with other line ends

  /** Frames as the servers write them, with other line ends. */
  function FramesWith(payloads: seq<string>, end: string): string {
    if payloads == [] then "" else "data: " + payloads[0] + end + end + FramesWith(payloads[1..], end)
  }

  lemma {:induction false} FramesWithLineFeed(payloads: seq<string>)
    ensures FramesWith(payloads, "\n") == Frames(payloads)
  {
    if payloads != [] {
      FramesWithLineFeed(payloads[1..]);
      assert "data: " + payloads[0] + "\n" + "\n" == "data: " + payloads[0] + "\n\n";
    }
  }

  lemma {:induction false} FramesNormalized(payloads: seq<string>, end: string)
    requires LineEnd(end) && forall p | p in payloads :: OneLine(p)
    ensures Normalize(FramesWith(payloads, end)) == Frames(payloads)
  {
    if payloads == [] {
      NormalizeClean("");
    } else {
      hide Normalize, OneLine;
      FramesNormalized(payloads[1..], end);
      FrameBegins(payloads[1..], end);
      FrameNormalized(payloads[0], end, FramesWith(payloads[1..], end));
    }
  }

  lemma FrameNormalized(payload: string, end: string, rest: string)
    requires LineEnd(end) && OneLine(payload) && (rest == "" || rest[0] == 'd')
    ensures Normalize("data: " + payload + end + end + rest) == Frame(payload) + Normalize(rest)
  {
    hide Normalize;
    var line := "data: " + payload;
    assert line + end + end + rest == (line + end) + ("" + end) + rest;
    NormalizeClean("");
    LineNormalized("", line, end);
    LineNormalized(line + end, "", end) by { assert end[0] == '\n' ==> end == "\n"; }
    NormalizeAppend(line + end + ("" + end), rest);
    assert "" + (line + end) == line + end && "" + line + "\n" == line + "\n";
    assert line + "\n" + "" + "\n" == Frame(payload);
  }

  lemma FrameBegins(payloads: seq<string>, end: string)
    ensures FramesWith(payloads, end) == "" || FramesWith(payloads, end)[0] == 'd'
  {
  }

  lemma {:induction false} FrameLinesApart(payloads: seq<string>)
    requires forall p | p in payloads :: OneLine(p)
    ensures OneData(Lines(Frames(payloads))) && NoErrorEvent(Lines(Frames(payloads)))
  {
    hide Lines, OneData, NoErrorEvent;
    if payloads == [] {
      LinesOfOne("");
      assert OneData([""]) by { OneLineApart(""); }
      BlankNamesNothing();
      assert NoErrorEvent([""]) by { OneLineQuiet(""); }
    } else {
      var line, rest := "data: " + payloads[0], Frames(payloads[1..]);
      FrameLinesApart(payloads[1..]);
      FrameLine(payloads[0], false);
      assert Frames(payloads) == line + "\n\n" + rest;
      LinesOfFrame(line, rest);
      OneLineApart(line);
      OneDataAround([line], Lines(rest));
      assert [line, ""] + Lines(rest) == [line] + [""] + Lines(rest);
      DataLineQuiet(line);
      BlankNamesNothing();
      QuietTogether(line, Lines(rest));
    }
  }

  lemma OneLineApart(line: string)
    ensures OneData([line])
  {
  }

  lemma OneLineQuiet(line: string)
    requires !NamesError(EventName([line]))
    ensures NoErrorEvent([line])
  {
  }

  lemma DataLineQuiet(line: string)
    requires StartsWith(line, "data:") && NormalizeLine(line) == line
    ensures !NamesError(EventName([line]))
  {
    assert line[0] == 'd';
    assert ButLast([line]) == [] && Last([line]) == line;
    assert EventName([line]) == None;
  }

  lemma QuietTogether(line: string, rest: seq<string>)
    requires !NamesError(EventName([line])) && !NamesError(EventName([""])) && NoErrorEvent(rest)
    ensures NoErrorEvent([line, ""] + rest)
  {
    hide EventName, NamesError;
    var all := [line, ""] + rest;
    forall i | 0 <= i < |all| ensures !NamesError(EventName([all[i]])) {
      if i >= 2 { assert all[i] == rest[i - 2]; }
    }
  }

  /** In event mode the line ends make no difference, wherever the chunks cut. */
  lemma FramesParsedWith(payloads: seq<string>, end: string, chunks: seq<string>, tail: string, trimPrefix: bool)
    requires LineEnd(end) && forall p | p in payloads :: OneLine(p)
    requires Flatten(chunks) + tail == FramesWith(payloads, end)
    ensures ParseEvents("", chunks, tail, trimPrefix) == FrameBlocks(payloads, trimPrefix)
  {
    hide Normalize, ParseEvents, OneData, NoErrorEvent, Lines, Frames, FramesWith, Data;
    var text := Frames(payloads);
    FramesNormalized(payloads, end);
    FrameLinesApart(payloads);
    OneDataBoundaries(chunks, tail, trimPrefix);
    assert Flatten<char>([]) + text == text + Ending(None) == text;
    FramesParsed(payloads, None, [], text, trimPrefix);
    EventDataConserved([], text, trimPrefix);
    FramesWithLineFeed(payloads);
    FramesNormalized(payloads, "\n");
    assert EndingBlocks(None, trimPrefix) == [];
    var blocks := FrameBlocks(payloads, trimPrefix);
    assert blocks + [] == blocks;
    FrameData(payloads, trimPrefix);
  }

  lemma {:induction false} FrameData(payloads: seq<string>, trimPrefix: bool)
    ensures DataBlocks(Flatten(PartsOf(FrameBlocks(payloads, trimPrefix)))) == FrameBlocks(payloads, trimPrefix)
  {
    hide Received;
    var blocks := FrameBlocks(payloads, trimPrefix);
    assert Good(blocks, true);
    GoodIs(blocks, true);
  }

  /** In line mode a carriage return in front of the line feed is dropped. */
  lemma {:induction false} CrLfFrameLines(payloads: seq<string>, trimPrefix: bool)
    requires forall p | p in payloads :: OneLine(p)
    ensures LineEvents(Lines(FramesWith(payloads, "\r\n")), trimPrefix) == FrameBlocks(payloads, trimPrefix)
  {
    hide Lines, LineEvents;
    if payloads == [] {
      NoLines(trimPrefix);
      NoFrames(trimPrefix);
    } else {
      var line, rest := "data: " + payloads[0], FramesWith(payloads[1..], "\r\n");
      CrLfFrameLines(payloads[1..], trimPrefix);
      FrameBlocksStep(payloads, trimPrefix);
      FrameLine(payloads[0], trimPrefix);
      assert FramesWith(payloads, "\r\n") == (line + "\r") + "\n" + ("\r" + "\n" + rest);
      LinesCut(line + "\r", "\r" + "\n" + rest);
      LinesCut("\r", rest);
      LinesOfOne(line + "\r");
      LinesOfOne("\r");
      assert [line + "\r"] + (["\r"] + Lines(rest)) == [line + "\r", "\r"] + Lines(rest);
      LineEventsAppend([line + "\r", "\r"], Lines(rest), trimPrefix);
      CrLfFrame(payloads[0], trimPrefix);
    }
  }

  lemma CrLfFrame(payload: string, trimPrefix: bool)
    requires OneLine(payload)
    ensures LineEvents(["data: " + payload + "\r", "\r"], trimPrefix)
         == [EventBlock([Received(payload, trimPrefix)], false)]
  {
    hide Received, ReadDataLine;
    var line := "data: " + payload;
    FrameLine(payload, trimPrefix);
    assert ButLast(line + "\r") == line && Last(line + "\r") == '\r' && ButLast("\r") == "";
    assert ReadDataLine("", trimPrefix) == None by { NothingRead(trimPrefix); }
    assert [line + "\r", "\r"][1..] == ["\r"] && ["\r"][1..] == [];
    assert LineEvents(["\r"], trimPrefix) == [];
  }

  lemma NothingRead(trimPrefix: bool)
    ensures ReadDataLine("", trimPrefix) == None
  {
  }

  // ----------------------------------------------------------------- from server to page

  lemma ReceivedIs(payload: string)
    ensures Received(payload, false) == " " + payload
    ensures payload != "" ==> Received(payload, true) == payload
    ensures payload == "" ==> Received(payload, true) == "\n"
  {
  }

  lemma FramesParsedAs(
      payloads: seq<string>, error: Option<string>, end: string, chunks: seq<string>, tail: string,
      options: StreamOptions)
    requires (forall p | p in payloads :: OneLine(p)) && (error.Some? ==> OneLine(error.value) && end == "\n")
    requires LineEnd(end) && (end == "\r" ==> options.eventMode)
    requires Flatten(chunks) + tail == FramesWith(payloads, end) + Ending(error)
    ensures Parsed("", chunks, tail, options)
         == if options.eventMode
            then FrameBlocks(payloads, options.TrimPrefix()) + EndingBlocks(error, options.TrimPrefix())
            else FrameBlocks(payloads + ErrorTexts(error), options.TrimPrefix())
  {
    hide ParseEvents, ParseLines, Frames, FramesWith, FrameBlocks, OneLine, LineEvents, Lines;
    var trimPrefix := options.TrimPrefix();
    FramesWithLineFeed(payloads);
    assert FramesWith(payloads, end) + "" == FramesWith(payloads, end);
    if options.eventMode && end == "\n" {
      FramesParsed(payloads, error, chunks, tail, trimPrefix);
    } else if options.eventMode {
      FramesParsedWith(payloads, end, chunks, tail, trimPrefix);
      assert FrameBlocks(payloads, trimPrefix) + [] == FrameBlocks(payloads, trimPrefix);
    } else if end == "\n" {
      FramesParsedInLineMode(payloads, error, chunks, tail, trimPrefix);
    } else {
      LineModeChunkingIndependent(chunks, tail, trimPrefix);
      CrLfFrameLines(payloads, trimPrefix);
      assert payloads + [] == payloads;
    }
  }

  /** From the frames of a server to the messages of a page, for any options of the reader,
      any line ends it knows and any chunks: the payloads come as they were sent, behind the
      space of the framing if it is not trimmed, up to the first that is a business error. An
      error at the end of the stream is the failure in event mode, and a message in line
      mode. */
  lemma FramesRead(
      payloads: seq<string>, error: Option<string>, end: string, chunks: seq<string>, tail: string,
      options: StreamOptions, isBusinessError: string -> bool)
    returns (k: nat)
    requires (forall p | p in payloads :: OneLine(p)) && (error.Some? ==> OneLine(error.value) && end == "\n")
    requires LineEnd(end) && (end == "\r" ==> options.eventMode) && !options.unescapeEscapedNewlines
    requires Flatten(chunks) + tail == FramesWith(payloads, end) + Ending(error)
    ensures var o := Delivered(Parsed("", chunks, tail, options), options, isBusinessError);
            var sent := if error.Some? && !options.eventMode then payloads + [error.value] else payloads;
            var trims := options.trimDataPrefixSpace == Some(true)
                         || (options.trimDataPrefixSpace == None && !options.eventMode);
            var messages := seq(|sent|, i requires 0 <= i < |sent| =>
                                if !trims then " " + sent[i] else if sent[i] == "" then "\n" else sent[i]);
            && |o.delivered| == k <= |sent|
            && (forall i | 0 <= i < k :: o.delivered[i] == messages[i] && !isBusinessError(messages[i]))
            && (k < |messages| ==> isBusinessError(messages[k]) && o.failure == Some(messages[k]))
            && (k == |messages| ==> (o.failure.Some? <==> error.Some? && options.eventMode))
  {
    hide Parsed, Frames, FramesWith, OneLine, Ending, Delivered, Received;
    var trimPrefix := options.TrimPrefix();
    var sent := if error.Some? && !options.eventMode then payloads + [error.value] else payloads;
    FramesParsedAs(payloads, error, end, chunks, tail, options);
    SentAs(payloads, error, options);
    k := BlocksDelivered(sent, if options.eventMode then error else None, options, isBusinessError);
    forall i | 0 <= i < |sent|
      ensures Received(sent[i], trimPrefix)
           == if !trimPrefix then " " + sent[i] else if sent[i] == "" then "\n" else sent[i]
    {
      ReceivedIs(sent[i]);
    }
  }

  lemma SentAs(payloads: seq<string>, error: Option<string>, options: StreamOptions)
    ensures var sent := if error.Some? && !options.eventMode then payloads + [error.value] else payloads;
            var trimPrefix := options.TrimPrefix();
            FrameBlocks(sent, trimPrefix) + EndingBlocks(if options.eventMode then error else None, trimPrefix)
            == if options.eventMode then FrameBlocks(payloads, trimPrefix) + EndingBlocks(error, trimPrefix)
               else FrameBlocks(payloads + ErrorTexts(error), trimPrefix)
  {
    hide Received, FrameBlocks;
    assert payloads + [] == payloads;
    assert FrameBlocks(payloads + ErrorTexts(error), options.TrimPrefix()) + []
        == FrameBlocks(payloads + ErrorTexts(error), options.TrimPrefix());
  }

  /** Delivery of frames, and of the error frame behind them if there is one. */
  lemma BlocksDelivered(
      sent: seq<string>, error: Option<string>, options: StreamOptions, isBusinessError: string -> bool)
    returns (k: nat)
    requires !options.unescapeEscapedNewlines
    ensures var trimPrefix := options.TrimPrefix();
            var blocks := FrameBlocks(sent, trimPrefix) + EndingBlocks(error, trimPrefix);
            var o := Delivered(blocks, options, isBusinessError);
            && |o.delivered| == k <= |sent|
            && (forall i | 0 <= i < k ::
                  o.delivered[i] == Received(sent[i], trimPrefix) && !isBusinessError(Received(sent[i], trimPrefix)))
            && (k < |sent| ==> isBusinessError(Received(sent[k], trimPrefix))
                               && o.failure == Some(Received(sent[k], trimPrefix)))
            && (k == |sent| ==> (o.failure.Some? <==> error.Some?))
  {
    hide Received, Delivered;
    var trimPrefix := options.TrimPrefix();
    var last := EndingBlocks(error, trimPrefix);
    var blocks := FrameBlocks(sent, trimPrefix) + last;
    k := DeliveredIs(blocks, options, isBusinessError);
    assert forall i | 0 <= i < |sent| ::
        Join(blocks[i].parts, options.Joiner()) == Received(sent[i], trimPrefix) && !blocks[i].errorNamed;
    assert last != [] ==> blocks[|sent|] == last[0] && last[0].errorNamed;
  }

  /** The agent interview: its options leave each payload as it was sent, escapes and all,
      behind the space of the framing. */
  lemma InterviewMessages(payloads: seq<string>, chunks: seq<string>, tail: string, isBusinessError: string -> bool)
    requires forall p | p in payloads :: OneLine(p) && !isBusinessError(" " + p)
    requires Flatten(chunks) + tail == Frames(payloads)
    ensures var options := StreamOptions(true, None, false, None);
            var o := Delivered(Parsed("", chunks, tail, options), options, isBusinessError);
            && o.failure == None && |o.delivered| == |payloads|
            && forall i | 0 <= i < |payloads| :: o.delivered[i] == " " + payloads[i]
  {
    hide Parsed, Delivered, Frames, FramesWith, OneLine;
    FramesWithLineFeed(payloads);
    assert Frames(payloads) + Ending(None) == Frames(payloads);
    var k := FramesRead(payloads, None, "\n", chunks, tail, StreamOptions(true, None, false, None), isBusinessError);
    assert forall i | 0 <= i < |payloads| :: payloads[i] in payloads;
  }

  /** The knowledge base reads the same frames line by line, without the space. */
  lemma KnowledgeMessages(payloads: seq<string>, chunks: seq<string>, tail: string, isBusinessError: string -> bool)
    requires forall p | p in payloads :: OneLine(p) && p != "" && !isBusinessError(p)
    requires Flatten(chunks) + tail == Frames(payloads)
    ensures var options := StreamOptions(false, Some(true), false, None);
            var o := Delivered(Parsed("", chunks, tail, options), options, isBusinessError);
            && o.failure == None && o.delivered == payloads
  {
    hide Parsed, Delivered, Frames, FramesWith, OneLine;
    FramesWithLineFeed(payloads);
    assert Frames(payloads) + Ending(None) == Frames(payloads);
    var options := StreamOptions(false, Some(true), false, None);
    var k := FramesRead(payloads, None, "\n", chunks, tail, options, isBusinessError);
    assert forall i | 0 <= i < |payloads| :: payloads[i] in payloads;
  }

  // ------------------------------------------------------------------------ joined lines

  /** Several data lines of one event are one message, joined by line feeds or by what the
      client sets; only a space in front is ever taken off, and only if the client asks. */
  lemma JoinedLines(a: string, b: string, options: StreamOptions, isBusinessError: string -> bool)
    requires OneLine(a) && OneLine(b) && a != "" && b != "" && a[0] != ' ' && b[0] != ' '
    requires options.eventMode && !options.unescapeEscapedNewlines && !isBusinessError(
      a + (if options.dataJoiner.Some? then options.dataJoiner.value else "\n") + b)
    ensures var chunk := "data:" + a + "\n" + "data:" + b + "\n\n";
            Delivered(Parsed("", [chunk], "", options), options, isBusinessError)
            == Outcome([a + (if options.dataJoiner.Some? then options.dataJoiner.value else "\n") + b], None)
  {
    hide *;
    var block, joiner := "data:" + a + "\n" + ("data:" + b), options.Joiner();
    BlockText("data:" + a, "data:" + b);
    assert "data:" + a + "\n" + "data:" + b + "\n\n" == "data:" + a + "\n" + ("data:" + b) + "\n\n";
    TwoLineBlock(a, b, options.TrimPrefix());
    TwoLineParagraph(a, b);
    WholeBlock(block, options.TrimPrefix());
    ParsedInEventMode([block + SEPARATOR], options);
    OneDelivered(a, b, options, isBusinessError);
  }

  lemma BlockText(x: string, y: string)
    ensures x + "\n" + y + SEPARATOR == x + "\n" + y + "\n\n"
  {
  }

  lemma ParsedInEventMode(chunks: seq<string>, options: StreamOptions)
    requires options.eventMode
    ensures Parsed("", chunks, "", options) == ParseEvents("", chunks, "", options.TrimPrefix())
  {
  }

  lemma OneDelivered(a: string, b: string, options: StreamOptions, isBusinessError: string -> bool)
    requires !options.unescapeEscapedNewlines && !isBusinessError(
      a + (if options.dataJoiner.Some? then options.dataJoiner.value else "\n") + b)
    ensures Delivered([EventBlock([a, b], false)], options, isBusinessError)
         == Outcome([a + (if options.dataJoiner.Some? then options.dataJoiner.value else "\n") + b], None)
  {
    hide Delivered;
    var block, joiner := EventBlock([a, b], false), options.Joiner();
    assert Join([a, b], joiner) == a + joiner + b by { assert [a, b][1..] == [b]; }
    var k := DeliveredIs([block], options, isBusinessError);
    assert Delivered([block], options, isBusinessError).delivered == [a + joiner + b];
  }

  lemma TwoLineBlock(a: string, b: string, trimPrefix: bool)
    requires OneLine(a) && OneLine(b) && a != "" && b != "" && a[0] != ' ' && b[0] != ' '
    ensures BlockEvents("data:" + a + "\n" + ("data:" + b), trimPrefix) == [EventBlock([a, b], false)]
  {
    hide Lines, ReadDataLine, NormalizeLine, NamesError;
    var x, y := "data:" + a, "data:" + b;
    DataLineContent(a, trimPrefix);
    DataLineContent(b, trimPrefix);
    LinesCut(x, y);
    LinesOfOne(x);
    LinesOfOne(y);
    assert Lines(x + "\n" + y) == [x, y];
    assert [x, y] == [x] + [y];
    DataPartsAppend([x], [y], trimPrefix);
    OneDataPart(x, trimPrefix);
    OneDataPart(y, trimPrefix);
    assert !StartsWith(x, "event:") && !StartsWith(y, "event:") by { assert x[0] == 'd' && y[0] == 'd'; }
    NoEventLine([x, y]);
    NothingNamed();
    assert DataParts([x], trimPrefix) == [a] && DataParts([y], trimPrefix) == [b];
    assert DataParts([x] + [y], trimPrefix) == [a, b];
  }

  lemma NothingNamed()
    ensures !NamesError(None)
  {
  }

  lemma TwoLineParagraph(a: string, b: string)
    requires OneLine(a) && OneLine(b)
    ensures var block := "data:" + a + "\n" + ("data:" + b);
            '\r' !in block && FirstParagraph(block + SEPARATOR, block, "")
  {
    hide IndexOf;
    var x, y := "data:" + a, "data:" + b;
    SeparatorAfterLine(y, "");
    assert y + SEPARATOR + "" == y + SEPARATOR;
    FirstParagraphAfterLine(x, y + SEPARATOR, y, "");
    assert x + "\n" + (y + SEPARATOR) == x + "\n" + y + SEPARATOR;
  }

  lemma DataLineContent(content: string, trimPrefix: bool)
    requires OneLine(content) && content != "" && content[0] != ' '
    ensures NormalizeLine("data:" + content) == "data:" + content
    ensures ReadDataLine("data:" + content, trimPrefix) == Some(content)
  {
    assert ("data:" + content)[5..] == content;
    NotReturned("data:" + content);
  }

  lemma WholeBlock(block: string, trimPrefix: bool)
    requires '\r' !in block && FirstParagraph(block + SEPARATOR, block, "")
    ensures ParseEvents("", [block + SEPARATOR], "", trimPrefix) == BlockEvents(block, trimPrefix)
  {
    hide IndexOf, BlockEvents, FlushOpen, FlushDone, Normalize;
    var text := block + SEPARATOR;
    OneChunk(text, trimPrefix);
    NormalizeClean(text);
    assert text[|text| - 2..] == SEPARATOR;
    ClosedRead(text, trimPrefix);
    UnfoldDone(text, block, "", trimPrefix);
    EmptyIsSafe(trimPrefix);
    assert BlockEvents(block, trimPrefix) + [] == BlockEvents(block, trimPrefix);
  }
}
