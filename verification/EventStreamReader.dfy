/** The decoder's loops, proved against the functions of EventStream. */
module EventStreamReader {
  import opened Text
  import opened EventStream
  import opened EventStreamTheorems
  import opened EventStreamEscaping

  datatype StreamOptions = StreamOptions(
    eventMode: bool, trimDataPrefixSpace: Option<bool>, unescapeEscapedNewlines: bool, dataJoiner: Option<string>)
  {
    function TrimPrefix(): bool {
      match trimDataPrefixSpace
      case Some(b) => b
      case None => !eventMode
    }

    function Joiner(): string {
      match dataJoiner
      case Some(j) => j
      case None => "\n"
    }
  }

  lemma BlankHasNoData(text: string, trimPrefix: bool)
    requires Trim(text, JsSpace) == ""
    ensures BlockEvents(text, trimPrefix) == []
  {
    TrimBlank(text, JsSpace);
    LinesKeepChars(text, JsSpace);
    BlankLinesNoData(Lines(text), trimPrefix);
  }

  lemma {:induction false} BlankLinesNoData(lines: seq<string>, trimPrefix: bool)
    requires forall i, j | 0 <= i < |lines| && 0 <= j < |lines[i]| :: JsSpace(lines[i][j])
    ensures DataParts(lines, trimPrefix) == []
  {
    if lines != [] {
      assert lines[0] != "" ==> JsSpace(lines[0][0]);
      BlankLinesNoData(lines[1..], trimPrefix);
    }
  }

  lemma EventLineHasNoData(line: string, trimPrefix: bool)
    requires StartsWith(line, "event:")
    ensures ReadDataLine(line, trimPrefix) == None
  {
    assert line[0] == 'e';
  }

  /** Delivery of some blocks, as the page sees it. */
  function Delivered(blocks: seq<EventBlock>, options: StreamOptions, isBusinessError: string -> bool): Outcome {
    Handed(Deliver(blocks, options.Joiner(), isBusinessError), options.unescapeEscapedNewlines)
  }

  lemma DeliveredAppend(a: seq<EventBlock>, b: seq<EventBlock>, options: StreamOptions, isBusinessError: string -> bool)
    ensures var oa, ob := Delivered(a, options, isBusinessError), Delivered(b, options, isBusinessError);
            Delivered(a + b, options, isBusinessError)
            == if oa.failure.Some? then oa else Outcome(oa.delivered + ob.delivered, ob.failure)
  {
    hide Deliver, UnescapeNewlines;
    DeliverAppend(a, b, options.Joiner(), isBusinessError);
    var oa, ob := Deliver(a, options.Joiner(), isBusinessError), Deliver(b, options.Joiner(), isBusinessError);
    assert Each(oa.delivered + ob.delivered, UnescapeNewlines)
        == Each(oa.delivered, UnescapeNewlines) + Each(ob.delivered, UnescapeNewlines);
  }

  /** `emitContent` for one content: handed over, unescaped if asked for, or the end of the
      stream. */
  method EmitContent(content: string, options: StreamOptions, isBusinessError: string -> bool) returns (o: Outcome)
    ensures o == Delivered([EventBlock([content], false)], options, isBusinessError)
    ensures o == if isBusinessError(content) then Outcome([], Some(content))
                 else if options.unescapeEscapedNewlines then Outcome([UnescapeNewlines(content)], None)
                 else Outcome([content], None)
  {
    hide UnescapeNewlines;
    assert [EventBlock([content], false)][1..] == [];
    if isBusinessError(content) {
      assert Each([], UnescapeNewlines) == [];
      return Outcome([], Some(content));
    }
    assert Deliver([EventBlock([content], false)], options.Joiner(), isBusinessError) == Outcome([content], None);
    assert Each([content], UnescapeNewlines) == [UnescapeNewlines(content)];
    var output := if options.unescapeEscapedNewlines then UnescapeNewlines(content) else content;
    return Outcome([output], None);
  }

  lemma JoinedBlock(parts: seq<string>, errorNamed: bool, options: StreamOptions, isBusinessError: string -> bool)
    ensures var content := Join(parts, options.Joiner());
            Delivered([EventBlock(parts, errorNamed)], options, isBusinessError)
            == if errorNamed then Outcome([], Some(content))
               else Delivered([EventBlock([content], false)], options, isBusinessError)
  {
    hide UnescapeNewlines;
    assert [EventBlock(parts, errorNamed)][1..] == []
      && [EventBlock([Join(parts, options.Joiner())], false)][1..] == [];
    assert Each([], UnescapeNewlines) == [];
  }

  lemma OneMoreLine(lines: seq<string>, i: nat, trimPrefix: bool)
    requires i < |lines|
    ensures DataParts(lines[..i + 1], trimPrefix) == DataParts(lines[..i], trimPrefix) + DataOf(lines[i], trimPrefix)
    ensures var line := NormalizeLine(lines[i]);
            EventName(lines[..i + 1])
            == if StartsWith(line, "event:") then Some(EventNameOf(line)) else EventName(lines[..i])
  {
    hide DataOf, NormalizeLine, EventNameOf;
    assert lines[..i + 1] == lines[..i] + [lines[i]];
    DataPartsAppend(lines[..i], [lines[i]], trimPrefix);
    assert DataParts([lines[i]][1..], trimPrefix) == [];
    assert DataOf(lines[i], trimPrefix) + [] == DataOf(lines[i], trimPrefix);
    assert ButLast(lines[..i + 1]) == lines[..i];
  }

  method ProcessEventBlock(block: string, options: StreamOptions, isBusinessError: string -> bool) returns (o: Outcome)
    ensures o == Delivered(BlockEvents(block, options.TrimPrefix()), options, isBusinessError)
  {
    hide ReadDataLine, NormalizeLine, Lines, Trim, JsSpace, EventNameOf, NamesError;
    var trimPrefix := options.TrimPrefix();
    if Trim(block, JsSpace) == "" {
      BlankHasNoData(block, trimPrefix);
      return Outcome([], None);
    }
    var dataParts: seq<string> := [];
    var eventName: Option<string> := None;
    var lines := Lines(block);
    for i := 0 to |lines|
      invariant dataParts == DataParts(lines[..i], trimPrefix)
      invariant eventName == EventName(lines[..i])
    {
      var line := NormalizeLine(lines[i]);
      OneMoreLine(lines, i, trimPrefix);
      if StartsWith(line, "event:") {
        EventLineHasNoData(line, trimPrefix);
        eventName := Some(EventNameOf(line));
      } else {
        var content := ReadDataLine(line, trimPrefix);
        if content.Some? {
          dataParts := dataParts + [content.value];
        }
      }
    }
    assert lines[..|lines|] == lines;
    if dataParts == [] {
      return Outcome([], None);
    }
    var content := Join(dataParts, options.Joiner());
    JoinedBlock(dataParts, NamesError(eventName), options, isBusinessError);
    if NamesError(eventName) {
      return Outcome([], Some(content));
    }
    o := EmitContent(content, options, isBusinessError);
  }

  /** One turn of the separator loop. */
  lemma SeparatorFound(text: string, trimPrefix: bool)
    requires IndexOf(text, SEPARATOR) != -1
    ensures var i := IndexOf(text, SEPARATOR);
            && 0 <= i <= |text| - 2
            && CompleteBlocks(text, trimPrefix)
               == BlockEvents(text[..i], trimPrefix) + CompleteBlocks(text[i + 2..], trimPrefix)
            && Remainder(text) == Remainder(text[i + 2..])
  {
    hide IndexOf, BlockEvents;
    IndexOfFirst(text, SEPARATOR);
  }

  /** What the two kinds of flush yield, given the blocks before the open paragraph. */
  lemma FlushedIs(text: string, blocks: seq<EventBlock>, open: string, trimPrefix: bool)
    requires IndexOf(open, SEPARATOR) == -1 && Remainder(text) == Remainder(open)
    requires CompleteBlocks(text, trimPrefix) == blocks + CompleteBlocks(open, trimPrefix)
    ensures FlushDone(text, trimPrefix) == blocks + BlockEvents(open, trimPrefix)
    ensures FlushOpen(text, trimPrefix) == (blocks + EarlyBlocks(open, trimPrefix), EarlyRest(open))
  {
    hide IndexOf, BlockEvents, EarlyLine;
    assert CompleteBlocks(open, trimPrefix) == [] && Remainder(open) == open;
    assert blocks + [] == blocks;
  }

  /** A block that raised ends the flush. */
  lemma RaisedIs(
      text: string, a: seq<EventBlock>, b: seq<EventBlock>, trimPrefix: bool, options: StreamOptions,
      isBusinessError: string -> bool)
    requires CompleteBlocks(text, trimPrefix) == a + b && Delivered(a, options, isBusinessError).failure.Some?
    ensures Delivered(FlushDone(text, trimPrefix), options, isBusinessError) == Delivered(a, options, isBusinessError)
    ensures Delivered(FlushOpen(text, trimPrefix).0, options, isBusinessError) == Delivered(a, options, isBusinessError)
  {
    hide Delivered, BlockEvents, IndexOf, EarlyBlocks, EarlyLine, CompleteBlocks, Remainder;
    var open := Remainder(text);
    RestNotDelivered(a, b, options, isBusinessError);
    RestNotDelivered(a + b, BlockEvents(open, trimPrefix), options, isBusinessError);
    RestNotDelivered(a + b, EarlyBlocks(open, trimPrefix), options, isBusinessError);
  }

  method FlushEventBuffer(buffer: string, done: bool, options: StreamOptions, isBusinessError: string -> bool)
    returns (o: Outcome, remaining: string)
    ensures var text, trimPrefix := Normalize(buffer), options.TrimPrefix();
            var blocks := if done then FlushDone(text, trimPrefix) else FlushOpen(text, trimPrefix).0;
            && o == Delivered(blocks, options, isBusinessError)
            && (!done && o.failure.None? ==> remaining == FlushOpen(text, trimPrefix).1)
  {
    hide Normalize, BlockEvents, Delivered, IndexOf, Trim, JsSpace, Lines, DataParts,
         CompleteBlocks, Remainder, FlushOpen, FlushDone;
    var text, trimPrefix := Normalize(buffer), options.TrimPrefix();
    remaining := text;
    var separatorIndex := IndexOf(remaining, "\n\n");
    ghost var blocks: seq<EventBlock> := [];
    o := Outcome([], None);
    assert Delivered([], options, isBusinessError) == o by { NothingDelivered(options, isBusinessError); }
    while separatorIndex != -1
      invariant separatorIndex == IndexOf(remaining, SEPARATOR)
      invariant o.failure.None? && o == Delivered(blocks, options, isBusinessError)
      invariant CompleteBlocks(text, trimPrefix) == blocks + CompleteBlocks(remaining, trimPrefix)
      invariant Remainder(text) == Remainder(remaining)
      decreases |remaining|
    {
      SeparatorFound(remaining, trimPrefix);
      var block := remaining[..separatorIndex];
      var emitted := ProcessEventBlock(block, options, isBusinessError);
      ghost var now, rest := BlockEvents(block, trimPrefix), remaining[separatorIndex + 2..];
      DeliveredAppend(blocks, now, options, isBusinessError);
      AppendAssociates(blocks, now, CompleteBlocks(rest, trimPrefix));
      o := Outcome(o.delivered + emitted.delivered, emitted.failure);
      if emitted.failure.Some? {
        RaisedIs(text, blocks + now, CompleteBlocks(rest, trimPrefix), trimPrefix, options, isBusinessError);
        return;
      }
      blocks := blocks + now;
      remaining := remaining[separatorIndex + 2..];
      separatorIndex := IndexOf(remaining, "\n\n");
    }
    FlushedIs(text, blocks, remaining, trimPrefix);
    assert blocks + [] == blocks;
    if !done {
      var singleLineIndex := IndexOf(remaining, "\n");
      if singleLineIndex != -1 && StartsWith(remaining[..singleLineIndex], "data:") {
        var emitted := ProcessEventBlock(remaining[..singleLineIndex], options, isBusinessError);
        DeliveredAppend(blocks, BlockEvents(remaining[..singleLineIndex], trimPrefix), options, isBusinessError);
        o := Outcome(o.delivered + emitted.delivered, emitted.failure);
        remaining := remaining[singleLineIndex + 1..];
        return;
      }
    }
    if done {
      if Trim(remaining, JsSpace) != "" {
        var emitted := ProcessEventBlock(remaining, options, isBusinessError);
        DeliveredAppend(blocks, BlockEvents(remaining, trimPrefix), options, isBusinessError);
        o := Outcome(o.delivered + emitted.delivered, emitted.failure);
        remaining := "";
      } else {
        BlankHasNoData(remaining, trimPrefix);
      }
    }
  }

  lemma NothingDelivered(options: StreamOptions, isBusinessError: string -> bool)
    ensures Delivered([], options, isBusinessError) == Outcome([], None)
    ensures forall trimPrefix :: LineEvents([], trimPrefix) == []
  {
  }

  lemma RestNotDelivered(a: seq<EventBlock>, b: seq<EventBlock>, options: StreamOptions,
      isBusinessError: string -> bool)
    requires Delivered(a, options, isBusinessError).failure.Some?
    ensures Delivered(a + b, options, isBusinessError) == Delivered(a, options, isBusinessError)
  {
    DeliveredAppend(a, b, options, isBusinessError);
  }

  method ProcessLine(line: string, options: StreamOptions, isBusinessError: string -> bool) returns (o: Outcome)
    ensures o == Delivered(LineEvents([line], options.TrimPrefix()), options, isBusinessError)
  {
    hide Delivered;
    NothingDelivered(options, isBusinessError);
    assert LineEvents([line][1..], options.TrimPrefix()) == [];
    assert LineEvents([line], options.TrimPrefix()) == LineBlock(line, options.TrimPrefix());
    var content := ReadDataLine(NormalizeLine(line), options.TrimPrefix());
    if content.Some? {
      o := EmitContent(content.value, options, isBusinessError);
    } else {
      o := Outcome([], None);
    }
  }

  method FlushLineBuffer(buffer: string, done: bool, options: StreamOptions, isBusinessError: string -> bool)
    returns (o: Outcome, remaining: string)
    ensures var lines := if done then Lines(buffer) else ButLast(Lines(buffer));
            o == Delivered(LineEvents(lines, options.TrimPrefix()), options, isBusinessError)
    ensures remaining == if done then "" else Last(Lines(buffer))
  {
    hide Delivered, LineEvents, Lines;
    var trimPrefix := options.TrimPrefix();
    var lines := Lines(buffer);
    remaining := "";
    if !done {
      remaining := Last(lines);
      lines := ButLast(lines);
    }
    o := Outcome([], None);
    NothingDelivered(options, isBusinessError);
    for i := 0 to |lines|
      invariant o.failure.None? && o == Delivered(LineEvents(lines[..i], trimPrefix), options, isBusinessError)
    {
      var emitted := ProcessLine(lines[i], options, isBusinessError);
      ghost var before, now := LineEvents(lines[..i], trimPrefix), LineEvents([lines[i]], trimPrefix);
      LineEventsAppend(lines[..i], [lines[i]], trimPrefix);
      DeliveredAppend(before, now, options, isBusinessError);
      assert lines[..i + 1] == lines[..i] + [lines[i]];
      o := Outcome(o.delivered + emitted.delivered, emitted.failure);
      if emitted.failure.Some? {
        LineEventsAppend(lines[..i + 1], lines[i + 1..], trimPrefix);
        assert lines == lines[..i + 1] + lines[i + 1..];
        RestNotDelivered(LineEvents(lines[..i + 1], trimPrefix), LineEvents(lines[i + 1..], trimPrefix),
                         options, isBusinessError);
        return;
      }
    }
    assert lines[..|lines|] == lines;
    // The source has a further `if (done && remaining)` here; `remaining` is empty then.
  }

  function Parsed(buffer: string, chunks: seq<string>, tail: string, options: StreamOptions): seq<EventBlock> {
    if options.eventMode then ParseEvents(buffer, chunks, tail, options.TrimPrefix())
    else ParseLines(buffer, chunks, tail, options.TrimPrefix())
  }

  method FlushBuffer(buffer: string, done: bool, options: StreamOptions, isBusinessError: string -> bool)
    returns (o: Outcome, remaining: string)
    ensures done ==> o == Delivered(Parsed(buffer, [], "", options), options, isBusinessError)
    ensures !done ==> forall chunks, tail ::
      Delivered(Parsed(buffer, [""] + chunks, tail, options), options, isBusinessError)
      == if o.failure.Some? then o
         else
           var later := Delivered(Parsed(remaining, chunks, tail, options), options, isBusinessError);
           Outcome(o.delivered + later.delivered, later.failure)
  {
    hide Delivered, FlushOpen, FlushDone, LineEvents, Normalize;
    assert buffer + "" == buffer;
    if options.eventMode {
      o, remaining := FlushEventBuffer(buffer, done, options, isBusinessError);
    } else {
      o, remaining := FlushLineBuffer(buffer, done, options, isBusinessError);
    }
    if !done {
      forall chunks, tail
        ensures Delivered(Parsed(buffer, [""] + chunks, tail, options), options, isBusinessError)
             == if o.failure.Some? then o
                else
                  var later := Delivered(Parsed(remaining, chunks, tail, options), options, isBusinessError);
                  Outcome(o.delivered + later.delivered, later.failure)
      {
        FlushThenRest(buffer, chunks, tail, options, isBusinessError);
      }
    }
  }

  lemma FlushThenRest(
      buffer: string, chunks: seq<string>, tail: string, options: StreamOptions, isBusinessError: string -> bool)
    ensures var trimPrefix := options.TrimPrefix();
            var now := if options.eventMode then FlushOpen(Normalize(buffer), trimPrefix).0
                       else LineEvents(ButLast(Lines(buffer)), trimPrefix);
            var rest := if options.eventMode then FlushOpen(Normalize(buffer), trimPrefix).1 else Last(Lines(buffer));
            var o := Delivered(now, options, isBusinessError);
            var later := Delivered(Parsed(rest, chunks, tail, options), options, isBusinessError);
            Delivered(Parsed(buffer, [""] + chunks, tail, options), options, isBusinessError)
            == if o.failure.Some? then o else Outcome(o.delivered + later.delivered, later.failure)
  {
    hide Delivered, FlushOpen, LineEvents, Normalize;
    assert buffer + "" == buffer && ([""] + chunks)[1..] == chunks;
    var trimPrefix := options.TrimPrefix();
    if options.eventMode {
      var (now, rest) := FlushOpen(Normalize(buffer), trimPrefix);
      DeliveredAppend(now, Parsed(rest, chunks, tail, options), options, isBusinessError);
    } else {
      var lines := Lines(buffer);
      DeliveredAppend(LineEvents(ButLast(lines), trimPrefix), Parsed(Last(lines), chunks, tail, options),
                      options, isBusinessError);
    }
  }

  /** A chunk joins the buffer before it is flushed. */
  lemma ChunkJoins(buffer: string, chunks: seq<string>, tail: string, options: StreamOptions)
    requires chunks != []
    ensures Parsed(buffer, chunks, tail, options) == Parsed(buffer + chunks[0], [""] + chunks[1..], tail, options)
  {
    hide FlushOpen, FlushDone, LineEvents, Normalize, Lines;
    assert (buffer + chunks[0]) + "" == buffer + chunks[0];
    assert ([""] + chunks[1..])[1..] == chunks[1..];
  }

  lemma TailJoins(buffer: string, tail: string, options: StreamOptions)
    ensures Parsed(buffer, [], tail, options) == Parsed(buffer + tail, [], "", options)
  {
    hide FlushDone, LineEvents, Normalize, Lines;
    assert (buffer + tail) + "" == buffer + tail;
  }

  /** `readStream`: what is delivered is what parsing the chunks yields, up to the first
      block that raises. */
  method ReadStream(chunks: seq<string>, tail: string, options: StreamOptions, isBusinessError: string -> bool)
    returns (o: Outcome)
    ensures o == Delivered(Parsed("", chunks, tail, options), options, isBusinessError)
  {
    hide Delivered, Parsed;
    var buffer := "";
    o := Outcome([], None);
    for i := 0 to |chunks|
      invariant o.failure.None?
      invariant var later := Delivered(Parsed(buffer, chunks[i..], tail, options), options, isBusinessError);
                Delivered(Parsed("", chunks, tail, options), options, isBusinessError)
                == Outcome(o.delivered + later.delivered, later.failure)
    {
      ChunkJoins(buffer, chunks[i..], tail, options);
      assert chunks[i..][1..] == chunks[i + 1..];
      buffer := buffer + chunks[i];
      var emitted, remaining := FlushBuffer(buffer, false, options, isBusinessError);
      buffer := remaining;
      o := Outcome(o.delivered + emitted.delivered, emitted.failure);
      if emitted.failure.Some? {
        return;
      }
    }
    TailJoins(buffer, tail, options);
    buffer := buffer + tail;
    var emitted, _ := FlushBuffer(buffer, true, options, isBusinessError);
    o := Outcome(o.delivered + emitted.delivered, emitted.failure);
  }
}
