/** Row by row, whatever the scan of EventStreamScan holds can be brought about. */
module EventStreamReached {
  import opened Text
  import opened EventStream
  import opened EventStreamTheorems
  import opened EventStreamBoundaries
  import opened EventStreamPairs
  import opened EventStreamRows
  import opened EventStreamScan
  import opened EventStreamCuts
  import opened EventStreamSteady
  import opened EventStreamChunkings

  // ----------------------------------------------------------------- one more chunk

  lemma {:induction false} EmittedSnoc(buffer: string, chunks: seq<string>, chunk: string, trimPrefix: bool)
    ensures Emitted(buffer, chunks + [chunk], trimPrefix)
         == Emitted(buffer, chunks, trimPrefix)
            + FlushOpen(Normalize(EndBuffer(buffer, chunks, trimPrefix) + chunk), trimPrefix).0
    decreases |chunks|
  {
    hide Normalize, FlushOpen;
    if chunks == [] {
      var blocks := FlushOpen(Normalize(buffer + chunk), trimPrefix).0;
      assert (chunks + [chunk])[1..] == [] && [] + blocks == blocks + [] == blocks;
    } else {
      var (blocks, rest) := FlushOpen(Normalize(buffer + chunks[0]), trimPrefix);
      assert (chunks + [chunk])[0] == chunks[0] && (chunks + [chunk])[1..] == chunks[1..] + [chunk];
      EmittedSnoc(rest, chunks[1..], chunk, trimPrefix);
      AppendAssociates(blocks, Emitted(rest, chunks[1..], trimPrefix),
                       FlushOpen(Normalize(EndBuffer(rest, chunks[1..], trimPrefix) + chunk), trimPrefix).0);
    }
  }

  /** Every block has data. */
  predicate Full(blocks: seq<EventBlock>) {
    forall i | 0 <= i < |blocks| :: blocks[i].parts != []
  }

  lemma FullAppend(a: seq<EventBlock>, b: seq<EventBlock>)
    requires Full(a) && Full(b)
    ensures Full(a + b)
  {
  }

  lemma {:induction false} CompleteFull(text: string, trimPrefix: bool)
    ensures Full(CompleteBlocks(text, trimPrefix))
    decreases |text|
  {
    var i := IndexOf(text, SEPARATOR);
    hide IndexOf;
    if i != -1 {
      assert Full(BlockEvents(text[..i], trimPrefix));
      CompleteFull(text[i + 2..], trimPrefix);
      FullAppend(BlockEvents(text[..i], trimPrefix), CompleteBlocks(text[i + 2..], trimPrefix));
    }
  }

  lemma {:induction false} RunFull(buffer: string, chunks: seq<string>, tail: string, trimPrefix: bool)
    ensures Full(ParseEvents(buffer, chunks, tail, trimPrefix))
    decreases |chunks|
  {
    hide Normalize, IndexOf, Remainder, CompleteBlocks, EarlyLine, DataParts;
    var text := Normalize(if chunks == [] then buffer + tail else buffer + chunks[0]);
    CompleteFull(text, trimPrefix);
    if chunks == [] {
      FullAppend(CompleteBlocks(text, trimPrefix), BlockEvents(Remainder(text), trimPrefix));
    } else {
      FlushFull(text, trimPrefix);
      RunFull(FlushOpen(text, trimPrefix).1, chunks[1..], tail, trimPrefix);
      hide FlushOpen;
      FullAppend(FlushOpen(text, trimPrefix).0,
                 ParseEvents(FlushOpen(text, trimPrefix).1, chunks[1..], tail, trimPrefix));
    }
  }

  lemma FlushFull(text: string, trimPrefix: bool)
    ensures Full(FlushOpen(text, trimPrefix).0)
  {
    hide IndexOf, Remainder, CompleteBlocks, EarlyLine, DataParts;
    CompleteFull(text, trimPrefix);
    FullAppend(CompleteBlocks(text, trimPrefix), EarlyBlocks(Remainder(text), trimPrefix));
  }

  lemma FirstBlockData(blocks: seq<EventBlock>)
    requires blocks != []
    ensures Flatten(PartsOf(blocks)) == blocks[0].parts + Flatten(PartsOf(blocks[1..]))
  {
    assert PartsOf(blocks)[1..] == PartsOf(blocks[1..]);
  }

  lemma NothingFull(blocks: seq<EventBlock>)
    requires Full(blocks) && Flatten(PartsOf(blocks)) == []
    ensures blocks == []
  {
    if blocks != [] {
      FirstBlockData(blocks);
      assert false;
    }
  }

  /** A chunk without data finds no block, and leaves no data behind. */
  lemma FlushNoData(text: string, trimPrefix: bool)
    requires Data(text, trimPrefix) == []
    ensures FlushOpen(text, trimPrefix).0 == [] && Data(FlushOpen(text, trimPrefix).1, trimPrefix) == []
    ensures FlushOpen(text, trimPrefix).1 == Remainder(text)
  {
    var (blocks, rest) := FlushOpen(text, trimPrefix);
    var open := Remainder(text);
    if EarlyLine(open).Some? {
      var j := EarlyLine(open).value;
      EarlyLineIs(open);
      DataOfDataLine(open[..j], trimPrefix);
      assert EarlyBlocks(open, trimPrefix) != [];
    }
    hide FlushOpen, Data, EarlyLine, BlockEvents;
    FlushOpenData(text, "", trimPrefix);
    assert rest + "" == rest && text + "" == text;
    FlushFull(text, trimPrefix);
    NothingFull(blocks);
  }

  // ----------------------------------------------------------- data that was handed over

  lemma QuietLine(buffer: string, line: string, trimPrefix: bool)
    requires LineStart(buffer) && OneLine(line) && !IsData(line) && Data(buffer, trimPrefix) == []
    ensures Data(buffer + line + "\n", trimPrefix) == []
  {
    hide Data;
    EmptyData(trimPrefix);
    DataCut(line, "", trimPrefix);
    assert line + "\n" + "" == line + "\n";
    assert Data(line, trimPrefix) == [] by { OneLineData(line, trimPrefix); }
    if buffer == "" {
      assert buffer + line + "\n" == line + "\n";
    } else {
      var w := ButLast(buffer);
      assert buffer == w + "\n" + "";
      DataCut(w, "", trimPrefix);
      DataCut(w, line + "\n", trimPrefix);
      assert buffer + line + "\n" == w + "\n" + (line + "\n");
    }
  }

  lemma OneLineData(line: string, trimPrefix: bool)
    requires OneLine(line)
    ensures Data(line, trimPrefix) == DataOf(line, trimPrefix)
    ensures !IsData(line) ==> Data(line, trimPrefix) == []
  {
    LinesOfOne(line);
    OneDataPart(line, trimPrefix);
    DataOfCount(line, trimPrefix);
  }

  predicate HandedStill(text: string, chunks: seq<string>, data: seq<string>, bad: bool, v: View) {
    var blocks := Seen(Emitted("", chunks, v.trim), v);
    && Flatten(chunks) == text && Data(EndBuffer("", chunks, v.trim), v.trim) == []
    && blocks != [] && Last(blocks) == EventBlock(data, bad)
  }

  /** A chunk without data does not change what was handed over last. */
  lemma StillHanded(text: string, chunks: seq<string>, data: seq<string>, bad: bool, chunk: string, v: View)
    requires HandedStill(text, chunks, data, bad, v)
    requires Data(Normalize(EndBuffer("", chunks, v.trim) + chunk), v.trim) == []
    ensures HandedStill(text + chunk, chunks + [chunk], data, bad, v)
    ensures EndBuffer("", chunks + [chunk], v.trim) == Remainder(Normalize(EndBuffer("", chunks, v.trim) + chunk))
  {
    hide Normalize, EndBuffer, Emitted, FlushOpen, Data, Remainder;
    var all := Normalize(EndBuffer("", chunks, v.trim) + chunk);
    FlattenSnoc(chunks, chunk);
    EmittedSnoc("", chunks, chunk, v.trim);
    EndBufferSnoc("", chunks, chunk, v.trim);
    FlushNoData(all, v.trim);
    var blocks := Emitted("", chunks, v.trim);
    assert blocks + [] == blocks;
  }

  lemma BufferStart(buffer: string, mode: Mode)
    requires BufferIs(buffer, mode)
    ensures LineStart(buffer)
  {
  }

  /** A line of the run behind data that was handed over. */
  lemma HandedLine(
      text: string, chunks: seq<string>, mode: Mode, data: seq<string>, bad: bool, line: string, end: string, v: View)
    requires HandedBy(text, chunks, mode, data, bad, v)
    requires OneLine(line) && line != "" && !IsData(line) && LineEnd(end) && !SplitsPair(text, line + end)
    ensures var chunks' := chunks + [line + end];
            && HandedBy(text + (line + end), chunks', Open, data, bad, v)
            && EndBuffer("", chunks', v.trim) == Remainder(EndBuffer("", chunks, v.trim) + line + "\n")
  {
    hide Normalize, EndBuffer, Emitted, Data, Remainder, BufferIs;
    var buffer := EndBuffer("", chunks, v.trim);
    EndBufferClean("", chunks, v.trim);
    BufferStart(buffer, mode);
    BufferLine(buffer, line, end);
    QuietLine(buffer, line, v.trim);
    StillHanded(text, chunks, data, bad, line + end, v);
    var k := RemainderSuffix(buffer + line + "\n");
    OpenBuffer(EndBuffer("", chunks + [line + end], v.trim));
  }

  lemma OpenBuffer(buffer: string)
    requires LineStart(buffer)
    ensures BufferIs(buffer, Open)
  {
  }

  /** And a line whose pair is cut in two. */
  lemma HandedCut(
      text: string, chunks: seq<string>, mode: Mode, data: seq<string>, bad: bool, line: string, v: View)
    requires HandedBy(text, chunks, mode, data, bad, v)
    requires OneLine(line) && line != "" && !IsData(line) && !SplitsPair(text, line + "\r\n")
    ensures HandedBy(text + (line + "\r\n"), chunks + [line + "\r", "\n"], Empty, data, bad, v)
  {
    hide Normalize, EndBuffer, Emitted, Data, Remainder;
    var chunks1, buffer := chunks + [line + "\r"], EndBuffer("", chunks, v.trim);
    HandedLine(text, chunks, mode, data, bad, line, "\r", v);
    var buffer1 := EndBuffer("", chunks1, v.trim);
    EndBufferClean("", chunks1, v.trim);
    EndNormalized("\n");
    NormalizeAfter(buffer1, "\n");
    QuietLine(buffer1, "", v.trim);
    assert buffer1 + "" + "\n" == buffer1 + "\n";
    StillHanded(text + (line + "\r"), chunks1, data, bad, "\n", v);
    assert chunks1 + ["\n"] == chunks + [line + "\r", "\n"];
    assert (text + (line + "\r")) + "\n" == text + (line + "\r\n");
    var w, c := buffer + ButLast(line), Last(line);
    assert buffer + line + "\n" == w + [c] + "\n";
    var z := OneEnd(w, c);
    assert buffer1 + "\n" == z + [c] + "\n\n";
    TwoEnds(z, c);
    assert Data("", v.trim) == [] by { EmptyData(v.trim); }
  }

  // ----------------------------------------------------------- a data line handed over

  lemma DataBlockSeen(line: string, v: View)
    requires OneLine(line) && IsData(line)
    ensures Seen(BlockEvents(line, v.trim), v) == [EventBlock(DataOf(line, v.trim), false)]
  {
    DataOfDataLine(line, v.trim);
    OneLineData(line, v.trim);
  }

  lemma HandOver(text: string, chunks: seq<string>, line: string, end: string, v: View)
    requires Flatten(chunks) == text && EndBuffer("", chunks, v.trim) == ""
    requires OneLine(line) && IsData(line) && LineEnd(end)
    ensures HandedBy(text + (line + end), chunks + [line + end], Empty, DataOf(line, v.trim), false, v)
  {
    hide Normalize, EndBuffer, Emitted, FlushOpen, Data, DataOf, BlockEvents, Seen, IsData;
    BufferLine("", line, end);
    assert "" + line + "\n" == line + "\n";
    FlattenSnoc(chunks, line + end);
    EmittedSnoc("", chunks, line + end, v.trim);
    EndBufferSnoc("", chunks, line + end, v.trim);
    FlushFirst(line, v.trim);
    SeenAppend(Emitted("", chunks, v.trim), BlockEvents(line, v.trim), v);
    DataBlockSeen(line, v);
    EmptyData(v.trim);
  }

  lemma FlushFirst(line: string, trimPrefix: bool)
    requires OneLine(line) && IsData(line)
    ensures FlushOpen(line + "\n", trimPrefix) == (BlockEvents(line, trimPrefix), "")
  {
    FlushOpenFirstLine(line, trimPrefix);
  }

  /** The pair behind the line is cut in two, and its second half stays behind. */
  lemma HandOverCut(text: string, chunks: seq<string>, line: string, v: View)
    requires Flatten(chunks) == text && EndBuffer("", chunks, v.trim) == ""
    requires OneLine(line) && IsData(line)
    ensures HandedBy(text + (line + "\r\n"), chunks + [line + "\r", "\n"], Blank, DataOf(line, v.trim), false, v)
  {
    hide Normalize, EndBuffer, Emitted, Data, DataOf, Remainder, IsData;
    var chunks1 := chunks + [line + "\r"];
    HandOver(text, chunks, line, "\r", v);
    EndNormalized("\n");
    assert "" + "\n" == "\n" && "" + "" + "\n" == "\n";
    EmptyData(v.trim);
    assert !IsData("") by { BlankIsNoData(); }
    QuietLine("", "", v.trim);
    StillHanded(text + (line + "\r"), chunks1, DataOf(line, v.trim), false, "\n", v);
    NothingRemains();
    assert chunks1 + ["\n"] == chunks + [line + "\r", "\n"];
    assert (text + (line + "\r")) + "\n" == text + (line + "\r\n");
  }

  // ------------------------------------------------------ a pair cut behind a held run

  lemma {:induction false} TakeAllData(p: Para, lines: seq<string>, v: View)
    ensures TakeAll(p, lines, v).data == p.data + DataParts(lines, v.trim)
    decreases |lines|
  {
    hide DataOf, Named;
    if lines == [] {
      assert p.data + [] == p.data;
    } else {
      TakeAllData(Take(p, lines[0], v), lines[1..], v);
      AppendAssociates(p.data, DataOf(lines[0], v.trim), DataParts(lines[1..], v.trim));
    }
  }

  /** A second line end behind an open run: the run is a message, and nothing is left. */
  lemma RunEnds(q: string, z: string, v: View)
    requires (q == "" || q == "\n") && z != "" && RunText(z) && '\r' !in z && IndexOf(q + z, SEPARATOR) == -1
    ensures FlushOpen(q + z + "\n", v.trim).1 == ""
    ensures Seen(FlushOpen(q + z + "\n", v.trim).0, v) == Emit(TakeAll(NOTHING, Lines(z), v))
  {
    hide Lines, FlushOpen, BlockEvents, Seen, Take, Emit;
    var head, w := q + ButLast(z), ButLast(z);
    LineStartLines(z);
    assert q + z + "\n" == head + SEPARATOR + "" && z == w + "\n" + "";
    SeparatorAtEnd(q + z);
    FlushOpenAfterParagraph(q + z + "\n", head, "", v.trim);
    EmptyFlush(v);
    assert BlockEvents(head, v.trim) + [] == BlockEvents(head, v.trim);
    assert BlockEvents(head, v.trim) == BlockEvents(w, v.trim) by {
      BlankLineFirst(w, v.trim);
      assert q == "" ==> head == w;
    }
    ParagraphBlock(w, v);
    LinesCut(w, "");
    LinesOfOne("");
    TakeAllAppend(NOTHING, Lines(w), [""], v);
    TakeOne(TakeAll(NOTHING, Lines(w), v), "", v);
    TakeBlank(TakeAll(NOTHING, Lines(w), v), v);
  }

  lemma SeparatorAtEnd(text: string)
    requires text != "" && Last(text) == '\n' && IndexOf(text, SEPARATOR) == -1
    ensures IndexOf(text + "\n", SEPARATOR) == |text| - 1
  {
    IndexOfFirst(text, SEPARATOR);
    IndexOfFirst(text + "\n", SEPARATOR);
    OccursAtChars(text + "\n", |text| - 1);
    OccursAtChars(text + "\n", IndexOf(text + "\n", SEPARATOR));
    OccursAtChars(text, IndexOf(text + "\n", SEPARATOR));
  }

  /** What the flush of a held run hands over, and what of the run stays behind. */
  lemma HeldFlush(q: string, z: string, mode: Mode, p: Para, open: bool, v: View)
    returns (q': string, z': string)
    requires z != "" && RunText(z) && InFront(q, z, mode, open) && '\r' !in q + z
    requires TakeAll(NOTHING, Lines(z), v) == p
    requires mode == Early ==> |Lines(z)| > 2 && p.data == DataOf(Lines(z)[0], v.trim)
    ensures EarlyRest(q + z) == q' + z' && (q' == "" || q' == "\n") && z' != "" && RunText(z') && '\r' !in z'
    ensures mode != Early ==> z' == z
    ensures mode == Early ==> Seen(EarlyBlocks(q + z, v.trim), v) == [EventBlock(p.data, false)]
    ensures mode == Early ==> DataParts(Lines(z'), v.trim) == [] && p.data != []
  {
    hide Lines, IsData, DataOf, Named, BlockEvents, Seen;
    if mode == Early {
      assert q + z == z;
      z' := FirstHeld(z, p, v);
      q' := "";
    } else {
      z' := z;
      q' := if q == "\n" then q else "";
      assert '\r' !in z by { assert forall i | 0 <= i < |z| :: z[i] == (q + z)[|q| + i]; }
      HeldBehind(q, z, mode, open);
    }
  }

  lemma HeldBehind(q: string, z: string, mode: Mode, open: bool)
    requires z != "" && RunText(z) && InFront(q, z, mode, open) && mode != Early
    ensures EarlyRest(q + z) == (if q == "\n" then q else "") + z
  {
    hide Lines, IsData;
    if q == "\n" {
      assert (q + z) == "" + "\n" + z;
      FirstLineFeed("", z);
      assert (q + z)[..0] == "";
      BlankIsNoData();
      NoEarly(q + z, "");
    } else if q == "" {
      assert q + z == z;
      var line, y := FirstOf(z);
      NoEarly(z, line);
    } else {
      var line := ButLast(q);
      assert q + z == line + "\n" + z;
      FirstLineFeed(line, z);
      assert (q + z)[..|line|] == line && (q + z)[|line| + 1..] == z;
      IsEarly(q + z, line);
    }
  }

  lemma FirstOf(z: string) returns (line: string, y: string)
    requires z != "" && RunText(z)
    ensures z == line + "\n" + y && '\n' !in line && Lines(z) == [line] + Lines(y) && line == Lines(z)[0]
    ensures IndexOf(z, "\n") == |line| && z[..|line|] == line && z[|line| + 1..] == y
  {
    hide Lines;
    LineStartLines(z);
    assert z[|z| - 1] == '\n';
    line, y := CutFirstLine(z);
    LinesCut(line, y);
    LinesOfOne(line);
    FirstLineFeed(line, y);
  }

  lemma NoEarly(text: string, line: string)
    requires |line| < |text| && IndexOf(text, "\n") == |line| && text[..|line|] == line && !IsData(line)
    ensures EarlyLine(text).None?
  {
  }

  lemma IsEarly(text: string, line: string)
    requires |line| < |text| && IndexOf(text, "\n") == |line| && text[..|line|] == line && IsData(line)
    ensures EarlyLine(text) == Some(|line|)
  {
  }

  lemma FirstHeld(z: string, p: Para, v: View) returns (z': string)
    requires z != "" && RunText(z) && '\r' !in z && IsData(Lines(z)[0]) && |Lines(z)| > 2
    requires TakeAll(NOTHING, Lines(z), v) == p && p.data == DataOf(Lines(z)[0], v.trim)
    ensures EarlyRest(z) == z' && z' != "" && RunText(z') && '\r' !in z'
    ensures Seen(EarlyBlocks(z, v.trim), v) == [EventBlock(p.data, false)]
    ensures DataParts(Lines(z'), v.trim) == [] && p.data != []
  {
    hide Lines, IsData, DataOf, Named, BlockEvents, Seen;
    var line, y := FirstOf(z);
    z' := y;
    IsEarly(z, line);
    var lines := Lines(y);
    assert Lines(z)[1..] == lines;
    assert y != "" by { LinesOfOne(""); }
    assert forall i | 0 <= i < |ButLast(lines)| :: ButLast(lines)[i] == ButLast(Lines(z))[i + 1];
    assert Last(lines) == Last(Lines(z));
    assert OneLine(line) by { assert forall i | 0 <= i < |line| :: line[i] == z[i]; }
    assert '\r' !in y by { assert forall i | 0 <= i < |y| :: y[i] == z[|line| + 1 + i]; }
    DataBlockSeen(line, v);
    DataLine(line, v);
    TakeAllData(NOTHING, Lines(z), v);
    DataPartsAppend([line], lines, v.trim);
    OneDataPart(line, v.trim);
    assert NOTHING.data + DataParts(Lines(z), v.trim) == DataParts(Lines(z), v.trim);
  }

  /** A chunk that ends inside the pair behind a held run ends the paragraph. */
  lemma CutHeld(
      text: string, chunks: seq<string>, rest: string, q: string, z: string, mode: Mode, p: Para, open: bool, v: View)
    requires HoldsBy(text, chunks, rest, q, z, mode, p, open, v) && z != ""
    requires mode == Early ==> |Lines(z)| > 2
    ensures CanEnd(text + "\n", "", v.trim)
    ensures p.data != [] ==> HandedOver(text + "\n", Empty, p.data, mode != Early && p.bad, v)
  {
    hide Lines, Normalize, EndBuffer, Emitted, FlushOpen, CompleteBlocks, EarlyBlocks, EarlyRest, Remainder,
         RunText, InFront, TakeAll, Seen, Data, DataOf, DataParts, Emit;
    var buffer, chunks1 := EndBuffer("", chunks, v.trim), chunks + [rest];
    var w := buffer + Normalize(rest);
    EndBufferClean("", chunks, v.trim);
    NormalizeAfter(buffer, rest);
    NormalizeClean(rest);
    RemainderClean(w);
    RemainderOpen(w);
    var q', z' := HeldFlush(q, z, mode, p, open, v);
    EarlyRestOpen(q + z);
    FlushIs(w, v);
    FlattenSnoc(chunks, rest);
    EmittedSnoc("", chunks, rest, v.trim);
    EndBufferSnoc("", chunks, rest, v.trim);
    EndNormalized("\n");
    assert '\r' !in q' + z';
    NormalizeAfter(q' + z', "\n");
    FlattenSnoc(chunks1, "\n");
    EmittedSnoc("", chunks1, "\n", v.trim);
    EndBufferSnoc("", chunks1, "\n", v.trim);
    RunEnds(q', z', v);
    assert EndBuffer("", chunks1 + ["\n"], v.trim) == "" && Flatten(chunks1 + ["\n"]) == text + "\n";
    if p.data != [] {
      HeldBlocks(Emitted("", chunks, v.trim), CompleteBlocks(w, v.trim), EarlyBlocks(q + z, v.trim),
                 FlushOpen(q' + z' + "\n", v.trim).0, z', mode, p, v);
      EmptyData(v.trim);
      assert HandedBy(text + "\n", chunks1 + ["\n"], Empty, p.data, mode != Early && p.bad, v);
    }
  }

  lemma HeldBlocks(
      before: seq<EventBlock>, found: seq<EventBlock>, early: seq<EventBlock>, later: seq<EventBlock>, z: string,
      mode: Mode, p: Para, v: View)
    requires Seen(later, v) == Emit(TakeAll(NOTHING, Lines(z), v)) && p.data != []
    requires if mode == Early then Seen(early, v) == [EventBlock(p.data, false)] && DataParts(Lines(z), v.trim) == []
             else TakeAll(NOTHING, Lines(z), v) == p
    ensures var blocks := Seen(before + (found + early) + later, v);
            blocks != [] && Last(blocks) == EventBlock(p.data, mode != Early && p.bad)
  {
    hide Lines, DataParts, TakeAll;
    SeenAppend(before + (found + early), later, v);
    if mode == Early {
      TakeAllData(NOTHING, Lines(z), v);
      SeenAppend(before, found + early, v);
      SeenAppend(found, early, v);
    }
  }

  lemma FlushIs(text: string, v: View)
    ensures FlushOpen(text, v.trim)
         == (CompleteBlocks(text, v.trim) + EarlyBlocks(Remainder(text), v.trim), EarlyRest(Remainder(text)))
  {
  }

  lemma EarlyRestOpen(open: string)
    requires IndexOf(open, SEPARATOR) == -1
    ensures IndexOf(EarlyRest(open), SEPARATOR) == -1
  {
    if EarlyLine(open).Some? {
      var j, rest := EarlyLine(open).value, EarlyRest(open);
      IndexOfFirst(open, SEPARATOR);
      IndexOfFirst(rest, SEPARATOR);
      OccursAtChars(rest, IndexOf(rest, SEPARATOR));
      OccursAtChars(open, j + 1 + IndexOf(rest, SEPARATOR));
    }
  }

  // ------------------------------------------------------------------ one row of the scan

  predicate Arrives(text: string, line: string, end: string) {
    OneLine(line) && LineEnd(end) && !SplitsPair(text, line + end)
  }

  lemma HoldsOpens(text: string, mode: Mode, p: Para, open: bool, v: View)
    requires Holds(text, mode, p, false, v)
    ensures Holds(text, mode, p, open, v)
  {
    hide Lines, Normalize, EndBuffer, Remainder, RunText, TakeAll;
    var chunks, rest, q, z :| HoldsBy(text, chunks, rest, q, z, mode, p, false, v);
    assert HoldsBy(text, chunks, rest, q, z, mode, p, open, v);
  }

  /** A blank row. */
  lemma BlankReal(
      text: string, c: Config, data: seq<string>, end: string, c': Config, open: bool, seen: bool, v: View)
    requires Real(text, c, data, false, v) && Arrives(text, "", end) && c' in Succ(c, Row("", end == "\r\n"), seen, v)
    ensures Real(text + end, c', [], open, v)
  {
    hide Normalize, Real, CanEnd, EndsLine;
    assert "" + end == end;
    BlankSucc(c, c', end == "\r\n", seen, v);
    hide Succ, AfterBlank;
    match c.mode {
      case Empty =>
        RealEmpty(text, c, data, v);
        BlankAfterEmpty(text, end, v.trim);
      case Blank =>
        RealBlank(text, c, data, v);
        BlankAfterBlank(text, end, v.trim);
      case _ =>
        RealEnds(text, c, data, v);
        BlankAfterLine(text, end, v.trim);
    }
    if c' == BLANK {
      BlankIsReal(text + end, open, v);
    } else {
      EmptyIsReal(text + end, open, v);
    }
  }

  /** What a blank row leads to, from an empty buffer, from a blank line, and else. */
  lemma BlankSucc(c: Config, c': Config, pair: bool, seen: bool, v: View)
    requires c' in Succ(c, Row("", pair), seen, v)
    ensures c' == EMPTY || c' == BLANK
    ensures !pair ==> c' == if c.mode == Empty then BLANK else EMPTY
  {
    BlankIsNoData();
    hide IsData;
  }

  lemma RealEnds(text: string, c: Config, data: seq<string>, v: View)
    requires Real(text, c, data, false, v) && (c.mode == Open || c.mode == Early)
    ensures EndsLine(Normalize(text))
  {
  }

  lemma EmptyIsReal(text: string, open: bool, v: View)
    requires CanEnd(text, "", v.trim)
    ensures Real(text, EMPTY, [], open, v)
  {
  }

  lemma BlankIsReal(text: string, open: bool, v: View)
    requires CanEnd(text, "\n", v.trim)
    ensures Real(text, BLANK, [], open, v)
  {
    HoldsBlank(text, v);
    HoldsOpens(text, Blank, NOTHING, open, v);
  }

  lemma RealEmpty(text: string, c: Config, data: seq<string>, v: View)
    requires Real(text, c, data, false, v) && c.mode == Empty
    ensures CanEnd(text, "", v.trim)
  {
    hide EndBuffer, Emitted;
    if c.handed.Some? {
      var chunks :| HandedBy(text, chunks, Empty, data, c.handed.value, v);
      assert EndBuffer("", chunks, v.trim) == "";
    }
  }

  lemma RealBlank(text: string, c: Config, data: seq<string>, v: View)
    requires Real(text, c, data, false, v) && c.mode == Blank
    ensures CanEnd(text, "\n", v.trim)
  {
    hide EndBuffer, Emitted, Holds;
    if c.handed.Some? {
      var chunks :| HandedBy(text, chunks, Blank, data, c.handed.value, v);
      assert EndBuffer("", chunks, v.trim) == "\n";
    } else {
      BlankCanEnd(text, Para(data, c.bad), v);
    }
  }

  lemma LineEnds(text: string, line: string, end: string)
    requires Arrives(text, line, end) && line != ""
    ensures EndsLine(Normalize(text + (line + end)))
  {
    hide Normalize;
    LineNormalized(text, line, end);
    assert (Normalize(text) + line)[|Normalize(text)| + |line| - 1] == Last(line);
  }

  /** A line is read and nothing else happens, where its data is not handed over yet. */
  lemma HeldStay(
      text: string, c: Config, data: seq<string>, open: bool, line: string, end: string, v: View)
    returns (chunks: seq<string>, rest: string, q: string, z: string)
    requires Real(text, c, data, open, v) && Fit(c, data != []) && c.handed.None?
    requires Arrives(text, line, end) && line != "" && (c.mode == Early ==> !IsData(line))
    ensures var c' := Stay(c, line, v);
            HoldsBy(text + (line + end), chunks, rest, q, z, c'.mode,
                    Para(data + DataOf(line, v.trim), c'.bad), open, v)
    ensures z != "" && (c.mode == Early ==> |Lines(z)| > 2)
  {
    hide Lines, Normalize, EndBuffer, Remainder, IsData, DataOf, Named, EndsLine, RunText, InFront, TakeAll;
    if c.mode == Empty {
      assert data == [] && !c.bad;
      chunks :| Flatten(chunks) == text && EndBuffer("", chunks, v.trim) == "";
      HoldsFirst(text, chunks, line, end, v);
      rest, q, z := line + end, "", line + "\n";
      assert HoldsBy(text + (line + end), chunks, rest, q, z, Stay(c, line, v).mode, Take(NOTHING, line, v), false, v);
      FrontOpens(q, z, Stay(c, line, v).mode, open);
    } else {
      var p := Para(data, c.bad);
      var rest0, z0;
      chunks, rest0, q, z0 :| HoldsBy(text, chunks, rest0, q, z0, c.mode, p, open, v);
      HoldsGrows(text, chunks, rest0, q, z0, c.mode, p, open, line, end, v);
      rest, z := rest0 + (line + end), z0 + line + "\n";
      if c.mode == Early {
        RunGrows(z0, line, p, v);
        FrontNotBare(q, z0, open);
        RunNotBare(z0);
      }
    }
  }

  lemma FrontOpens(q: string, z: string, mode: Mode, open: bool)
    requires InFront(q, z, mode, false)
    ensures InFront(q, z, mode, open)
  {
  }

  lemma FrontNotBare(q: string, z: string, open: bool)
    requires InFront(q, z, Early, open) && RunText(z)
    ensures z != "" && Last(Lines(z)) == ""
  {
  }

  /** A row that is not blank. */
  lemma StayReal(text: string, c: Config, data: seq<string>, open: bool, line: string, end: string, v: View)
    requires Real(text, c, data, open, v) && Fit(c, data != []) && Arrives(text, line, end) && line != ""
    requires c.handed.Some? || c.mode == Early ==> !IsData(line)
    ensures Real(text + (line + end), Stay(c, line, v), data + DataOf(line, v.trim), open, v)
  {
    hide Normalize, EndBuffer, Emitted, Remainder, IsData, DataOf, Named, EndsLine, HoldsBy;
    LineEnds(text, line, end);
    if c.handed.Some? {
      var bad := c.handed.value;
      var chunks :| HandedBy(text, chunks, c.mode, data, bad, v);
      HandedLine(text, chunks, c.mode, data, bad, line, end, v);
      assert HandedBy(text + (line + end), chunks + [line + end], Open, data, bad, v);
      DataLine(line, v);
      assert data + [] == data;
    } else {
      var chunks, rest, q, z := HeldStay(text, c, data, open, line, end, v);
    }
  }

  lemma HandedIsReal(text: string, mode: Mode, data: seq<string>, bad: bool, open: bool, v: View)
    requires HandedOver(text, mode, data, bad, v) && (mode == Empty || mode == Blank)
    ensures Real(text, Config(mode, false, Some(bad)), data, open, v)
  {
  }

  lemma HandedCanEnd(text: string, chunks: seq<string>, data: seq<string>, bad: bool, v: View)
    requires HandedBy(text, chunks, Empty, data, bad, v)
    ensures CanEnd(text, "", v.trim) && HandedOver(text, Empty, data, bad, v)
  {
    hide EndBuffer, Emitted, Data, Seen;
    assert EndBuffer("", chunks, v.trim) == "";
  }

  /** A data line is handed over at once. */
  lemma HandedReal(text: string, c: Config, data: seq<string>, open: bool, line: string, end: string, v: View)
    requires Real(text, c, data, open, v) && Fit(c, data != []) && Arrives(text, line, end)
    requires c.mode == Empty && c.handed.None? && IsData(line)
    ensures Real(text + (line + end), HANDED, data + DataOf(line, v.trim), open, v)
    ensures end == "\r\n" ==>
      Real(text + (line + end), Config(Blank, false, Some(false)), data + DataOf(line, v.trim), open, v)
    ensures CanEnd(text + (line + end), "", v.trim)
  {
    assert CanEnd(text, "", v.trim) && data == [];
    hide Normalize, EndBuffer, Emitted, IsData, DataOf, Real, HandedBy, CanEnd, HandedOver;
    var d := DataOf(line, v.trim);
    assert [] + d == d;
    var chunks := EmptyBy(text, v);
    HandOver(text, chunks, line, end, v);
    HandedCanEnd(text + (line + end), chunks + [line + end], d, false, v);
    HandedIsReal(text + (line + end), Empty, d, false, open, v);
    if end == "\r\n" {
      HandOverCut(text, chunks, line, v);
      ByHandedOver(text + (line + end), chunks + [line + "\r", "\n"], Blank, d, false, v);
      HandedIsReal(text + (line + end), Blank, d, false, open, v);
    }
  }

  lemma EmptyBy(text: string, v: View) returns (chunks: seq<string>)
    requires CanEnd(text, "", v.trim)
    ensures Flatten(chunks) == text && EndBuffer("", chunks, v.trim) == ""
  {
    chunks :| Flatten(chunks) == text && EndBuffer("", chunks, v.trim) == "";
  }

  lemma ByHandedOver(text: string, chunks: seq<string>, mode: Mode, data: seq<string>, bad: bool, v: View)
    requires HandedBy(text, chunks, mode, data, bad, v)
    ensures HandedOver(text, mode, data, bad, v)
  {
  }

  /** A chunk ends inside the pair behind the row. */
  lemma CutReal(text: string, c: Config, data: seq<string>, open: bool, line: string, v: View)
    requires Real(text, c, data, open, v) && Fit(c, data != []) && Arrives(text, line, "\r\n") && line != ""
    requires c.handed.Some? || c.mode == Early ==> !IsData(line)
    requires !(c.mode == Empty && IsData(line))
    ensures Real(text + (line + "\r\n"), Cut(c, line, data != [], v), data + DataOf(line, v.trim), open, v)
  {
    hide Normalize, HandedBy, HandedOver, HoldsBy, CanEnd, IsData, DataOf, Named, EndsLine, Lines;
    var all, d := text + (line + "\r\n"), data + DataOf(line, v.trim);
    DataLine(line, v);
    if c.handed.Some? {
      CutHanded(text, c.mode, data, c.handed.value, line, v);
      assert data + [] == data;
    } else {
      var chunks, rest, q, z := HeldStay(text, c, data, open, line, "\r", v);
      var c1 := Stay(c, line, v);
      CutHeld(text + (line + "\r"), chunks, rest, q, z, c1.mode, Para(d, c1.bad), open, v);
      assert (text + (line + "\r")) + "\n" == all;
    }
  }

  lemma CutHanded(text: string, mode: Mode, data: seq<string>, bad: bool, line: string, v: View)
    requires HandedOver(text, mode, data, bad, v)
    requires Arrives(text, line, "\r\n") && line != "" && !IsData(line)
    ensures HandedOver(text + (line + "\r\n"), Empty, data, bad, v)
  {
    hide HandedBy, IsData;
    var chunks :| HandedBy(text, chunks, mode, data, bad, v);
    HandedCut(text, chunks, mode, data, bad, line, v);
    assert HandedBy(text + (line + "\r\n"), chunks + [line + "\r", "\n"], Empty, data, bad, v);
  }

  lemma SuccReal(
      text: string, c: Config, data: seq<string>, open: bool, line: string, end: string, c': Config, v: View)
    requires Real(text, c, data, open, v) && Fit(c, data != []) && Arrives(text, line, end) && line != ""
    requires c.handed.Some? || c.mode == Early ==> !IsData(line)
    requires c' in Succ(c, Row(line, end == "\r\n"), data != [], v)
    ensures Real(text + (line + end), c', data + DataOf(line, v.trim), open, v)
  {
    hide Real, IsData, DataOf, Named;
    StayReal(text, c, data, open, line, end, v);
    if c.mode == Empty && IsData(line) {
      HandedReal(text, c, data, open, line, end, v);
    } else if end == "\r\n" {
      CutReal(text, c, data, open, line, v);
    }
  }
}
