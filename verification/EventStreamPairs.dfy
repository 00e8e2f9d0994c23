/** Message boundaries of texts with CR LF pairs, where a chunk that ends inside a pair
    reads one line end as two and so can end a paragraph early. */
module EventStreamPairs {
  import opened Text
  import opened EventStream
  import opened EventStreamTheorems
  import opened EventStreamBoundaries

  // ------------------------------------------------- one data line in each paragraph

  predicate IsData(line: string) {
    StartsWith(line, "data:")
  }

  predicate BlankBetween(lines: seq<string>, i: int, j: int)
    requires 0 <= i < j < |lines|
  {
    exists k | i < k < j :: lines[k] == ""
  }

  /** Between any two data lines there is a blank line. */
  predicate OneData(lines: seq<string>) {
    forall i, j | 0 <= i < j < |lines| && IsData(lines[i]) && IsData(lines[j]) :: BlankBetween(lines, i, j)
  }

  /** No line names the error event. */
  predicate NoErrorEvent(lines: seq<string>) {
    forall i | 0 <= i < |lines| :: !NamesError(EventName([lines[i]]))
  }

  predicate Fits(lines: seq<string>, quiet: bool) {
    OneData(lines) && (quiet ==> NoErrorEvent(lines))
  }

  lemma OneDataParts(a: seq<string>, b: seq<string>)
    requires OneData(a + b)
    ensures OneData(a) && OneData(b)
  {
    var s := a + b;
    forall i, j | 0 <= i < j < |a| && IsData(a[i]) && IsData(a[j]) ensures BlankBetween(a, i, j) {
      assert IsData(s[i]) && IsData(s[j]) && BlankBetween(s, i, j);
      var k :| i < k < j && s[k] == "";
      assert a[k] == "";
    }
    forall i, j | 0 <= i < j < |b| && IsData(b[i]) && IsData(b[j]) ensures BlankBetween(b, i, j) {
      assert IsData(s[|a| + i]) && IsData(s[|a| + j]) && BlankBetween(s, |a| + i, |a| + j);
      var k :| |a| + i < k < |a| + j && s[k] == "";
      assert b[k - |a|] == "";
    }
  }

  lemma OneDataAround(a: seq<string>, b: seq<string>)
    requires OneData(a) && OneData(b)
    ensures OneData(a + [""] + b)
  {
    var s, m := a + [""] + b, |a| + 1;
    assert s[|a|] == "";
    forall i, j | 0 <= i < j < |s| && IsData(s[i]) && IsData(s[j]) ensures BlankBetween(s, i, j) {
      if j < |a| {
        assert BlankBetween(a, i, j);
        var k :| i < k < j && a[k] == "";
        assert s[k] == "";
      } else if i >= m {
        assert IsData(b[i - m]) && IsData(b[j - m]) && BlankBetween(b, i - m, j - m);
        var k :| i - m < k < j - m && b[k] == "";
        assert s[k + m] == "";
      }
    }
  }

  lemma FitsParts(a: seq<string>, b: seq<string>, quiet: bool)
    requires Fits(a + b, quiet)
    ensures Fits(a, quiet) && Fits(b, quiet)
  {
    OneDataParts(a, b);
    assert forall i | 0 <= i < |a| :: (a + b)[i] == a[i];
    assert forall i | 0 <= i < |b| :: (a + b)[|a| + i] == b[i];
  }

  lemma BlankNamesNothing()
    ensures !NamesError(EventName([""]))
  {
    assert ButLast([""]) == [];
    assert EventName(ButLast([""])) == None;
  }

  lemma FitsAround(a: seq<string>, b: seq<string>, quiet: bool)
    requires Fits(a, quiet) && Fits(b, quiet)
    ensures Fits(a + [""] + b, quiet)
  {
    hide OneData, EventName, NamesError;
    OneDataAround(a, b);
    BlankNamesNothing();
  }

  lemma FitsSeparated(a: seq<string>, b: seq<string>, quiet: bool)
    requires Fits(a + [""] + b, quiet)
    ensures Fits(a, quiet) && Fits(b, quiet)
  {
    hide Fits;
    FitsParts(a + [""], b, quiet);
    FitsParts(a, [""], quiet);
  }

  lemma LinesSeparated(head: string, rest: string)
    ensures Lines(head + "\n\n" + rest) == Lines(head) + [""] + Lines(rest)
  {
    hide Lines;
    assert head + "\n\n" + rest == head + "\n" + ("" + "\n" + rest);
    LinesCut(head, "" + "\n" + rest);
    LinesCut("", rest);
    LinesOfOne("");
    AppendAssociates(Lines(head), [""], Lines(rest));
  }

  // ------------------------------------------------------------------- paragraphs

  lemma DataOfCount(line: string, trimPrefix: bool)
    ensures |DataOf(line, trimPrefix)| == if IsData(line) then 1 else 0
  {
    assert IsData(line) ==> line[4] == ':';
    assert StartsWith(NormalizeLine(line), "data:") <==> IsData(line);
  }

  /** The data contents of some lines are at most one exactly if no two of them are data. */
  lemma {:induction false} DataCount(lines: seq<string>, trimPrefix: bool)
    ensures DataParts(lines, trimPrefix) == [] <==> forall i | 0 <= i < |lines| :: !IsData(lines[i])
    ensures |DataParts(lines, trimPrefix)| <= 1
       <==> forall i, j | 0 <= i < j < |lines| :: !(IsData(lines[i]) && IsData(lines[j]))
  {
    if lines != [] {
      hide DataOf, IsData;
      DataOfCount(lines[0], trimPrefix);
      DataCount(lines[1..], trimPrefix);
      assert forall i | 0 < i < |lines| :: lines[1..][i - 1] == lines[i];
      assert forall i | 0 <= i < |lines| - 1 :: lines[i + 1] == lines[1..][i];
    }
  }

  lemma FirstLineStarts(text: string)
    requires text != "" && text[0] != '\n'
    ensures Lines(text)[0] != ""
  {
  }

  /** A paragraph has no blank line inside. */
  lemma {:induction false} InnerNotBlank(text: string)
    requires IndexOf(text, SEPARATOR) == -1
    ensures forall k | 0 < k < |Lines(text)| - 1 :: Lines(text)[k] != ""
    decreases |text|
  {
    if '\n' !in text {
      LinesOfOne(text);
    } else {
      hide Lines, IndexOf;
      var line, others := CutFirstLine(text);
      LinesOfOne(line);
      LinesCut(line, others);
      assert others == "" || others[0] != '\n' by {
        IndexOfFirst(text, SEPARATOR);
        OccursAtChars(text, |line|);
      }
      IndexOfAfterLine(line, others);
      InnerNotBlank(others);
      if others == "" {
        LinesOfOne("");
      } else {
        FirstLineStarts(others);
      }
    }
  }

  lemma HeadIsParagraph(text: string, head: string, rest: string)
    requires FirstParagraph(text, head, rest)
    ensures IndexOf(head, SEPARATOR) == -1
  {
    var j := IndexOf(head, SEPARATOR);
    IndexOfFirst(head, SEPARATOR);
    IndexOfFirst(text, SEPARATOR);
    OccursAtChars(head, j);
    OccursAtChars(text, j);
  }

  /** Within a paragraph, one data line means one data content. */
  lemma ParagraphOneData(text: string, trimPrefix: bool)
    requires IndexOf(text, SEPARATOR) == -1
    ensures OneData(Lines(text)) <==> |Data(text, trimPrefix)| <= 1
  {
    hide Lines, IndexOf, IsData, DataParts;
    InnerNotBlank(text);
    DataCount(Lines(text), trimPrefix);
  }

  predicate Good(blocks: seq<EventBlock>, quiet: bool) {
    forall i | 0 <= i < |blocks| :: |blocks[i].parts| == 1 && (quiet ==> !blocks[i].errorNamed)
  }

  lemma GoodAppend(a: seq<EventBlock>, b: seq<EventBlock>, quiet: bool)
    ensures Good(a + b, quiet) <==> Good(a, quiet) && Good(b, quiet)
  {
    assert forall i | 0 <= i < |a| :: (a + b)[i] == a[i];
    assert forall i | 0 <= i < |b| :: (a + b)[|a| + i] == b[i];
  }

  lemma {:induction false} QuietLines(lines: seq<string>)
    requires NoErrorEvent(lines)
    ensures !NamesError(EventName(lines))
  {
    if lines != [] {
      hide NamesError;
      QuietLines(ButLast(lines));
      assert !NamesError(EventName([lines[|lines| - 1]]));
      assert ButLast([Last(lines)]) == [];
      assert EventName(ButLast([Last(lines)])) == None;
    } else {
      assert EventName(lines) == None;
    }
  }

  lemma GoodParagraph(text: string, trimPrefix: bool, quiet: bool)
    requires IndexOf(text, SEPARATOR) == -1 && Fits(Lines(text), quiet)
    ensures Good(BlockEvents(text, trimPrefix), quiet)
  {
    hide Lines, IndexOf, DataParts, EventName, NamesError, OneData, NoErrorEvent;
    ParagraphOneData(text, trimPrefix);
    if quiet {
      QuietLines(Lines(text));
    }
  }

  lemma {:induction false} GoodComplete(text: string, x: string, trimPrefix: bool, quiet: bool)
    requires Fits(Lines(text + x), quiet)
    ensures Good(CompleteBlocks(text, trimPrefix), quiet)
    ensures Fits(Lines(Remainder(text) + x), quiet)
    decreases |text|
  {
    hide Lines, Fits, BlockEvents, Good;
    if IndexOf(text, SEPARATOR) == -1 {
      SingleParagraph(text, trimPrefix);
      GoodNone(quiet);
    } else {
      var head, rest := CutFirstParagraph(text);
      assert text + x == head + "\n\n" + (rest + x);
      LinesSeparated(head, rest + x);
      FitsSeparated(Lines(head), Lines(rest + x), quiet);
      HeadIsParagraph(text, head, rest);
      GoodParagraph(head, trimPrefix, quiet);
      GoodComplete(rest, x, trimPrefix, quiet);
      Unfold(text, head, rest, trimPrefix);
      GoodAppend(BlockEvents(head, trimPrefix), CompleteBlocks(rest, trimPrefix), quiet);
    }
  }

  lemma GoodNone(quiet: bool)
    ensures Good([], quiet)
  {
  }

  lemma {:induction false} RemainderOpen(text: string)
    ensures IndexOf(Remainder(text), SEPARATOR) == -1
    decreases |text|
  {
    if IndexOf(text, SEPARATOR) != -1 {
      RemainderOpen(text[IndexOf(text, SEPARATOR) + 2..]);
    }
  }

  lemma GoodEarly(open: string, x: string, trimPrefix: bool, quiet: bool)
    requires Fits(Lines(open + x), quiet)
    ensures Good(EarlyBlocks(open, trimPrefix), quiet)
    ensures Fits(Lines(EarlyRest(open) + x), quiet)
  {
    hide Lines, Fits;
    if EarlyLine(open).Some? {
      var j := EarlyLine(open).value;
      EarlyLineIs(open);
      assert open + x == open[..j] + "\n" + (open[j + 1..] + x);
      LinesCut(open[..j], open[j + 1..] + x);
      FitsParts(Lines(open[..j]), Lines(open[j + 1..] + x), quiet);
      DataOfDataLine(open[..j], trimPrefix);
    }
  }

  lemma GoodFlush(text: string, x: string, trimPrefix: bool, quiet: bool)
    requires Fits(Lines(text + x), quiet)
    ensures Good(FlushOpen(text, trimPrefix).0, quiet)
    ensures Fits(Lines(FlushOpen(text, trimPrefix).1 + x), quiet)
  {
    hide Lines, Fits, Good;
    GoodComplete(text, x, trimPrefix, quiet);
    GoodEarly(Remainder(text), x, trimPrefix, quiet);
    GoodAppend(CompleteBlocks(text, trimPrefix), EarlyBlocks(Remainder(text), trimPrefix), quiet);
  }

  lemma GoodDone(text: string, trimPrefix: bool, quiet: bool)
    requires Fits(Lines(text), quiet)
    ensures Good(FlushDone(text, trimPrefix), quiet)
  {
    hide Lines, Fits, Good, IndexOf;
    assert text + "" == text && Remainder(text) + "" == Remainder(text);
    GoodComplete(text, "", trimPrefix, quiet);
    RemainderOpen(text);
    GoodParagraph(Remainder(text), trimPrefix, quiet);
    GoodAppend(CompleteBlocks(text, trimPrefix), BlockEvents(Remainder(text), trimPrefix), quiet);
  }

  lemma {:induction false} GoodRun(buffer: string, chunks: seq<string>, tail: string, trimPrefix: bool, quiet: bool)
    requires '\r' !in buffer && '\r' !in Flatten(chunks) && '\r' !in tail
    requires Fits(Lines(buffer + (Flatten(chunks) + tail)), quiet)
    ensures Good(ParseEvents(buffer, chunks, tail, trimPrefix), quiet)
    decreases |chunks|
  {
    hide Normalize, FlushOpen, FlushDone, Lines, Fits, Good;
    if chunks == [] {
      NormalizeClean(buffer + tail);
      assert Flatten(chunks) + tail == tail;
      GoodDone(buffer + tail, trimPrefix, quiet);
    } else {
      var text, future := buffer + chunks[0], Flatten(chunks[1..]) + tail;
      assert '\r' !in chunks[0] && '\r' !in Flatten(chunks[1..]);
      NormalizeClean(text);
      FlushOpenClean(text, trimPrefix);
      AppendAssociates(chunks[0], Flatten(chunks[1..]), tail);
      AppendAssociates(buffer, chunks[0], future);
      GoodFlush(text, future, trimPrefix, quiet);
      var (blocks, rest) := FlushOpen(text, trimPrefix);
      GoodRun(rest, chunks[1..], tail, trimPrefix, quiet);
      GoodAppend(blocks, ParseEvents(rest, chunks[1..], tail, trimPrefix), quiet);
    }
  }

  // ------------------------------------------------------- any text, any chunking

  /** Cuts inside pairs only put blank lines in. */
  lemma {:induction false} ArrivedFits(before: string, chunks: seq<string>, tail: string, quiet: bool)
    requires Fits(Lines(before + Normalize(Flatten(chunks) + tail)), quiet)
    ensures Fits(Lines(before + Arrived(chunks, tail)), quiet)
    decreases |chunks|
  {
    hide Normalize, Lines, Fits;
    if chunks == [] {
      assert Flatten(chunks) + tail == tail;
      assert Arrived(chunks, tail) == Normalize(tail);
    } else {
      var a, future := chunks[0], Flatten(chunks[1..]) + tail;
      AppendAssociates(a, Flatten(chunks[1..]), tail);
      CutFits(before, a, future, quiet);
      ArrivedFits(before + Normalize(a), chunks[1..], tail, quiet);
      ArrivedCons(a, chunks[1..], tail);
      assert chunks == [a] + chunks[1..];
      AppendAssociates(before, Normalize(a), Arrived(chunks[1..], tail));
    }
  }

  lemma CutFits(before: string, a: string, b: string, quiet: bool)
    requires Fits(Lines(before + Normalize(a + b)), quiet)
    ensures Fits(Lines(before + Normalize(a) + Normalize(b)), quiet)
  {
    hide Normalize, Lines, Fits;
    if SplitsPair(a, b) {
      var u, v := ButLast(a), b[1..];
      assert a == u + "\r" && b == "\n" + v;
      NormalizeSplit(u, v);
      var first, rest := before + Normalize(u), Normalize(v);
      assert before + (Normalize(u) + ("\n" + rest)) == first + "\n" + rest;
      LinesCut(first, rest);
      FitsParts(Lines(first), Lines(rest), quiet);
      FitsAround(Lines(first), Lines(rest), quiet);
      LinesSeparated(first, rest);
      assert before + (Normalize(u) + "\n") + ("\n" + rest) == first + "\n\n" + rest;
    } else {
      NormalizeAppend(a, b);
      AppendAssociates(before, Normalize(a), Normalize(b));
    }
  }

  function Singletons(data: seq<string>): seq<seq<string>> {
    seq(|data|, i requires 0 <= i < |data| => [data[i]])
  }

  function DataBlocks(data: seq<string>): seq<EventBlock> {
    seq(|data|, i requires 0 <= i < |data| => EventBlock([data[i]], false))
  }

  lemma {:induction false} GoodIs(blocks: seq<EventBlock>, quiet: bool)
    requires Good(blocks, quiet)
    ensures PartsOf(blocks) == Singletons(Flatten(PartsOf(blocks)))
    ensures quiet ==> blocks == DataBlocks(Flatten(PartsOf(blocks)))
  {
    if blocks != [] {
      var first, rest := blocks[0], blocks[1..];
      assert Good(rest, quiet);
      GoodIs(rest, quiet);
      hide Singletons, DataBlocks;
      var data := Flatten(PartsOf(rest));
      assert PartsOf(blocks) == [first.parts] + PartsOf(rest);
      FlattenCons(first.parts, PartsOf(rest));
      assert first.parts == [first.parts[0]];
      SingletonsCons(first.parts[0], data);
      assert blocks == [first] + rest;
    } else {
      NoParts();
    }
  }

  lemma SingletonsCons(first: string, data: seq<string>)
    ensures Singletons([first] + data) == [[first]] + Singletons(data)
    ensures DataBlocks([first] + data) == [EventBlock([first], false)] + DataBlocks(data)
  {
  }

  lemma GoodArrival(chunks: seq<string>, tail: string, trimPrefix: bool, quiet: bool)
    requires Fits(Lines(Arrived(chunks, tail)), quiet)
    ensures Good(ParseEvents("", chunks, tail, trimPrefix), quiet)
  {
    hide Normalize, Lines, Fits, ParseEvents, Good;
    ReadNormalized("", chunks, tail, trimPrefix);
    ArrivedClean(chunks, tail);
    assert "" + Arrived(chunks, tail) == Arrived(chunks, tail);
    GoodRun("", NormalizeEach(chunks), Normalize(tail), trimPrefix, quiet);
  }

  /** For every text, with whatever line ends, and every chunking: if there is a blank line
      between any two data lines, each data line is a message of its own; if also no line
      names the error event, the blocks are settled altogether. */
  lemma OneDataBoundaries(chunks: seq<string>, tail: string, trimPrefix: bool)
    requires OneData(Lines(Normalize(Flatten(chunks) + tail)))
    ensures var text := Normalize(Flatten(chunks) + tail);
            var blocks := ParseEvents("", chunks, tail, trimPrefix);
            && PartsOf(blocks) == Singletons(Data(text, trimPrefix))
            && (NoErrorEvent(Lines(text)) ==> blocks == DataBlocks(Data(text, trimPrefix)))
  {
    hide Normalize, Lines, ParseEvents, OneData, NoErrorEvent, Good;
    var text, quiet := Normalize(Flatten(chunks) + tail), NoErrorEvent(Lines(Normalize(Flatten(chunks) + tail)));
    assert "" + text == text && "" + Arrived(chunks, tail) == Arrived(chunks, tail);
    ArrivedFits("", chunks, tail, quiet);
    GoodArrival(chunks, tail, trimPrefix, quiet);
    GoodIs(ParseEvents("", chunks, tail, trimPrefix), quiet);
    EventDataConserved(chunks, tail, trimPrefix);
  }

  // ------------------------------------------------------------- one cut is enough

  /** Two data lines behind another line, with CR LF line ends, make one message if they
      arrive as one chunk and two if the text is cut between CR and LF after the first of
      them. */
  lemma SplitPairMovesBoundary(first: string, a: string, b: string, trimPrefix: bool)
    requires OneLine(first) && OneLine(a) && OneLine(b) && first != ""
    requires !IsData(first) && IsData(a) && IsData(b)
    ensures var head, rest := first + ("\r\n" + (a + "\r")), "\n" + b;
            && PartsOf(ParseEvents("", [head, rest], "", trimPrefix)) == [Data(a, trimPrefix), Data(b, trimPrefix)]
            && PartsOf(ParseEvents("", [head + rest], "", trimPrefix)) == [Data(a, trimPrefix) + Data(b, trimPrefix)]
  {
    hide Normalize, ParseEvents, Data, Lines, OneLine, IsData;
    var head, rest := first + ("\r\n" + (a + "\r")), "\n" + b;
    LineFacts(first, a, b, trimPrefix);
    PairsNormalized(first, a, b);
    FlattenPair(head, rest);
    assert a != "" by { assert |Data(a, trimPrefix)| == 1; EmptyData(trimPrefix); }
    OneMessage(head + rest, first, a, b, trimPrefix);
    PairArrived(head, rest);
    assert (first + "\n" + a + "\n") + ("\n" + b) == (first + "\n" + a) + "\n\n" + b;
    LinesCut(first, a);
    LinesSeparated(first + "\n" + a, b);
    assert Lines(Arrived([head, rest], "")) == [first, a] + [""] + [b];
    OneDataAround([first, a], [b]) by { OneDataHere(first, a, b); }
    GoodArrival([head, rest], "", trimPrefix, false);
    GoodIs(ParseEvents("", [head, rest], "", trimPrefix), false);
    EventDataConserved([head, rest], "", trimPrefix);
    assert (head + rest) + "" == head + rest;
    DataCut(first, a + "\n" + b, trimPrefix);
    DataCut(a, b, trimPrefix);
    TwoSingletons(Data(a, trimPrefix), Data(b, trimPrefix));
    assert [] + (Data(a, trimPrefix) + Data(b, trimPrefix)) == Data(a, trimPrefix) + Data(b, trimPrefix);
  }

  lemma PairArrived(a: string, b: string)
    ensures Arrived([a, b], "") == Normalize(a) + Normalize(b)
  {
    hide Normalize;
    ArrivedCons(a, [b], "");
    ArrivedCons(b, [], "");
    NormalizeClean("");
    assert [a] + [b] == [a, b] && [b] + [] == [b];
    assert Arrived([], "") == "";
    assert Normalize(b) + "" == Normalize(b);
  }

  lemma OneDataHere(first: string, a: string, b: string)
    requires !IsData(first)
    ensures OneData([first, a]) && OneData([b])
  {
  }

  lemma CarriageReturned(line: string)
    requires '\r' !in line
    ensures Normalize(line + "\r") == line + "\n"
  {
    hide Normalize;
    NormalizeSplit(line, "");
    NormalizeClean(line);
  }

  lemma PairNormalized(u: string, v: string)
    requires '\r' !in u
    ensures Normalize(u + ("\r\n" + v)) == u + "\n" + Normalize(v)
  {
    NormalizeSplit(u, v);
    NormalizeClean(u);
    assert (u + "\r") + ("\n" + v) == u + ("\r\n" + v);
  }

  lemma TwoSingletons(a: seq<string>, b: seq<string>)
    requires |a| == |b| == 1
    ensures Singletons(a + b) == [a, b]
  {
    assert a == [a[0]] && b == [b[0]];
  }

  lemma LineFacts(first: string, a: string, b: string, trimPrefix: bool)
    requires OneLine(first) && OneLine(a) && OneLine(b)
    requires !IsData(first) && IsData(a) && IsData(b)
    ensures Lines(first) == [first] && Lines(a) == [a] && Lines(b) == [b]
    ensures Data(first, trimPrefix) == [] && |Data(a, trimPrefix)| == |Data(b, trimPrefix)| == 1
  {
    LinesOfOne(first);
    LinesOfOne(a);
    LinesOfOne(b);
    DataOfDataLine(a, trimPrefix);
    DataOfDataLine(b, trimPrefix);
    DataCount([first], trimPrefix);
  }

  lemma PairsNormalized(first: string, a: string, b: string)
    requires OneLine(first) && OneLine(a) && OneLine(b)
    ensures var head := first + ("\r\n" + (a + "\r"));
            && Normalize(head) == first + "\n" + a + "\n"
            && Normalize("\n" + b) == "\n" + b
            && Normalize(head + ("\n" + b)) == first + "\n" + (a + "\n" + b)
  {
    hide Normalize;
    PairNormalized(first, a + "\r");
    CarriageReturned(a);
    NormalizeClean("\n" + b);
    NormalizeClean(b);
    PairNormalized(a, b);
    PairNormalized(first, a + ("\r\n" + b));
    assert first + ("\r\n" + (a + "\r")) + ("\n" + b) == first + ("\r\n" + (a + ("\r\n" + b)));
  }

  lemma OneMessage(text: string, first: string, a: string, b: string, trimPrefix: bool)
    requires OneLine(first) && OneLine(a) && OneLine(b) && first != "" && a != "" && !IsData(first)
    requires Normalize(text) == first + "\n" + (a + "\n" + b)
    requires Data(first, trimPrefix) == [] && |Data(a, trimPrefix)| == 1
    ensures PartsOf(ParseEvents("", [text], "", trimPrefix)) == [Data(a, trimPrefix) + Data(b, trimPrefix)]
  {
    hide Data, IndexOf, Normalize, BlockEvents, IsData, ParseEvents;
    var lines := first + "\n" + (a + "\n" + b);
    OneChunk(text, trimPrefix);
    assert IndexOf(lines, SEPARATOR) == -1 by {
      IndexOfFirst(lines, SEPARATOR);
      OccursAtChars(lines, IndexOf(lines, SEPARATOR));
    }
    SingleParagraph(lines, trimPrefix);
    NotEarlyLine(first, a + "\n" + b);
    assert FlushOpen(lines, trimPrefix) == ([], lines);
    assert [] + BlockEvents(lines, trimPrefix) == BlockEvents(lines, trimPrefix);
    DataCut(first, a + "\n" + b, trimPrefix);
    DataCut(a, b, trimPrefix);
    assert [] + (Data(a, trimPrefix) + Data(b, trimPrefix)) == Data(a, trimPrefix) + Data(b, trimPrefix);
    assert Data(lines, trimPrefix) == Data(a, trimPrefix) + Data(b, trimPrefix);
    OneBlock(lines, trimPrefix);
  }

  lemma NotEarlyLine(line: string, rest: string)
    requires OneLine(line) && !IsData(line)
    ensures EarlyLine(line + "\n" + rest).None?
  {
    FirstLineFeed(line, rest);
    assert (line + "\n" + rest)[..|line|] == line;
  }

  lemma OneBlock(text: string, trimPrefix: bool)
    requires Data(text, trimPrefix) != []
    ensures PartsOf(BlockEvents(text, trimPrefix)) == [Data(text, trimPrefix)]
  {
  }
}
