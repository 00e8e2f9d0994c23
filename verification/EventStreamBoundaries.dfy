/** When the boundaries between messages, not just their characters, are independent of
    the chunking: a condition on each paragraph, for texts without CR LF pairs. It suffices
    for all of them and is exact where a blank line ends the last paragraph. EventStreamExact
    has the exact condition for all texts. */
module EventStreamBoundaries {
  import opened Text
  import opened EventStream
  import opened EventStreamTheorems

  // ------------------------------------------------------- paragraphs of a text

  predicate OpensWithData(paragraph: string) {
    StartsWith(Lines(paragraph)[0], "data:")
  }

  predicate LoneDataLine(paragraph: string) {
    OpensWithData(paragraph) && '\n' !in paragraph
  }

  /** Delivering the first line of the paragraph before the rest has arrived is
      harmless: the rest has no data to join and does not rename the event. */
  predicate EarlySafe(paragraph: string, trimPrefix: bool) {
    OpensWithData(paragraph) ==>
      && DataParts(Lines(paragraph)[1..], trimPrefix) == []
      && !NamesError(EventName(Lines(paragraph)))
  }

  /** Every paragraph is safe. Delivering a lone data line early uses up the first line
      feed of the separator behind it, so what follows must also be safe with the
      other one left in front. */
  predicate AllEarlySafe(text: string, trimPrefix: bool)
    decreases |text|
  {
    var i := IndexOf(text, SEPARATOR);
    if i == -1 then EarlySafe(text, trimPrefix)
    else
      && EarlySafe(text[..i], trimPrefix)
      && AllEarlySafe(text[i + 2..], trimPrefix)
      && (LoneDataLine(text[..i]) ==> AllEarlySafe("\n" + text[i + 2..], trimPrefix))
  }

  /** A text begins with the paragraph `head`, complete, and goes on with `rest`. */
  predicate FirstParagraph(text: string, head: string, rest: string) {
    text == head + SEPARATOR + rest && IndexOf(text, SEPARATOR) == |head|
  }

  lemma Unfold(text: string, head: string, rest: string, trimPrefix: bool)
    requires FirstParagraph(text, head, rest)
    ensures CompleteBlocks(text, trimPrefix) == BlockEvents(head, trimPrefix) + CompleteBlocks(rest, trimPrefix)
    ensures Remainder(text) == Remainder(rest)
  {
    assert text[..|head|] == head && text[|head| + 2..] == rest;
  }

  lemma UnfoldDone(text: string, head: string, rest: string, trimPrefix: bool)
    requires FirstParagraph(text, head, rest)
    ensures FlushDone(text, trimPrefix) == BlockEvents(head, trimPrefix) + FlushDone(rest, trimPrefix)
  {
    Unfold(text, head, rest, trimPrefix);
    AppendAssociates(BlockEvents(head, trimPrefix), CompleteBlocks(rest, trimPrefix),
      BlockEvents(Remainder(rest), trimPrefix));
  }

  lemma UnfoldSafe(text: string, head: string, rest: string, trimPrefix: bool)
    requires FirstParagraph(text, head, rest)
    ensures AllEarlySafe(text, trimPrefix) <==>
      && EarlySafe(head, trimPrefix)
      && AllEarlySafe(rest, trimPrefix)
      && (LoneDataLine(head) ==> AllEarlySafe("\n" + rest, trimPrefix))
  {
    assert text[..|head|] == head && text[|head| + 2..] == rest;
  }

  lemma SingleParagraph(text: string, trimPrefix: bool)
    requires IndexOf(text, SEPARATOR) == -1
    ensures CompleteBlocks(text, trimPrefix) == [] && Remainder(text) == text
    ensures FlushDone(text, trimPrefix) == BlockEvents(text, trimPrefix)
    ensures AllEarlySafe(text, trimPrefix) <==> EarlySafe(text, trimPrefix)
  {
  }

  lemma CutFirstParagraph(text: string) returns (head: string, rest: string)
    requires IndexOf(text, SEPARATOR) != -1
    ensures FirstParagraph(text, head, rest)
    ensures |rest| + 2 <= |text|
  {
    var i := IndexOf(text, SEPARATOR);
    head, rest := text[..i], text[i + 2..];
    IndexOfFirst(text, SEPARATOR);
    SplitAtOccurrence(text, SEPARATOR, i);
  }

  /** A separator already received stays the first one. */
  lemma FirstParagraphExtends(a: string, head: string, rest: string, b: string)
    requires FirstParagraph(a, head, rest)
    ensures FirstParagraph(a + b, head, rest + b)
  {
    var i, k := |head|, IndexOf(a + b, SEPARATOR);
    IndexOfFirst(a, SEPARATOR);
    IndexOfFirst(a + b, SEPARATOR);
    OccursAtChars(a, i);
    OccursAtChars(a + b, i);
    OccursAtChars(a + b, k);
    OccursAtChars(a, k);
    assert (head + SEPARATOR + rest) + b == head + SEPARATOR + (rest + b);
  }

  lemma OccursAtChars(s: string, k: int)
    ensures OccursAt(s, SEPARATOR, k) <==> 0 <= k < |s| - 1 && s[k] == '\n' && s[k + 1] == '\n'
  {
    if 0 <= k < |s| - 1 {
      assert s[k..k + 2] == [s[k], s[k + 1]];
    }
  }

  lemma OccursAfterLine(line: string, rest: string, k: int)
    requires '\n' !in line
    requires rest == "" || rest[0] != '\n'
    ensures OccursAt(line + "\n" + rest, SEPARATOR, k) <==> OccursAt(rest, SEPARATOR, k - |line| - 1)
  {
    OccursAtChars(line + "\n" + rest, k);
    OccursAtChars(rest, k - |line| - 1);
  }

  /** Where the first separator is, behind a line that does not run into it. */
  lemma IndexOfAfterLine(line: string, rest: string)
    requires '\n' !in line
    requires rest == "" || rest[0] != '\n'
    ensures var i := IndexOf(rest, SEPARATOR);
            IndexOf(line + "\n" + rest, SEPARATOR) == if i == -1 then -1 else |line| + 1 + i
  {
    var i, k := IndexOf(rest, SEPARATOR), IndexOf(line + "\n" + rest, SEPARATOR);
    IndexOfFirst(rest, SEPARATOR);
    IndexOfFirst(line + "\n" + rest, SEPARATOR);
    OccursAfterLine(line, rest, k);
    OccursAfterLine(line, rest, |line| + 1 + i);
  }

  lemma SeparatorAfterLine(line: string, rest: string)
    requires '\n' !in line
    ensures FirstParagraph(line + SEPARATOR + rest, line, rest)
  {
    var s := line + SEPARATOR + rest;
    IndexOfFirst(s, SEPARATOR);
    OccursAtChars(s, |line|);
    OccursAtChars(s, IndexOf(s, SEPARATOR));
  }

  lemma FirstParagraphAfterLine(line: string, y: string, head: string, rest: string)
    requires '\n' !in line && (y == "" || y[0] != '\n')
    requires FirstParagraph(y, head, rest)
    ensures FirstParagraph(line + "\n" + y, line + "\n" + head, rest)
  {
    IndexOfAfterLine(line, y);
    assert line + "\n" + (head + SEPARATOR + rest) == (line + "\n" + head) + SEPARATOR + rest;
  }

  // ------------------------------------------------------------ a blank line first

  lemma {:induction false} EventNameSkips(line: string, lines: seq<string>)
    requires !StartsWith(NormalizeLine(line), "event:")
    ensures EventName([line] + lines) == EventName(lines)
  {
    if lines == [] {
      assert ButLast([line] + lines) == [];
      assert EventName(ButLast([line] + lines)) == None;
    } else {
      assert ButLast([line] + lines) == [line] + ButLast(lines);
      EventNameSkips(line, ButLast(lines));
    }
  }

  lemma BlankLineFirst(text: string, trimPrefix: bool)
    ensures BlockEvents("\n" + text, trimPrefix) == BlockEvents(text, trimPrefix)
  {
    LinesCut("", text);
    assert "" + "\n" + text == "\n" + text;
    assert Lines("\n" + text) == [""] + Lines(text);
    EventNameSkips("", Lines(text));
    assert ([""] + Lines(text))[1..] == Lines(text);
    assert DataParts([""] + Lines(text), trimPrefix) == DataParts(Lines(text), trimPrefix);
  }

  /** An extra line feed in front of a text does not change what it holds as a whole. */
  lemma {:induction false} LeadingBlank(rest: string, trimPrefix: bool)
    ensures FlushDone("\n" + rest, trimPrefix) == FlushDone(rest, trimPrefix)
    decreases |rest|
  {
    if rest != "" && rest[0] == '\n' {
      LeadingBlank(rest[1..], trimPrefix);
      assert rest == "\n" + rest[1..];
      SecondBlank(rest[1..], trimPrefix);
    } else {
      OneBlank(rest, trimPrefix);
    }
  }

  lemma EmptyText(trimPrefix: bool)
    ensures BlockEvents("", trimPrefix) == []
  {
    assert Lines("") == [""];
    assert [""][1..] == [];
    assert DataParts([""], trimPrefix) == [];
  }

  lemma SecondBlank(rest: string, trimPrefix: bool)
    ensures FlushDone("\n" + ("\n" + rest), trimPrefix) == FlushDone(rest, trimPrefix)
  {
    hide IndexOf, Lines, DataParts, CompleteBlocks, Remainder, FlushDone, BlockEvents;
    SeparatorAfterLine("", rest);
    UnfoldDone("" + SEPARATOR + rest, "", rest, trimPrefix);
    EmptyText(trimPrefix);
    assert "" + SEPARATOR + rest == "\n" + ("\n" + rest);
  }

  lemma OneBlank(rest: string, trimPrefix: bool)
    requires rest == "" || rest[0] != '\n'
    ensures FlushDone("\n" + rest, trimPrefix) == FlushDone(rest, trimPrefix)
  {
    assert "\n" + rest == "" + "\n" + rest;
    IndexOfAfterLine("", rest);
    if IndexOf(rest, SEPARATOR) == -1 {
      SingleParagraph(rest, trimPrefix);
      SingleParagraph("\n" + rest, trimPrefix);
      BlankLineFirst(rest, trimPrefix);
    } else {
      var head, after := CutFirstParagraph(rest);
      FirstParagraphAfterLine("", rest, head, after);
      UnfoldDone(rest, head, after, trimPrefix);
      assert "\n" + head == "" + "\n" + head;
      UnfoldDone("\n" + rest, "\n" + head, after, trimPrefix);
      BlankLineFirst(head, trimPrefix);
    }
  }

  // ----------------------------------------------------- delivering the first line

  lemma DataOfDataLine(line: string, trimPrefix: bool)
    requires '\n' !in line && StartsWith(line, "data:")
    ensures Lines(line) == [line]
    ensures StartsWith(NormalizeLine(line), "data:")
    ensures |Data(line, trimPrefix)| == 1
    ensures EventName(Lines(line)) == None
    ensures BlockEvents(line, trimPrefix) == [EventBlock(Data(line, trimPrefix), false)]
  {
    LinesOfOne(line);
    assert StartsWith(NormalizeLine(line), "data:") by { assert line[4] == ':'; }
    assert [line][1..] == [] && ButLast([line]) == [];
    assert DataParts([line][1..], trimPrefix) == [];
  }

  /** A paragraph whose first line carries data: that line, and the others. */
  lemma FirstLineOf(line: string, others: string, trimPrefix: bool)
    requires '\n' !in line && StartsWith(line, "data:")
    ensures var p := line + "\n" + others;
            && OpensWithData(p)
            && Data(p, trimPrefix) == Data(line, trimPrefix) + Data(others, trimPrefix)
            && EventName(Lines(p)) == EventName(Lines(others))
            && (EarlySafe(p, trimPrefix) <==> Data(others, trimPrefix) == [] && !NamesError(EventName(Lines(others))))
  {
    hide Lines, DataParts;
    DataOfDataLine(line, trimPrefix);
    LinesCut(line, others);
    DataCut(line, others, trimPrefix);
    EventNameSkips(line, Lines(others));
    assert ([line] + Lines(others))[1..] == Lines(others);
  }

  lemma NoDataNotOpening(paragraph: string, trimPrefix: bool)
    requires OpensWithData(paragraph)
    ensures Data(paragraph, trimPrefix) != []
  {
    var first := Lines(paragraph)[0];
    assert first[4] == ':';
    assert StartsWith(NormalizeLine(first), "data:");
  }

  lemma SafeParagraph(line: string, others: string, trimPrefix: bool)
    requires '\n' !in line && StartsWith(line, "data:")
    requires EarlySafe(line + "\n" + others, trimPrefix)
    ensures BlockEvents(line + "\n" + others, trimPrefix) == BlockEvents(line, trimPrefix)
    ensures BlockEvents(others, trimPrefix) == []
    ensures !OpensWithData(others)
  {
    hide Lines, DataParts, EventName;
    FirstLineOf(line, others, trimPrefix);
    DataOfDataLine(line, trimPrefix);
    assert Data(line, trimPrefix) + [] == Data(line, trimPrefix);
    if OpensWithData(others) {
      NoDataNotOpening(others, trimPrefix);
    }
  }

  /** Delivering the first line of an open paragraph early, when the text is safe. */
  lemma EarlyDelivery(line: string, y: string, trimPrefix: bool)
    requires '\n' !in line && StartsWith(line, "data:")
    requires AllEarlySafe(line + "\n" + y, trimPrefix)
    ensures BlockEvents(line, trimPrefix) + FlushDone(y, trimPrefix) == FlushDone(line + "\n" + y, trimPrefix)
    ensures AllEarlySafe(y, trimPrefix)
  {
    if y != "" && y[0] == '\n' {
      assert y == "\n" + y[1..];
      assert line + "\n" + y == line + SEPARATOR + y[1..];
      EarlyDeliveryAlone(line, y[1..], trimPrefix);
    } else if IndexOf(y, SEPARATOR) == -1 {
      IndexOfAfterLine(line, y);
      SingleParagraph(y, trimPrefix);
      SingleParagraph(line + "\n" + y, trimPrefix);
      SafeParagraph(line, y, trimPrefix);
    } else {
      var head, rest := CutFirstParagraph(y);
      EarlyDeliveryBefore(line, y, head, rest, trimPrefix);
    }
  }

  lemma EarlyDeliveryAlone(line: string, rest: string, trimPrefix: bool)
    requires '\n' !in line && StartsWith(line, "data:")
    requires AllEarlySafe(line + SEPARATOR + rest, trimPrefix)
    ensures BlockEvents(line, trimPrefix) + FlushDone("\n" + rest, trimPrefix)
         == FlushDone(line + SEPARATOR + rest, trimPrefix)
    ensures AllEarlySafe("\n" + rest, trimPrefix)
  {
    SeparatorAfterLine(line, rest);
    LinesOfOne(line);
    UnfoldDone(line + SEPARATOR + rest, line, rest, trimPrefix);
    UnfoldSafe(line + SEPARATOR + rest, line, rest, trimPrefix);
    LeadingBlank(rest, trimPrefix);
  }

  lemma EarlyDeliveryBefore(line: string, y: string, head: string, rest: string, trimPrefix: bool)
    requires '\n' !in line && StartsWith(line, "data:") && (y == "" || y[0] != '\n')
    requires FirstParagraph(y, head, rest)
    requires AllEarlySafe(line + "\n" + y, trimPrefix)
    ensures BlockEvents(line, trimPrefix) + FlushDone(y, trimPrefix) == FlushDone(line + "\n" + y, trimPrefix)
    ensures AllEarlySafe(y, trimPrefix)
  {
    FirstParagraphAfterLine(line, y, head, rest);
    EarlyDeliveryIn(line + "\n" + y, line, y, head, rest, trimPrefix);
  }

  lemma EarlyDeliveryIn(s: string, line: string, y: string, head: string, rest: string, trimPrefix: bool)
    requires '\n' !in line && StartsWith(line, "data:")
    requires FirstParagraph(y, head, rest) && FirstParagraph(s, line + "\n" + head, rest)
    requires AllEarlySafe(s, trimPrefix)
    ensures BlockEvents(line, trimPrefix) + FlushDone(y, trimPrefix) == FlushDone(s, trimPrefix)
    ensures AllEarlySafe(y, trimPrefix)
  {
    hide IndexOf, Lines, DataParts, CompleteBlocks, Remainder, FlushDone, BlockEvents;
    UnfoldSafe(s, line + "\n" + head, rest, trimPrefix);
    SafeParagraph(line, head, trimPrefix);
    UnfoldDone(s, line + "\n" + head, rest, trimPrefix);
    UnfoldDone(y, head, rest, trimPrefix);
    UnfoldSafe(y, head, rest, trimPrefix);
  }

  // ---------------------------------------------- safe texts: boundaries are fixed

  lemma {:induction false} CompletePrefix(text: string, x: string, trimPrefix: bool)
    ensures CompleteBlocks(text, trimPrefix) + FlushDone(Remainder(text) + x, trimPrefix)
         == FlushDone(text + x, trimPrefix)
    ensures AllEarlySafe(text + x, trimPrefix) ==> AllEarlySafe(Remainder(text) + x, trimPrefix)
    decreases |text|
  {
    if IndexOf(text, SEPARATOR) == -1 {
      SingleParagraph(text, trimPrefix);
    } else {
      var head, rest := CutFirstParagraph(text);
      CompletePrefix(rest, x, trimPrefix);
      Unfold(text, head, rest, trimPrefix);
      FirstParagraphExtends(text, head, rest, x);
      UnfoldDone(text + x, head, rest + x, trimPrefix);
      UnfoldSafe(text + x, head, rest + x, trimPrefix);
      AppendAssociates(BlockEvents(head, trimPrefix), CompleteBlocks(rest, trimPrefix),
        FlushDone(Remainder(rest) + x, trimPrefix));
    }
  }

  lemma EarlyLineIs(open: string)
    requires EarlyLine(open).Some?
    ensures var j := EarlyLine(open).value;
            && 0 <= j < |open| && '\n' !in open[..j] && StartsWith(open[..j], "data:")
            && open == open[..j] + "\n" + open[j + 1..]
  {
    var j := EarlyLine(open).value;
    IndexOfFirst(open, "\n");
    SplitAtOccurrence(open, "\n", j);
    forall k | 0 <= k < j ensures open[k] != '\n' {
      assert open[k..k + 1] == [open[k]];
      assert !OccursAt(open, "\n", k);
    }
  }

  lemma FlushOpenKeepsBoundaries(text: string, x: string, trimPrefix: bool)
    requires AllEarlySafe(text + x, trimPrefix)
    ensures FlushOpen(text, trimPrefix).0 + FlushDone(FlushOpen(text, trimPrefix).1 + x, trimPrefix)
         == FlushDone(text + x, trimPrefix)
    ensures AllEarlySafe(FlushOpen(text, trimPrefix).1 + x, trimPrefix)
  {
    var open := Remainder(text);
    CompletePrefix(text, x, trimPrefix);
    EarlyFlushKeepsBoundaries(open, x, trimPrefix);
    AppendAssociates(CompleteBlocks(text, trimPrefix), EarlyBlocks(open, trimPrefix),
      FlushDone(EarlyRest(open) + x, trimPrefix));
  }

  lemma EarlyFlushKeepsBoundaries(open: string, x: string, trimPrefix: bool)
    requires AllEarlySafe(open + x, trimPrefix)
    ensures EarlyBlocks(open, trimPrefix) + FlushDone(EarlyRest(open) + x, trimPrefix)
         == FlushDone(open + x, trimPrefix)
    ensures AllEarlySafe(EarlyRest(open) + x, trimPrefix)
  {
    if EarlyLine(open).Some? {
      var j := EarlyLine(open).value;
      EarlyLineIs(open);
      assert open + x == open[..j] + "\n" + (open[j + 1..] + x);
      EarlyDelivery(open[..j], open[j + 1..] + x, trimPrefix);
    }
  }

  lemma {:induction false} SafeTextBoundaries(buffer: string, chunks: seq<string>, tail: string, trimPrefix: bool)
    requires '\r' !in buffer && '\r' !in Flatten(chunks) && '\r' !in tail
    requires AllEarlySafe(buffer + (Flatten(chunks) + tail), trimPrefix)
    ensures ParseEvents(buffer, chunks, tail, trimPrefix)
         == FlushDone(buffer + (Flatten(chunks) + tail), trimPrefix)
    decreases |chunks|
  {
    if chunks == [] {
      NormalizeClean(buffer + tail);
      assert Flatten(chunks) + tail == tail;
    } else {
      var text, future := buffer + chunks[0], Flatten(chunks[1..]) + tail;
      assert '\r' !in chunks[0] && '\r' !in Flatten(chunks[1..]);
      NormalizeClean(text);
      FlushOpenClean(text, trimPrefix);
      AppendAssociates(chunks[0], Flatten(chunks[1..]), tail);
      AppendAssociates(buffer, chunks[0], future);
      FlushOpenKeepsBoundaries(text, future, trimPrefix);
      SafeTextBoundaries(FlushOpen(text, trimPrefix).1, chunks[1..], tail, trimPrefix);
    }
  }

  // ------------------------------------------- unsafe texts: a chunking that differs

  lemma FlushOpenAfterParagraph(text: string, head: string, rest: string, trimPrefix: bool)
    requires FirstParagraph(text, head, rest)
    ensures FlushOpen(text, trimPrefix).0 == BlockEvents(head, trimPrefix) + FlushOpen(rest, trimPrefix).0
    ensures FlushOpen(text, trimPrefix).1 == FlushOpen(rest, trimPrefix).1
  {
    Unfold(text, head, rest, trimPrefix);
    AppendAssociates(BlockEvents(head, trimPrefix), CompleteBlocks(rest, trimPrefix),
      EarlyBlocks(Remainder(rest), trimPrefix));
  }

  /** Parsing one chunk without carriage returns, then the others. */
  lemma ParseEventsStep(chunk: string, chunks: seq<string>, tail: string, trimPrefix: bool)
    requires '\r' !in chunk
    ensures ParseEvents("", [chunk] + chunks, tail, trimPrefix)
         == FlushOpen(chunk, trimPrefix).0 + ParseEvents(FlushOpen(chunk, trimPrefix).1, chunks, tail, trimPrefix)
  {
    NormalizeClean(chunk);
    assert "" + chunk == chunk && ([chunk] + chunks)[1..] == chunks;
  }

  lemma FlushOpenFirstLine(line: string, trimPrefix: bool)
    requires '\n' !in line && StartsWith(line, "data:")
    ensures FlushOpen(line + "\n", trimPrefix).0 == BlockEvents(line, trimPrefix)
    ensures FlushOpen(line + "\n", trimPrefix).1 == ""
  {
    var s := line + "\n";
    assert s == line + "\n" + "";
    IndexOfAfterLine(line, "");
    SingleParagraph(s, trimPrefix);
    FirstLineFeed(line, "");
    assert s[..|line|] == line && s[|line| + 1..] == "";
  }

  lemma FirstLineFeed(line: string, rest: string)
    requires '\n' !in line
    ensures IndexOf(line + "\n" + rest, "\n") == |line|
  {
    var s := line + "\n" + rest;
    assert s[|line|..|line| + 1] == "\n";
    assert OccursAt(s, "\n", |line|);
    IndexOfFirst(s, "\n");
    var j := IndexOf(s, "\n");
    assert s[j] == '\n' by { assert s[j..j + 1] == "\n"; }
  }

  lemma AppendDiffers(a: seq<EventBlock>, b: seq<EventBlock>, c: seq<EventBlock>)
    requires b != c
    ensures a + b != a + c
  {
    assert (a + b)[|a|..] == b && (a + c)[|a|..] == c;
  }

  lemma {:induction false} CutFirstLine(p: string) returns (line: string, others: string)
    requires '\n' in p
    ensures p == line + "\n" + others && '\n' !in line
  {
    if p[0] == '\n' {
      line, others := "", p[1..];
    } else {
      line, others := CutFirstLine(p[1..]);
      line := [p[0]] + line;
    }
  }

  lemma LoneLineIsSafe(p: string, trimPrefix: bool)
    requires '\n' !in p
    ensures EarlySafe(p, trimPrefix)
  {
    LinesOfOne(p);
    if OpensWithData(p) {
      assert p[4] == ':';
      EventNameSkips(p, []);
      assert [p] + [] == [p] && [p][1..] == [];
    }
  }

  lemma FirstLineUnsafe(line: string, others: string, trimPrefix: bool)
    requires '\n' !in line && !EarlySafe(line + "\n" + others, trimPrefix)
    ensures StartsWith(line, "data:")
    ensures var p := line + "\n" + others;
            && |BlockEvents(line, trimPrefix)| == |BlockEvents(p, trimPrefix)| == 1
            && BlockEvents(line, trimPrefix)[0] != BlockEvents(p, trimPrefix)[0]
  {
    hide Lines, DataParts, EventName;
    LinesOfOne(line);
    LinesCut(line, others);
    FirstLineOf(line, others, trimPrefix);
    DataOfDataLine(line, trimPrefix);
  }

  /** The first line of an unsafe paragraph, delivered early, makes a message of its own. */
  lemma UnsafeParagraph(p: string, trimPrefix: bool) returns (line: string, others: string)
    requires !EarlySafe(p, trimPrefix)
    ensures p == line + "\n" + others && '\n' !in line && StartsWith(line, "data:")
    ensures |BlockEvents(line, trimPrefix)| == |BlockEvents(p, trimPrefix)| == 1
    ensures BlockEvents(line, trimPrefix)[0] != BlockEvents(p, trimPrefix)[0]
  {
    if '\n' !in p {
      LoneLineIsSafe(p, trimPrefix);
    }
    line, others := CutFirstLine(p);
    FirstLineUnsafe(line, others, trimPrefix);
  }

  /** A blank line ends the last paragraph, if there is one. */
  predicate Closed(text: string) {
    || text == "" || text == "\n"
    || (|text| >= 2 && text[|text| - 2..] == SEPARATOR)
  }

  lemma ClosedAfterParagraph(text: string, head: string, rest: string)
    requires FirstParagraph(text, head, rest) && Closed(text)
    ensures Closed(rest) && Closed("\n" + rest)
  {
    assert |rest| >= 1 ==> rest[|rest| - 1] == text[|text| - 1];
    assert |rest| >= 2 ==> rest[|rest| - 2] == text[|text| - 2];
    assert |rest| == 1 ==> rest == "\n" && "\n" + rest == SEPARATOR;
    assert |rest| == 0 ==> "\n" + rest == "\n";
    assert |rest| >= 2 ==> ("\n" + rest)[|rest| - 1..] == rest[|rest| - 2..] == SEPARATOR;
  }

  lemma ClosedAlone(text: string, trimPrefix: bool)
    requires Closed(text) && IndexOf(text, SEPARATOR) == -1
    ensures text == "" || text == "\n"
    ensures EarlyLine(text).None? && BlockEvents(text, trimPrefix) == [] && EarlySafe(text, trimPrefix)
  {
    IndexOfFirst(text, SEPARATOR);
    assert |text| >= 2 ==> OccursAt(text, SEPARATOR, |text| - 2);
    EmptyText(trimPrefix);
    BlankLineFirst("", trimPrefix);
    assert "\n" + "" == "\n";
    if text == "\n" {
      FirstLineFeed("", "");
      assert "" + "\n" + "" == text;
      assert text[..0] == "";
      assert Lines("\n" + "")[0] == "";
    }
  }

  /** A closed text reads the same as one chunk and as what closing the decoder yields. */
  lemma {:induction false} ClosedRead(text: string, trimPrefix: bool)
    requires Closed(text)
    ensures FlushOpen(text, trimPrefix).0 + FlushDone(FlushOpen(text, trimPrefix).1, trimPrefix)
         == FlushDone(text, trimPrefix)
    decreases |text|
  {
    hide IndexOf, FlushDone, BlockEvents, Closed;
    if IndexOf(text, SEPARATOR) == -1 {
      SingleParagraph(text, trimPrefix);
      ClosedAlone(text, trimPrefix);
      assert [] + FlushDone(text, trimPrefix) == FlushDone(text, trimPrefix);
    } else {
      var head, rest := CutFirstParagraph(text);
      hide FlushOpen;
      ClosedAfterParagraph(text, head, rest);
      ClosedRead(rest, trimPrefix);
      FlushOpenAfterParagraph(text, head, rest, trimPrefix);
      UnfoldDone(text, head, rest, trimPrefix);
      AppendAssociates(BlockEvents(head, trimPrefix), FlushOpen(rest, trimPrefix).0,
                       FlushDone(FlushOpen(rest, trimPrefix).1, trimPrefix));
    }
  }

  lemma UnsafeFirstParagraph(text: string, p: string, rest: string, trimPrefix: bool) returns (chunks: seq<string>)
    requires '\r' !in text && FirstParagraph(text, p, rest) && !EarlySafe(p, trimPrefix)
    ensures text == Flatten(chunks) && chunks != []
    ensures ParseEvents("", chunks, "", trimPrefix) != FlushDone(text, trimPrefix)
  {
    hide *;
    var line, others := UnsafeParagraph(p, trimPrefix);
    UnfoldDone(text, p, rest, trimPrefix);
    ParagraphStarts(text, p, rest);
    var chunk, later := line + "\n", others + SEPARATOR + rest;
    assert text == chunk + later;
    FlushOpenFirstLine(line, trimPrefix);
    ParseEventsStep(chunk, [later], "", trimPrefix);
    chunks := [chunk, later];
    assert [chunk] + [later] == chunks;
    FlattenPair(chunk, later);
    var after, after' := ParseEvents("", [later], "", trimPrefix), FlushDone(rest, trimPrefix);
    assert (BlockEvents(line, trimPrefix) + after)[0] == BlockEvents(line, trimPrefix)[0];
    assert (BlockEvents(p, trimPrefix) + after')[0] == BlockEvents(p, trimPrefix)[0];
  }

  lemma ParagraphStarts(text: string, head: string, rest: string)
    requires FirstParagraph(text, head, rest)
    ensures text == head + SEPARATOR + rest
  {
  }

  lemma FlattenPair(a: string, b: string)
    ensures Flatten([a, b]) == a + b
  {
    assert [a, b][1..] == [b];
    assert Flatten([b]) == b;
  }

  lemma {:induction false} UnsafeCleanText(text: string, trimPrefix: bool) returns (chunks: seq<string>)
    requires '\r' !in text && Closed(text)
    requires !AllEarlySafe(text, trimPrefix)
    ensures text == Flatten(chunks) && chunks != []
    ensures ParseEvents("", chunks, "", trimPrefix) != FlushDone(text, trimPrefix)
    decreases |text|
  {
    hide IndexOf, Lines, DataParts, CompleteBlocks, Remainder, FlushDone, BlockEvents, Closed;
    if IndexOf(text, SEPARATOR) == -1 {
      SingleParagraph(text, trimPrefix);
      ClosedAlone(text, trimPrefix);
      assert false;
    } else {
      var head, rest := CutFirstParagraph(text);
      UnfoldSafe(text, head, rest, trimPrefix);
      ClosedAfterParagraph(text, head, rest);
      assert '\r' !in rest && '\r' !in head;
      if !EarlySafe(head, trimPrefix) {
        chunks := UnsafeFirstParagraph(text, head, rest, trimPrefix);
      } else if !AllEarlySafe(rest, trimPrefix) {
        chunks := UnsafeCleanText(rest, trimPrefix);
        chunks := AfterParagraph(text, head, rest, chunks, trimPrefix);
      } else {
        chunks := UnsafeCleanText("\n" + rest, trimPrefix);
        chunks := AfterEarlyLine(text, head, rest, chunks, trimPrefix);
      }
    }
  }

  lemma AfterEarlyLine(text: string, head: string, rest: string, chunks: seq<string>, trimPrefix: bool)
    returns (chunks': seq<string>)
    requires FirstParagraph(text, head, rest) && '\r' !in head && LoneDataLine(head)
    requires "\n" + rest == Flatten(chunks)
    requires ParseEvents("", chunks, "", trimPrefix) != FlushDone("\n" + rest, trimPrefix)
    ensures text == Flatten(chunks') && chunks' != []
    ensures ParseEvents("", chunks', "", trimPrefix) != FlushDone(text, trimPrefix)
  {
    hide IndexOf, Lines, DataParts, CompleteBlocks, Remainder, FlushDone, BlockEvents;
    var chunk := head + "\n";
    chunks' := [chunk] + chunks;
    LinesOfOne(head);
    FlushOpenFirstLine(head, trimPrefix);
    ParseEventsStep(chunk, chunks, "", trimPrefix);
    LeadingBlank(rest, trimPrefix);
    UnfoldDone(text, head, rest, trimPrefix);
    AppendDiffers(BlockEvents(head, trimPrefix), ParseEvents("", chunks, "", trimPrefix), FlushDone(rest, trimPrefix));
    assert text == chunk + ("\n" + rest);
  }

  lemma AfterParagraph(text: string, head: string, rest: string, chunks: seq<string>, trimPrefix: bool)
    returns (chunks': seq<string>)
    requires FirstParagraph(text, head, rest) && '\r' !in text && chunks != []
    requires rest == Flatten(chunks)
    requires ParseEvents("", chunks, "", trimPrefix) != FlushDone(rest, trimPrefix)
    ensures text == Flatten(chunks') && chunks' != []
    ensures ParseEvents("", chunks', "", trimPrefix) != FlushDone(text, trimPrefix)
  {
    hide IndexOf, Flatten, ParseEvents, FlushDone, BlockEvents, Normalize;
    var first, others, whole := chunks[0], chunks[1..], head + SEPARATOR + chunks[0];
    assert chunks == [first] + others;
    chunks' := [whole] + others;
    FlattenCons(first, others);
    FlattenCons(whole, others);
    assert text == whole + Flatten(others) by {
      assert text == head + SEPARATOR + rest;
      AppendAssociates(head + SEPARATOR, first, Flatten(others));
    }
    ChunkAfterParagraph(text, head, rest, first, Flatten(others));
    assert '\r' !in whole && '\r' !in first;
    ChunksAfterParagraph(whole, head, first, others, "", trimPrefix);
    UnfoldDone(text, head, rest, trimPrefix);
    AppendDiffers(BlockEvents(head, trimPrefix), ParseEvents("", chunks, "", trimPrefix), FlushDone(rest, trimPrefix));
  }

  lemma ChunksAfterParagraph(whole: string, head: string, first: string, others: seq<string>, tail: string,
      trimPrefix: bool)
    requires FirstParagraph(whole, head, first) && '\r' !in whole && '\r' !in first
    ensures ParseEvents("", [whole] + others, tail, trimPrefix)
         == BlockEvents(head, trimPrefix) + ParseEvents("", [first] + others, tail, trimPrefix)
  {
    ParseEventsStep(whole, others, tail, trimPrefix);
    ParseEventsStep(first, others, tail, trimPrefix);
    FlushOpenAfterParagraph(whole, head, first, trimPrefix);
    AppendAssociates(BlockEvents(head, trimPrefix), FlushOpen(first, trimPrefix).0,
                     ParseEvents(FlushOpen(first, trimPrefix).1, others, tail, trimPrefix));
  }

  lemma ChunkAfterParagraph(text: string, head: string, rest: string, first: string, future: string)
    requires FirstParagraph(text, head, rest)
    requires text == (head + SEPARATOR + first) + future
    ensures FirstParagraph(head + SEPARATOR + first, head, first)
  {
    var s := head + SEPARATOR + first;
    IndexOfFirst(s, SEPARATOR);
    IndexOfFirst(text, SEPARATOR);
    OccursAtChars(s, |head|);
    OccursAtChars(s, IndexOf(s, SEPARATOR));
    OccursAtChars(text, IndexOf(s, SEPARATOR));
  }

  // ------------------------------------------------- carriage returns, chunk by chunk

  function NormalizeEach(chunks: seq<string>): seq<string> {
    seq(|chunks|, i requires 0 <= i < |chunks| => Normalize(chunks[i]))
  }

  /** A text as its chunks arrive: the line ends of each chunk normalised on their own. */
  function Arrived(chunks: seq<string>, tail: string): string {
    Flatten(NormalizeEach(chunks)) + Normalize(tail)
  }

  lemma NormalizeEachCons(chunk: string, chunks: seq<string>)
    ensures NormalizeEach([chunk] + chunks) == [Normalize(chunk)] + NormalizeEach(chunks)
  {
  }

  lemma ArrivedCons(chunk: string, chunks: seq<string>, tail: string)
    ensures Arrived([chunk] + chunks, tail) == Normalize(chunk) + Arrived(chunks, tail)
  {
    hide Normalize, NormalizeEach;
    NormalizeEachCons(chunk, chunks);
    FlattenCons(Normalize(chunk), NormalizeEach(chunks));
    AppendAssociates(Normalize(chunk), Flatten(NormalizeEach(chunks)), Normalize(tail));
  }

  lemma NormalizeTwice(buffer: string, chunk: string)
    requires '\r' !in buffer
    ensures Normalize(buffer + Normalize(chunk)) == Normalize(buffer + chunk)
  {
    hide Normalize;
    NormalizeAfter(buffer, chunk);
    NormalizeClean(chunk);
    NormalizeClean(buffer + Normalize(chunk));
  }

  /** Reading chunks is reading their normalised forms. */
  lemma {:induction false} ReadNormalized(buffer: string, chunks: seq<string>, tail: string, trimPrefix: bool)
    requires '\r' !in buffer
    ensures ParseEvents(buffer, chunks, tail, trimPrefix)
         == ParseEvents(buffer, NormalizeEach(chunks), Normalize(tail), trimPrefix)
    decreases |chunks|
  {
    hide Normalize, FlushOpen, FlushDone;
    if chunks == [] {
      NormalizeTwice(buffer, tail);
    } else {
      var text := Normalize(buffer + chunks[0]);
      NormalizeTwice(buffer, chunks[0]);
      NormalizeClean(buffer + chunks[0]);
      FlushOpenClean(text, trimPrefix);
      NormalizeEachCons(chunks[0], chunks[1..]);
      assert chunks == [chunks[0]] + chunks[1..];
      assert NormalizeEach(chunks)[1..] == NormalizeEach(chunks[1..]);
      ReadNormalized(FlushOpen(text, trimPrefix).1, chunks[1..], tail, trimPrefix);
    }
  }

  /** No carriage return right in front of a line feed. */
  predicate NoPair(text: string) {
    forall i | 0 <= i < |text| - 1 :: !(text[i] == '\r' && text[i + 1] == '\n')
  }

  lemma NoPairCut(a: string, b: string)
    requires NoPair(a + b)
    ensures NoPair(a) && NoPair(b) && !SplitsPair(a, b)
    ensures Normalize(a + b) == Normalize(a) + Normalize(b)
  {
    var s := a + b;
    forall i | 0 <= i < |a| - 1 ensures !(a[i] == '\r' && a[i + 1] == '\n') {
      assert s[i] == a[i] && s[i + 1] == a[i + 1];
    }
    forall i | 0 <= i < |b| - 1 ensures !(b[i] == '\r' && b[i + 1] == '\n') {
      assert s[|a| + i] == b[i] && s[|a| + i + 1] == b[i + 1];
    }
    assert a != "" && b != "" ==> !(s[|a| - 1] == '\r' && s[|a| - 1 + 1] == '\n');
    NormalizeAppend(a, b);
  }

  lemma {:induction false} NoPairLength(text: string)
    requires NoPair(text)
    ensures |Normalize(text)| == |text|
  {
    if text == "" {
    } else {
      hide Normalize;
      assert [text[0]] + text[1..] == text;
      NoPairCut([text[0]], text[1..]);
      NoPairLength(text[1..]);
      OneCharacter(text[0]);
    }
  }

  lemma OneCharacter(c: char)
    ensures |Normalize([c])| == 1
  {
    assert [c][1..] == "";
    assert CrLfToLf([c]) == [c];
    assert CrToLf([c][1..]) == "";
  }

  lemma {:induction false} NoPairArrives(chunks: seq<string>, tail: string)
    requires NoPair(Flatten(chunks) + tail)
    ensures Arrived(chunks, tail) == Normalize(Flatten(chunks) + tail)
  {
    hide Normalize, NoPair;
    if chunks == [] {
      assert Flatten(chunks) + tail == tail;
      assert Arrived(chunks, tail) == Normalize(tail);
    } else {
      var future := Flatten(chunks[1..]) + tail;
      AppendAssociates(chunks[0], Flatten(chunks[1..]), tail);
      NoPairCut(chunks[0], future);
      NoPairArrives(chunks[1..], tail);
      ArrivedCons(chunks[0], chunks[1..], tail);
      assert chunks == [chunks[0]] + chunks[1..];
    }
  }

  /** A text without pairs can be cut as its normalised form is cut. */
  lemma {:induction false} CutLike(text: string, chunks': seq<string>) returns (chunks: seq<string>)
    requires NoPair(text) && Normalize(text) == Flatten(chunks')
    ensures text == Flatten(chunks) && NormalizeEach(chunks) == chunks'
    decreases |chunks'|
  {
    hide Normalize, NoPair;
    NoPairLength(text);
    if chunks' == [] {
      chunks := [];
    } else {
      var n := |chunks'[0]|;
      var first, rest := text[..n], text[n..];
      assert text == first + rest;
      NoPairCut(first, rest);
      NoPairLength(first);
      SameStart(Normalize(first), Normalize(rest), chunks'[0], Flatten(chunks'[1..]));
      chunks := CutLike(rest, chunks'[1..]);
      FlattenCons(first, chunks);
      NormalizeEachCons(first, chunks);
      chunks := [first] + chunks;
    }
  }

  lemma SameStart(a: string, b: string, a': string, b': string)
    requires a + b == a' + b' && |a| == |a'|
    ensures a == a' && b == b'
  {
    assert (a + b)[..|a|] == a && (a' + b')[..|a'|] == a';
    assert (a + b)[|a|..] == b && (a' + b')[|a'|..] == b';
  }

  /** Some chunking of an unsafe text moves a message boundary. */
  lemma UnsafeTextWitness(text: string, trimPrefix: bool) returns (chunks: seq<string>)
    requires NoPair(text) && Closed(Normalize(text)) && !AllEarlySafe(Normalize(text), trimPrefix)
    ensures text == Flatten(chunks) && chunks != []
    ensures ParseEvents("", chunks, "", trimPrefix) != ParseEvents("", [text], "", trimPrefix)
  {
    hide Normalize, NoPair, AllEarlySafe, FlushDone, ParseEvents;
    NormalizeClean(text);
    NormalizeClean("");
    var chunks' := UnsafeCleanText(Normalize(text), trimPrefix);
    chunks := CutLike(text, chunks');
    assert chunks != [] by { assert |NormalizeEach(chunks)| == |chunks|; }
    ReadNormalized("", chunks, "", trimPrefix);
    OneChunk(text, trimPrefix);
    ClosedRead(Normalize(text), trimPrefix);
  }

  lemma OneChunk(text: string, trimPrefix: bool)
    ensures var (blocks, rest) := FlushOpen(Normalize(text), trimPrefix);
            ParseEvents("", [text], "", trimPrefix) == blocks + FlushDone(rest, trimPrefix)
  {
    hide Normalize, FlushDone, FlushOpen;
    var (blocks, rest) := FlushOpen(Normalize(text), trimPrefix);
    NormalizeClean(text);
    FlushOpenClean(Normalize(text), trimPrefix);
    NormalizeClean(rest);
    assert "" + text == text && rest + "" == rest && [text][1..] == [];
  }

  /** Where a text without CR LF pairs is safe for early delivery, every chunking of it yields
      the blocks of its normalised form read at once. */
  lemma SafeBoundaries(chunks: seq<string>, tail: string, trimPrefix: bool)
    requires NoPair(Flatten(chunks) + tail) && AllEarlySafe(Normalize(Flatten(chunks) + tail), trimPrefix)
    ensures ParseEvents("", chunks, tail, trimPrefix) == FlushDone(Normalize(Flatten(chunks) + tail), trimPrefix)
  {
    hide Normalize, NoPair, AllEarlySafe, FlushDone, ParseEvents;
    NoPairArrives(chunks, tail);
    ArrivedSafely(chunks, tail, trimPrefix);
  }

  /** What closing the character decoder yields: nothing, or the replacement character for an
      unfinished one. */
  predicate CanClose(tail: string) {
    tail == "" || tail == "\U{FFFD}"
  }

  /** If a blank line ends the last paragraph, this is exact: every chunking yields the blocks
      of the text in one chunk if and only if each paragraph is safe. */
  lemma BoundariesChunkingIndependentIff(text: string, trimPrefix: bool)
    requires NoPair(text) && Closed(Normalize(text))
    ensures (forall chunks, tail | Flatten(chunks) + tail == text && CanClose(tail) ::
               ParseEvents("", chunks, tail, trimPrefix) == ParseEvents("", [text], "", trimPrefix))
       <==> AllEarlySafe(Normalize(text), trimPrefix)
  {
    hide Normalize, NoPair, AllEarlySafe, FlushDone, ParseEvents;
    if AllEarlySafe(Normalize(text), trimPrefix) {
      OneChunk(text, trimPrefix);
      ClosedRead(Normalize(text), trimPrefix);
      forall chunks, tail | Flatten(chunks) + tail == text && CanClose(tail)
        ensures ParseEvents("", chunks, tail, trimPrefix) == ParseEvents("", [text], "", trimPrefix)
      {
        SafeBoundaries(chunks, tail, trimPrefix);
      }
    } else {
      var chunks := UnsafeTextWitness(text, trimPrefix);
      assert Flatten(chunks) + "" == text && CanClose("");
    }
  }

  /** A text that arrives safe is parsed as if read at once. */
  lemma ArrivedSafely(chunks: seq<string>, tail: string, trimPrefix: bool)
    requires AllEarlySafe(Arrived(chunks, tail), trimPrefix)
    ensures ParseEvents("", chunks, tail, trimPrefix) == FlushDone(Arrived(chunks, tail), trimPrefix)
  {
    hide Normalize, AllEarlySafe, FlushDone, ParseEvents;
    ArrivedClean(chunks, tail);
    ReadNormalized("", chunks, tail, trimPrefix);
    assert "" + Arrived(chunks, tail) == Arrived(chunks, tail);
    SafeTextBoundaries("", NormalizeEach(chunks), Normalize(tail), trimPrefix);
  }

  lemma {:induction false} ArrivedClean(chunks: seq<string>, tail: string)
    ensures '\r' !in Arrived(chunks, tail) && '\r' !in Flatten(NormalizeEach(chunks)) && '\r' !in Normalize(tail)
  {
    hide Normalize;
    NormalizeClean(tail);
    if chunks != [] {
      NormalizeClean(chunks[0]);
      ArrivedClean(chunks[1..], tail);
      NormalizeEachCons(chunks[0], chunks[1..]);
      assert chunks == [chunks[0]] + chunks[1..];
      FlattenCons(Normalize(chunks[0]), NormalizeEach(chunks[1..]));
    }
  }
}
