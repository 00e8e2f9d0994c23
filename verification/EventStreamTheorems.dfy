/** What the decoder guarantees however the network cuts the text into chunks. */
module EventStreamTheorems {
  import opened Text
  import opened EventStream

  // ------------------------------------------------- data of a text, line by line

  function Data(text: string, trimPrefix: bool): seq<string> {
    DataParts(Lines(text), trimPrefix)
  }

  lemma {:induction false} DataPartsAppend(a: seq<string>, b: seq<string>, trimPrefix: bool)
    ensures DataParts(a + b, trimPrefix) == DataParts(a, trimPrefix) + DataParts(b, trimPrefix)
  {
    hide DataOf;
    if a == [] {
      assert a + b == b;
    } else {
      assert (a + b)[0] == a[0] && (a + b)[1..] == a[1..] + b;
      DataPartsAppend(a[1..], b, trimPrefix);
      AppendAssociates(DataOf(a[0], trimPrefix), DataParts(a[1..], trimPrefix), DataParts(b, trimPrefix));
    }
  }

  lemma DataCut(a: string, b: string, trimPrefix: bool)
    ensures Data(a + "\n" + b, trimPrefix) == Data(a, trimPrefix) + Data(b, trimPrefix)
  {
    LinesCut(a, b);
    DataPartsAppend(Lines(a), Lines(b), trimPrefix);
  }

  lemma EmptyData(trimPrefix: bool)
    ensures Data("", trimPrefix) == []
  {
    assert Lines("") == [""];
    assert [""][1..] == [];
    assert DataParts([""], trimPrefix) == [];
  }

  /** A paragraph break carries no data. */
  lemma DataCutSeparator(a: string, b: string, trimPrefix: bool)
    ensures Data(a + "\n\n" + b, trimPrefix) == Data(a, trimPrefix) + Data(b, trimPrefix)
  {
    EmptyData(trimPrefix);
    hide Data;
    assert a + "\n\n" + b == a + "\n" + ("" + "\n" + b);
    DataCut(a, "" + "\n" + b, trimPrefix);
    DataCut("", b, trimPrefix);
  }

  function PartsOf(blocks: seq<EventBlock>): seq<seq<string>> {
    seq(|blocks|, i requires 0 <= i < |blocks| => blocks[i].parts)
  }

  lemma PartsOfAppend(a: seq<EventBlock>, b: seq<EventBlock>)
    ensures Flatten(PartsOf(a + b)) == Flatten(PartsOf(a)) + Flatten(PartsOf(b))
  {
    assert PartsOf(a + b) == PartsOf(a) + PartsOf(b);
    FlattenAppend(PartsOf(a), PartsOf(b));
  }

  lemma BlockEventsData(text: string, trimPrefix: bool)
    ensures Flatten(PartsOf(BlockEvents(text, trimPrefix))) == Data(text, trimPrefix)
  {
    var parts := Data(text, trimPrefix);
    if parts != [] {
      assert PartsOf(BlockEvents(text, trimPrefix)) == [parts];
      assert Flatten([parts]) == parts;
    }
  }

  lemma SplitAtOccurrence(text: string, pat: string, i: int)
    requires OccursAt(text, pat, i)
    ensures text == text[..i] + pat + text[i + |pat|..]
  {
  }

  // ------------------------------------------------------ carriage returns and cuts

  /** No character that ends a line. */
  predicate OneLine(s: string) {
    '\r' !in s && '\n' !in s
  }

  lemma {:induction false} CrToLfAppend(a: string, b: string)
    ensures CrToLf(a + b) == CrToLf(a) + CrToLf(b)
  {
    if a == "" {
      assert a + b == b;
    } else {
      assert (a + b)[1..] == a[1..] + b;
      CrToLfAppend(a[1..], b);
    }
  }

  lemma {:induction false} CrToLfClean(s: string)
    ensures '\r' !in CrToLf(s)
    ensures '\r' !in s ==> CrToLf(s) == s
  {
    if s != "" {
      CrToLfClean(s[1..]);
    }
  }

  lemma {:induction false} CrLfToLfClean(s: string)
    requires '\r' !in s
    ensures CrLfToLf(s) == s
  {
    if s != "" {
      CrLfToLfClean(s[1..]);
    }
  }

  /** Whether a cut between `a` and `b` falls inside a CR LF pair. */
  predicate SplitsPair(a: string, b: string) {
    a != "" && b != "" && Last(a) == '\r' && b[0] == '\n'
  }

  predicate StartsWithPair(s: string) {
    |s| >= 2 && s[0] == '\r' && s[1] == '\n'
  }

  function PairLength(s: string): nat {
    if StartsWithPair(s) then 2 else 1
  }

  lemma CrLfToLfStep(s: string)
    requires s != ""
    ensures var k := PairLength(s);
            k <= |s| && CrLfToLf(s) == [if k == 2 then '\n' else s[0]] + CrLfToLf(s[k..])
  {
  }

  lemma PairBeforeCut(a: string, b: string)
    requires a != "" && !SplitsPair(a, b)
    ensures var k := PairLength(a);
            PairLength(a + b) == k && k <= |a| && (a + b)[k..] == a[k..] + b
  {
  }

  lemma {:induction false} CrLfToLfAppend(a: string, b: string)
    requires !SplitsPair(a, b)
    ensures CrLfToLf(a + b) == CrLfToLf(a) + CrLfToLf(b)
    decreases |a|
  {
    if a == "" {
      assert a + b == b;
      assert CrLfToLf(a) == "";
    } else {
      hide CrLfToLf, PairLength;
      var k := PairLength(a);
      CrLfToLfStep(a);
      CrLfToLfStep(a + b);
      PairBeforeCut(a, b);
      CrLfToLfAppend(a[k..], b);
      AppendAssociates([if k == 2 then '\n' else a[0]], CrLfToLf(a[k..]), CrLfToLf(b));
    }
  }

  lemma CrLfToLfPair(v: string)
    ensures CrLfToLf("\r\n" + v) == "\n" + CrLfToLf(v)
  {
    assert ("\r\n" + v)[2..] == v;
  }

  /** Where a cut splits a pair, the two halves give two line feeds instead of one. */
  lemma CrLfToLfSplit(u: string, v: string)
    ensures CrLfToLf(u + "\r") == CrLfToLf(u) + "\r"
    ensures CrLfToLf("\n" + v) == "\n" + CrLfToLf(v)
    ensures CrLfToLf(u + ("\r\n" + v)) == CrLfToLf(u) + ("\n" + CrLfToLf(v))
  {
    CrLfToLfAppend(u, "\r");
    assert CrLfToLf("\r") == "\r" by { assert "\r"[1..] == ""; }
    assert ("\n" + v)[1..] == v;
    CrLfToLfAppend(u, "\r\n" + v);
    CrLfToLfPair(v);
  }

  lemma NormalizeClean(s: string)
    ensures '\r' !in Normalize(s)
    ensures '\r' !in s ==> Normalize(s) == s
  {
    CrToLfClean(CrLfToLf(s));
    if '\r' !in s {
      CrLfToLfClean(s);
    }
  }

  /** Already normalised characters in front stay as they are. */
  lemma NormalizeAfter(a: string, b: string)
    requires '\r' !in a
    ensures Normalize(a + b) == a + Normalize(b)
  {
    CrLfToLfAppend(a, b);
    CrLfToLfClean(a);
    CrToLfAppend(a, CrLfToLf(b));
    CrToLfClean(a);
  }

  /** Normalising the two sides of a cut separately can only add a blank line, at a
      cut inside a CR LF pair, and a blank line carries no data. */
  lemma NormalizeCutData(p: string, a: string, b: string, trimPrefix: bool)
    ensures Data(p + Normalize(a) + Normalize(b), trimPrefix) == Data(p + Normalize(a + b), trimPrefix)
  {
    hide Data, Normalize;
    if SplitsPair(a, b) {
      var u, v := ButLast(a), b[1..];
      assert a == u + "\r" && b == "\n" + v;
      NormalizeSplit(u, v);
      DataCutSeparator(p + Normalize(u), Normalize(v), trimPrefix);
      DataCut(p + Normalize(u), Normalize(v), trimPrefix);
      assert p + (Normalize(u) + "\n") + ("\n" + Normalize(v)) == p + Normalize(u) + "\n\n" + Normalize(v);
      assert p + (Normalize(u) + ("\n" + Normalize(v))) == p + Normalize(u) + "\n" + Normalize(v);
    } else {
      NormalizeAppend(a, b);
      AppendAssociates(p, Normalize(a), Normalize(b));
    }
  }

  lemma NormalizeAppend(a: string, b: string)
    requires !SplitsPair(a, b)
    ensures Normalize(a + b) == Normalize(a) + Normalize(b)
  {
    CrLfToLfAppend(a, b);
    CrToLfAppend(CrLfToLf(a), CrLfToLf(b));
  }

  lemma NormalizeSplit(u: string, v: string)
    ensures Normalize(u + "\r") == Normalize(u) + "\n"
    ensures Normalize("\n" + v) == "\n" + Normalize(v)
    ensures Normalize((u + "\r") + ("\n" + v)) == Normalize(u) + ("\n" + Normalize(v))
  {
    assert (u + "\r") + ("\n" + v) == u + ("\r\n" + v);
    CrLfToLfSplit(u, v);
    CrToLfAppend(CrLfToLf(u), "\r");
    assert CrToLf("\r") == "\n";
    CrToLfAppend(CrLfToLf(u), "\n" + CrLfToLf(v));
  }

  // ---------------------------------------------- theorem: no data lost or reordered

  lemma {:induction false} CompleteBlocksData(text: string, x: string, trimPrefix: bool)
    ensures Flatten(PartsOf(CompleteBlocks(text, trimPrefix))) + Data(Remainder(text) + x, trimPrefix)
         == Data(text + x, trimPrefix)
    decreases |text|
  {
    hide Data, BlockEvents, PartsOf;
    var i := IndexOf(text, SEPARATOR);
    if i == -1 {
      NoParts();
    } else {
      var head, rest := text[..i], text[i + 2..];
      CompleteBlocksData(rest, x, trimPrefix);
      ParagraphData(head, CompleteBlocks(rest, trimPrefix), Data(Remainder(rest) + x, trimPrefix), trimPrefix);
      IndexOfFirst(text, SEPARATOR);
      SplitAtOccurrence(text, SEPARATOR, i);
      assert text + x == head + "\n\n" + (rest + x);
      DataCutSeparator(head, rest + x, trimPrefix);
    }
  }

  lemma NoParts()
    ensures Flatten(PartsOf([])) == []
  {
  }

  lemma ParagraphData(head: string, blocks: seq<EventBlock>, data: seq<string>, trimPrefix: bool)
    ensures Flatten(PartsOf(BlockEvents(head, trimPrefix) + blocks)) + data
         == Data(head, trimPrefix) + (Flatten(PartsOf(blocks)) + data)
  {
    hide Data, BlockEvents, PartsOf;
    PartsOfAppend(BlockEvents(head, trimPrefix), blocks);
    BlockEventsData(head, trimPrefix);
    AppendAssociates(Data(head, trimPrefix), Flatten(PartsOf(blocks)), data);
  }

  lemma FlushOpenData(text: string, x: string, trimPrefix: bool)
    ensures Flatten(PartsOf(FlushOpen(text, trimPrefix).0)) + Data(FlushOpen(text, trimPrefix).1 + x, trimPrefix)
         == Data(text + x, trimPrefix)
  {
    var open, complete := Remainder(text), CompleteBlocks(text, trimPrefix);
    CompleteBlocksData(text, x, trimPrefix);
    PartsOfAppend(complete, EarlyBlocks(open, trimPrefix));
    EarlyLineData(open, x, trimPrefix);
    AppendAssociates(Flatten(PartsOf(complete)), Flatten(PartsOf(EarlyBlocks(open, trimPrefix))),
                     Data(EarlyRest(open) + x, trimPrefix));
  }

  lemma EarlyLineData(open: string, x: string, trimPrefix: bool)
    ensures Flatten(PartsOf(EarlyBlocks(open, trimPrefix))) + Data(EarlyRest(open) + x, trimPrefix)
         == Data(open + x, trimPrefix)
  {
    if EarlyLine(open).Some? {
      var j := EarlyLine(open).value;
      IndexOfFirst(open, "\n");
      SplitAtOccurrence(open, "\n", j);
      assert open + x == open[..j] + "\n" + (open[j + 1..] + x);
      DataCut(open[..j], open[j + 1..] + x, trimPrefix);
      BlockEventsData(open[..j], trimPrefix);
    }
  }

  lemma AppendAssociates<T>(a: seq<T>, b: seq<T>, c: seq<T>)
    ensures (a + b) + c == a + (b + c)
  {
  }

  lemma {:induction false} RemainderClean(text: string)
    requires '\r' !in text
    ensures '\r' !in Remainder(text)
    decreases |text|
  {
    var i := IndexOf(text, SEPARATOR);
    if i != -1 {
      RemainderClean(text[i + 2..]);
    }
  }

  lemma FlushOpenClean(text: string, trimPrefix: bool)
    requires '\r' !in text
    ensures '\r' !in FlushOpen(text, trimPrefix).1
  {
    RemainderClean(text);
  }

  lemma {:induction false} ParseEventsData(buffer: string, chunks: seq<string>, tail: string, trimPrefix: bool)
    requires '\r' !in buffer
    ensures Flatten(PartsOf(ParseEvents(buffer, chunks, tail, trimPrefix)))
         == Data(buffer + Normalize(Flatten(chunks) + tail), trimPrefix)
    decreases |chunks|
  {
    if chunks == [] {
      NormalizeAfter(buffer, tail);
      assert Flatten(chunks) + tail == tail;
      FlushDoneData(Normalize(buffer + tail), trimPrefix);
    } else {
      var text := buffer + Normalize(chunks[0]);
      var future := Flatten(chunks[1..]) + tail;
      NormalizeAfter(buffer, chunks[0]);
      NormalizeClean(chunks[0]);
      FlushOpenClean(text, trimPrefix);
      var (blocks, rest) := FlushOpen(text, trimPrefix);
      ParseEventsData(rest, chunks[1..], tail, trimPrefix);
      PartsOfAppend(blocks, ParseEvents(rest, chunks[1..], tail, trimPrefix));
      FlushOpenData(text, Normalize(future), trimPrefix);
      NormalizeCutData(buffer, chunks[0], future, trimPrefix);
      AppendAssociates(chunks[0], Flatten(chunks[1..]), tail);
    }
  }

  lemma FlushDoneData(text: string, trimPrefix: bool)
    ensures Flatten(PartsOf(FlushDone(text, trimPrefix))) == Data(text, trimPrefix)
  {
    CompleteBlocksData(text, "", trimPrefix);
    assert text + "" == text && Remainder(text) + "" == Remainder(text);
    BlockEventsData(Remainder(text), trimPrefix);
    PartsOfAppend(CompleteBlocks(text, trimPrefix), BlockEvents(Remainder(text), trimPrefix));
  }

  /** For every text and every way of cutting it, the data contents of the parsed
      blocks, end to end, are those of the lines of the whole normalised text: early
      delivery of a line and cuts inside CR LF lose, add and reorder nothing. */
  lemma EventDataConserved(chunks: seq<string>, tail: string, trimPrefix: bool)
    ensures Flatten(PartsOf(ParseEvents("", chunks, tail, trimPrefix)))
         == Data(Normalize(Flatten(chunks) + tail), trimPrefix)
  {
    ParseEventsData("", chunks, tail, trimPrefix);
    assert "" + Normalize(Flatten(chunks) + tail) == Normalize(Flatten(chunks) + tail);
  }

  lemma {:induction false} JoinEmptyIsFlatten(parts: seq<string>)
    ensures Join(parts, "") == Flatten(parts)
  {
    if |parts| >= 2 {
      JoinEmptyIsFlatten(parts[1..]);
    } else if |parts| == 1 {
      assert Flatten(parts) == parts[0] + [];
    }
  }

  /** What an outcome stands for: the delivered characters, then those that raised. */
  predicate Accounts(o: Outcome, payload: string) {
    match o.failure
    case None => Flatten(o.delivered) == payload
    case Some(content) => Flatten(o.delivered) + content <= payload
  }

  lemma AccountsStep(o: Outcome, payload: string, content: string)
    requires Accounts(o, payload)
    ensures Accounts(o.(delivered := [content] + o.delivered), content + payload)
  {
    FlattenCons(content, o.delivered);
    if o.failure.Some? {
      AppendAssociates(content, Flatten(o.delivered), o.failure.value);
    }
  }

  lemma {:induction false} DeliverConcatenation(blocks: seq<EventBlock>, isBusinessError: string -> bool)
    ensures Accounts(Deliver(blocks, "", isBusinessError), Flatten(Flatten(PartsOf(blocks))))
  {
    if blocks != [] {
      var first, rest := blocks[0].parts, blocks[1..];
      var payload := Flatten(Flatten(PartsOf(rest)));
      assert PartsOf(blocks) == [first] + PartsOf(rest);
      FlattenCons(first, PartsOf(rest));
      FlattenAppend(first, Flatten(PartsOf(rest)));
      JoinEmptyIsFlatten(first);
      if Raises(blocks[0], "", isBusinessError) {
        assert Flatten<char>([]) + Join(first, "") == Join(first, "");
      } else {
        DeliverConcatenation(rest, isBusinessError);
        AccountsStep(Deliver(rest, "", isBusinessError), payload, Join(first, ""));
      }
    }
  }

  /** With the empty joiner the delivered characters are the payload of the text, for
      every chunking; a raised error leaves a prefix of it, and the content that
      raised comes right after that prefix. */
  lemma EventPayloadConserved(chunks: seq<string>, tail: string, trimPrefix: bool, isBusinessError: string -> bool)
    ensures var o := Deliver(ParseEvents("", chunks, tail, trimPrefix), "", isBusinessError);
            Accounts(o, Flatten(Data(Normalize(Flatten(chunks) + tail), trimPrefix)))
  {
    EventDataConserved(chunks, tail, trimPrefix);
    DeliverConcatenation(ParseEvents("", chunks, tail, trimPrefix), isBusinessError);
  }

  /** Two chunkings of one text that both end normally deliver the same characters. */
  lemma EventChunkingIndependent(
      chunks: seq<string>, tail: string, chunks': seq<string>, tail': string,
      trimPrefix: bool, isBusinessError: string -> bool)
    requires Flatten(chunks) + tail == Flatten(chunks') + tail'
    ensures var o := Deliver(ParseEvents("", chunks, tail, trimPrefix), "", isBusinessError);
            var o' := Deliver(ParseEvents("", chunks', tail', trimPrefix), "", isBusinessError);
            o.failure.None? && o'.failure.None? ==> Flatten(o.delivered) == Flatten(o'.delivered)
  {
    EventPayloadConserved(chunks, tail, trimPrefix, isBusinessError);
    EventPayloadConserved(chunks', tail', trimPrefix, isBusinessError);
  }

  // ------------------------------------------------------- theorem: line mode

  lemma {:induction false} LineEventsAppend(a: seq<string>, b: seq<string>, trimPrefix: bool)
    ensures LineEvents(a + b, trimPrefix) == LineEvents(a, trimPrefix) + LineEvents(b, trimPrefix)
  {
    hide LineBlock;
    if a == [] {
      assert a + b == b;
    } else {
      assert (a + b)[0] == a[0] && (a + b)[1..] == a[1..] + b;
      LineEventsAppend(a[1..], b, trimPrefix);
      AppendAssociates(LineBlock(a[0], trimPrefix), LineEvents(a[1..], trimPrefix), LineEvents(b, trimPrefix));
    }
  }

  lemma {:induction false} ParseLinesIs(buffer: string, chunks: seq<string>, tail: string, trimPrefix: bool)
    ensures ParseLines(buffer, chunks, tail, trimPrefix)
         == LineEvents(Lines(buffer + (Flatten(chunks) + tail)), trimPrefix)
    decreases |chunks|
  {
    if chunks == [] {
      assert Flatten(chunks) + tail == tail;
    } else {
      var future := Flatten(chunks[1..]) + tail;
      var lines := Lines(buffer + chunks[0]);
      ParseLinesIs(Last(lines), chunks[1..], tail, trimPrefix);
      LinesResume(buffer + chunks[0], future);
      LineEventsAppend(ButLast(lines), Lines(Last(lines) + future), trimPrefix);
      AppendAssociates(buffer, chunks[0], future);
      AppendAssociates(chunks[0], Flatten(chunks[1..]), tail);
    }
  }

  /** Line mode parses every chunking of a text as the map of its lines, so what is
      delivered, up to and including the first error, depends on the text alone. */
  lemma LineModeChunkingIndependent(chunks: seq<string>, tail: string, trimPrefix: bool)
    ensures ParseLines("", chunks, tail, trimPrefix) == LineEvents(Lines(Flatten(chunks) + tail), trimPrefix)
  {
    ParseLinesIs("", chunks, tail, trimPrefix);
    assert "" + (Flatten(chunks) + tail) == Flatten(chunks) + tail;
  }
}
