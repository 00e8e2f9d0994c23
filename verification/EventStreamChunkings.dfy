/** Exactly the texts that pass the scan of EventStreamScan give the same for every chunking:
    everything the scan holds can be brought about by some chunks. */
module EventStreamChunkings {
  import opened Text
  import opened EventStream
  import opened EventStreamTheorems
  import opened EventStreamBoundaries
  import opened EventStreamPairs
  import opened EventStreamRows
  import opened EventStreamScan
  import opened EventStreamCuts
  import opened EventStreamSteady

  // ------------------------------------------------------------- the decoder in mid-stream

  /** The buffer after some chunks, and the blocks found on the way. */
  function EndBuffer(buffer: string, chunks: seq<string>, trimPrefix: bool): string
    decreases |chunks|
  {
    if chunks == [] then buffer
    else EndBuffer(FlushOpen(Normalize(buffer + chunks[0]), trimPrefix).1, chunks[1..], trimPrefix)
  }

  function Emitted(buffer: string, chunks: seq<string>, trimPrefix: bool): seq<EventBlock>
    decreases |chunks|
  {
    if chunks == [] then []
    else
      var (blocks, rest) := FlushOpen(Normalize(buffer + chunks[0]), trimPrefix);
      blocks + Emitted(rest, chunks[1..], trimPrefix)
  }

  lemma {:induction false} RunSplit(buffer: string, chunks: seq<string>, tail: string, trimPrefix: bool)
    ensures ParseEvents(buffer, chunks, tail, trimPrefix)
         == Emitted(buffer, chunks, trimPrefix)
            + ParseEvents(EndBuffer(buffer, chunks, trimPrefix), [], tail, trimPrefix)
    decreases |chunks|
  {
    hide Normalize, FlushOpen, FlushDone;
    if chunks == [] {
      assert [] + ParseEvents(buffer, [], tail, trimPrefix) == ParseEvents(buffer, [], tail, trimPrefix);
    } else {
      var (blocks, rest) := FlushOpen(Normalize(buffer + chunks[0]), trimPrefix);
      RunSplit(rest, chunks[1..], tail, trimPrefix);
      AppendAssociates(blocks, Emitted(rest, chunks[1..], trimPrefix),
                       ParseEvents(EndBuffer(rest, chunks[1..], trimPrefix), [], tail, trimPrefix));
    }
  }

  lemma {:induction false} EndBufferSnoc(buffer: string, chunks: seq<string>, chunk: string, trimPrefix: bool)
    ensures EndBuffer(buffer, chunks + [chunk], trimPrefix)
         == FlushOpen(Normalize(EndBuffer(buffer, chunks, trimPrefix) + chunk), trimPrefix).1
    decreases |chunks|
  {
    hide Normalize, FlushOpen;
    if chunks == [] {
      assert (chunks + [chunk])[1..] == [];
    } else {
      assert (chunks + [chunk])[0] == chunks[0] && (chunks + [chunk])[1..] == chunks[1..] + [chunk];
      EndBufferSnoc(FlushOpen(Normalize(buffer + chunks[0]), trimPrefix).1, chunks[1..], chunk, trimPrefix);
    }
  }

  lemma {:induction false} EndBufferClean(buffer: string, chunks: seq<string>, trimPrefix: bool)
    requires '\r' !in buffer
    ensures '\r' !in EndBuffer(buffer, chunks, trimPrefix)
    decreases |chunks|
  {
    hide Normalize, FlushOpen;
    if chunks != [] {
      NormalizeClean(buffer + chunks[0]);
      FlushOpenClean(Normalize(buffer + chunks[0]), trimPrefix);
      EndBufferClean(FlushOpen(Normalize(buffer + chunks[0]), trimPrefix).1, chunks[1..], trimPrefix);
    }
  }

  lemma EmittedData(chunks: seq<string>, trimPrefix: bool)
    ensures Flatten(PartsOf(Emitted("", chunks, trimPrefix))) + Data(EndBuffer("", chunks, trimPrefix), trimPrefix)
         == Data(Normalize(Flatten(chunks)), trimPrefix)
  {
    hide Normalize, FlushDone, Data, PartsOf;
    var buffer := EndBuffer("", chunks, trimPrefix);
    RunSplit("", chunks, "", trimPrefix);
    EventDataConserved(chunks, "", trimPrefix);
    assert Flatten(chunks) + "" == Flatten(chunks) && buffer + "" == buffer;
    EndBufferClean("", chunks, trimPrefix);
    NormalizeClean(buffer);
    FlushDoneData(buffer, trimPrefix);
    PartsOfAppend(Emitted("", chunks, trimPrefix), ParseEvents(buffer, [], "", trimPrefix));
  }

  // ------------------------------------------------------- what one flush leaves behind

  /** Behind two line ends nothing is left. */
  lemma {:induction false} TwoEnds(w: string, c: char)
    requires c != '\n'
    ensures Remainder(w + [c] + "\n\n") == ""
    decreases |w|
  {
    hide IndexOf;
    var text := w + [c] + "\n\n";
    var i := FirstSeparator(w, c);
    if i == |w| + 1 {
      assert text[i + 2..] == "";
      NoSeparatorInEmpty();
    } else {
      assert text[i + 2..] == w[i + 2..] + [c] + "\n\n";
      TwoEnds(w[i + 2..], c);
    }
  }

  lemma FirstSeparator(w: string, c: char) returns (i: nat)
    requires c != '\n'
    ensures i == IndexOf(w + [c] + "\n\n", SEPARATOR) && (i == |w| + 1 || i + 2 <= |w|)
  {
    var text := w + [c] + "\n\n";
    IndexOfFirst(text, SEPARATOR);
    OccursAtChars(text, |w| + 1);
    OccursAtChars(text, IndexOf(text, SEPARATOR));
    hide IndexOf;
    assert text[|w|] == c;
    i := IndexOf(text, SEPARATOR);
  }

  lemma {:induction false} OneEnd(w: string, c: char) returns (z: string)
    requires c != '\n'
    ensures Remainder(w + [c] + "\n") == z + [c] + "\n"
    decreases |w|
  {
    var text := w + [c] + "\n";
    var i := IndexOf(text, SEPARATOR);
    IndexOfFirst(text, SEPARATOR);
    OccursAtChars(text, i);
    if i == -1 {
      z := w;
    } else {
      assert text[|w|] == c && text[|w| + 1] == '\n';
      assert i + 2 <= |w|;
      assert text[i + 2..] == w[i + 2..] + [c] + "\n";
      z := OneEnd(w[i + 2..], c);
    }
  }

  lemma FlushTwoEnds(w: string, c: char, trimPrefix: bool)
    requires c != '\n'
    ensures FlushOpen(w + [c] + "\n\n", trimPrefix).1 == ""
  {
    TwoEnds(w, c);
  }

  lemma FlushBlank(trimPrefix: bool)
    ensures FlushOpen("\n", trimPrefix).1 == "\n"
    ensures FlushOpen("\n" + "\n", trimPrefix).1 == ""
  {
    assert IndexOf("\n", SEPARATOR) == -1;
    assert IndexOf("\n", "\n") == 0 by { assert "\n"[..1] == "\n"; }
    assert !StartsWith("\n"[..0], "data:");
    assert "\n" + "\n" == SEPARATOR && SEPARATOR[..2] == SEPARATOR && SEPARATOR[2..] == "";
    assert IndexOf(SEPARATOR, SEPARATOR) == 0;
    assert Remainder("") == "";
  }

  lemma {:induction false} RemainderSuffix(text: string) returns (k: nat)
    ensures k <= |text| && Remainder(text) == text[k..]
    decreases |text|
  {
    var i := IndexOf(text, SEPARATOR);
    if i == -1 {
      k := 0;
    } else {
      var k' := RemainderSuffix(text[i + 2..]);
      k := i + 2 + k';
      assert text[i + 2..][k'..] == text[k..];
    }
  }

  /** At the start of a line. */
  predicate LineStart(text: string) {
    text == "" || Last(text) == '\n'
  }

  // ------------------------------------------------------------- what can be brought about

  ghost predicate CanEnd(text: string, buffer: string, trimPrefix: bool) {
    exists chunks :: Flatten(chunks) == text && EndBuffer("", chunks, trimPrefix) == buffer
  }

  predicate EndsLine(text: string) {
    |text| >= 2 && Last(text) == '\n' && text[|text| - 2] != '\n'
  }

  lemma CanEndThen(text: string, buffer: string, chunk: string, trimPrefix: bool)
    requires CanEnd(text, buffer, trimPrefix)
    ensures CanEnd(text + chunk, FlushOpen(Normalize(buffer + chunk), trimPrefix).1, trimPrefix)
    ensures '\r' !in buffer
  {
    hide EndBuffer, FlushOpen, Normalize;
    var chunks :| Flatten(chunks) == text && EndBuffer("", chunks, trimPrefix) == buffer;
    FlattenSnoc(chunks, chunk);
    EndBufferSnoc("", chunks, chunk, trimPrefix);
    EndBufferClean("", chunks, trimPrefix);
  }

  lemma CanEndAtOnce(text: string, trimPrefix: bool)
    ensures CanEnd(text, FlushOpen(Normalize(text), trimPrefix).1, trimPrefix)
  {
    hide FlushOpen, Normalize;
    assert Flatten<char>([]) == "" && EndBuffer("", [], trimPrefix) == "";
    assert CanEnd("", "", trimPrefix);
    CanEndThen("", "", text, trimPrefix);
    assert "" + text == text;
  }

  lemma EndNormalized(end: string)
    requires LineEnd(end)
    ensures Normalize(end) == "\n"
  {
    if end == "\r\n" {
      CrLfToLfPair("");
      assert "\r\n" + "" == end;
      assert CrLfToLf("") == "" && CrToLf("\n") == "\n";
    } else {
      assert end[1..] == "";
      assert CrLfToLf(end) == end;
      assert CrToLf(end) == "\n";
    }
  }

  lemma LineNormalized(text: string, line: string, end: string)
    requires OneLine(line) && LineEnd(end) && !SplitsPair(text, line + end)
    ensures Normalize(text + (line + end)) == Normalize(text) + line + "\n"
  {
    hide Normalize;
    NormalizeAppend(text, line + end);
    NormalizeAfter(line, end);
    EndNormalized(end);
    AppendAssociates(Normalize(text), line, "\n");
  }

  /** A line behind a clean buffer. */
  lemma BufferLine(buffer: string, line: string, end: string)
    requires '\r' !in buffer && OneLine(line) && LineEnd(end)
    ensures Normalize(buffer + (line + end)) == buffer + line + "\n"
  {
    hide Normalize;
    LineNormalized(buffer, line, end);
    NormalizeClean(buffer);
  }

  // --------------------------------------------------------------- blank lines in a run

  lemma BlankAfterEmpty(text: string, end: string, trimPrefix: bool)
    requires CanEnd(text, "", trimPrefix) && LineEnd(end)
    ensures CanEnd(text + end, "\n", trimPrefix)
    ensures end == "\r\n" ==> CanEnd(text + end, "", trimPrefix)
  {
    hide Normalize, FlushOpen, CanEnd;
    FlushBlank(trimPrefix);
    EndNormalized(end);
    assert "" + end == end;
    CanEndThen(text, "", end, trimPrefix);
    if end == "\r\n" {
      EndNormalized("\r");
      assert "" + "\r" == "\r";
      CanEndThen(text, "", "\r", trimPrefix);
      CanEndThen(text + "\r", "\n", "\n", trimPrefix);
      NormalizeClean("\n" + "\n");
      assert (text + "\r") + "\n" == text + end;
    }
  }

  lemma BlankAfterBlank(text: string, end: string, trimPrefix: bool)
    requires CanEnd(text, "\n", trimPrefix) && LineEnd(end)
    ensures CanEnd(text + end, "", trimPrefix)
    ensures end == "\r\n" ==> CanEnd(text + end, "\n", trimPrefix)
  {
    hide Normalize, FlushOpen, CanEnd;
    FlushBlank(trimPrefix);
    BufferLine("\n", "", end);
    assert "" + end == end && "\n" + "" + "\n" == "\n" + "\n";
    CanEndThen(text, "\n", end, trimPrefix);
    if end == "\r\n" {
      BufferLine("\n", "", "\r");
      assert "" + "\r" == "\r";
      CanEndThen(text, "\n", "\r", trimPrefix);
      BlankAfterEmpty(text + "\r", "\n", trimPrefix);
      assert (text + "\r") + "\n" == text + end;
    }
  }

  lemma BlankAfterLine(text: string, end: string, trimPrefix: bool)
    requires EndsLine(Normalize(text)) && LineEnd(end) && !SplitsPair(text, end)
    ensures CanEnd(text + end, "", trimPrefix)
    ensures end == "\r\n" ==> CanEnd(text + end, "\n", trimPrefix)
  {
    hide Normalize, FlushOpen, CanEnd;
    var n := Normalize(text);
    var w, c := n[..|n| - 2], n[|n| - 2];
    assert n + "" + "\n" == w + [c] + "\n\n";
    FlushTwoEnds(w, c, trimPrefix);
    assert "" + end == end;
    LineNormalized(text, "", end);
    CanEndAtOnce(text + end, trimPrefix);
    if end == "\r\n" {
      assert "" + "\r" == "\r";
      LineNormalized(text, "", "\r");
      CanEndAtOnce(text + "\r", trimPrefix);
      BlankAfterEmpty(text + "\r", "\n", trimPrefix);
      assert (text + "\r") + "\n" == text + end;
    }
  }

  // ------------------------------------------------------------------------ cutting rows

  lemma {:induction false} CutLine(rest: string) returns (line: string, end: string, later: string)
    requires !OneLine(rest)
    ensures rest == (line + end) + later && OneLine(line) && LineEnd(end) && !SplitsPair(line + end, later)
  {
    if rest[0] == '\n' || rest[0] == '\r' {
      line := "";
      end := if StartsWithPair(rest) then "\r\n" else [rest[0]];
      later := rest[|end|..];
      assert "" + end == end;
    } else {
      line, end, later := CutLine(rest[1..]);
      var first := [rest[0]];
      assert rest == first + rest[1..];
      assert first + ((line + end) + later) == ((first + line) + end) + later;
      assert Last((first + line) + end) == Last(line + end);
      line := first + line;
    }
  }

  lemma CutRows(line: string, end: string, later: string)
    requires OneLine(line) && LineEnd(end) && !SplitsPair(line + end, later)
    ensures Rows(Marks((line + end) + later)) == [Row(line, end == "\r\n")] + Rows(Marks(later))
  {
    hide Rows, Marks;
    var c := if end == "\r\n" then '\r' else '\n';
    assert (line + end) + later == line + (end + later);
    assert Last(line + end) == Last(end);
    MarksAppend(line, end + later);
    MarksClean(line);
    MarksOfEnd(end, later);
    assert line + ([c] + Marks(later)) == line + [c] + Marks(later);
    FirstRow(line, c, Marks(later));
  }

  // ----------------------------------------------------------------- an open paragraph held

  /** The complete lines of an open run, none of them blank. */
  predicate RunText(z: string) {
    Last(Lines(z)) == "" && NoBlank(ButLast(Lines(z)))
  }

  predicate DataLineOnly(q: string) {
    q != "" && Last(q) == '\n' && OneLine(ButLast(q)) && IsData(ButLast(q))
  }

  /** What is in front of the run in the buffer: nothing, a blank line, or, at the open end of
      a text, a data line that the next flush will hand over. */
  predicate InFront(q: string, z: string, mode: Mode, open: bool) {
    match mode
    case Empty => false
    case Blank => z == "" && (q == "\n" || (open && DataLineOnly(q)))
    case Open => z != "" && ((q == "" && !IsData(Lines(z)[0])) || q == "\n" || (open && DataLineOnly(q)))
    case Early => z != "" && q == "" && IsData(Lines(z)[0])
  }

  predicate HoldsBy(
      text: string, chunks: seq<string>, rest: string, q: string, z: string, mode: Mode, p: Para, open: bool, v: View)
  {
    && Flatten(chunks) + rest == text
    && Remainder(EndBuffer("", chunks, v.trim) + Normalize(rest)) == q + z
    && RunText(z) && InFront(q, z, mode, open)
    && TakeAll(NOTHING, Lines(z), v) == p
    && (mode == Early ==> p.data == DataOf(Lines(z)[0], v.trim))
  }

  /** Some chunks, and what has come since their last flush, hold the run as an open paragraph. */
  ghost predicate Holds(text: string, mode: Mode, p: Para, open: bool, v: View) {
    exists chunks, rest, q, z :: HoldsBy(text, chunks, rest, q, z, mode, p, open, v)
  }

  predicate BufferIs(buffer: string, mode: Mode) {
    match mode
    case Empty => buffer == ""
    case Blank => buffer == "\n"
    case Open => LineStart(buffer)
    case Early => false
  }

  predicate HandedBy(text: string, chunks: seq<string>, mode: Mode, data: seq<string>, bad: bool, v: View) {
    var buffer, blocks := EndBuffer("", chunks, v.trim), Seen(Emitted("", chunks, v.trim), v);
    && Flatten(chunks) == text && BufferIs(buffer, mode) && Data(buffer, v.trim) == []
    && blocks != [] && Last(blocks) == EventBlock(data, bad)
  }

  /** Some chunks have handed the data of the run over. */
  ghost predicate HandedOver(text: string, mode: Mode, data: seq<string>, bad: bool, v: View) {
    exists chunks :: HandedBy(text, chunks, mode, data, bad, v)
  }

  /** Some chunks bring the configuration about. */
  ghost predicate Real(text: string, c: Config, data: seq<string>, open: bool, v: View) {
    && (c.mode == Open || c.mode == Early ==> EndsLine(Normalize(text)))
    && match c.handed
       case Some(b) => HandedOver(text, c.mode, data, b, v)
       case None =>
         if c.mode == Empty then CanEnd(text, "", v.trim) else Holds(text, c.mode, Para(data, c.bad), open, v)
  }

  // ------------------------------------------------------------------ facts about buffers

  lemma {:induction false} RemainderGrows(text: string, x: string)
    ensures Remainder(text + x) == Remainder(Remainder(text) + x)
    decreases |text|
  {
    hide IndexOf;
    if IndexOf(text, SEPARATOR) == -1 {
      SingleParagraph(text, false);
    } else {
      var head, rest := CutFirstParagraph(text);
      Unfold(text, head, rest, false);
      FirstParagraphExtends(text, head, rest, x);
      Unfold(text + x, head, rest + x, false);
      RemainderGrows(rest, x);
    }
  }

  lemma OpenGrows(r: string, line: string)
    requires IndexOf(r, SEPARATOR) == -1 && LineStart(r) && OneLine(line) && line != ""
    ensures Remainder(r + line + "\n") == r + line + "\n"
    ensures IndexOf(r + line + "\n", SEPARATOR) == -1
  {
    var text := r + line + "\n";
    var k := IndexOf(text, SEPARATOR);
    IndexOfFirst(r, SEPARATOR);
    IndexOfFirst(text, SEPARATOR);
    OccursAtChars(text, k);
    OccursAtChars(r, k);
    SingleParagraph(text, false);
  }

  lemma LineStartLines(z: string)
    requires Last(Lines(z)) == ""
    ensures LineStart(z)
  {
    if z != "" && Last(z) != '\n' {
      LastLineNotBlank(z);
    }
  }

  lemma RunGrows(z: string, line: string, p: Para, v: View)
    requires RunText(z) && OneLine(line) && line != "" && TakeAll(NOTHING, Lines(z), v) == p
    ensures RunText(z + line + "\n") && Lines(z + line + "\n") == ButLast(Lines(z)) + [line, ""]
    ensures TakeAll(NOTHING, Lines(z + line + "\n"), v) == Take(p, line, v)
    ensures TakeAll(NOTHING, ButLast(Lines(z)) + [line], v) == Take(p, line, v)
  {
    hide Lines, Take;
    var run := ButLast(Lines(z));
    assert Lines(z) == run + [""];
    assert z + line + "\n" == (z + line) + "\n" + "";
    LinesCut(z + line, "");
    LinesOfOne("");
    LinesResume(z, line);
    LinesOfOne(line);
    assert "" + line == line;
    assert Lines(z + line + "\n") == run + [line] + [""];
    assert ButLast(run + [line] + [""]) == run + [line];
    TakeAllAppend(NOTHING, run, [""], v);
    TakeOne(TakeAll(NOTHING, run, v), "", v);
    TakeBlank(TakeAll(NOTHING, run, v), v);
    TakeAllAppend(NOTHING, run, [line], v);
    TakeOne(TakeAll(NOTHING, run, v), line, v);
    TakeAllAppend(NOTHING, run + [line], [""], v);
    TakeOne(Take(p, line, v), "", v);
    TakeBlank(Take(p, line, v), v);
  }

  lemma FirstOfRun(z: string, line: string)
    requires RunText(z) && OneLine(line) && line != ""
    ensures Lines(z + line + "\n")[0] == if z == "" then line else Lines(z)[0]
  {
    hide Lines;
    RunGrows(z, line, TakeAll(NOTHING, Lines(z), View(false, false)), View(false, false));
    if z == "" {
      LinesOfOne("");
    } else {
      RunNotBare(z);
    }
  }

  lemma RunNotBare(z: string)
    requires z != "" && Last(Lines(z)) == ""
    ensures ButLast(Lines(z)) != []
  {
    LinesSplit(z);
    assert Join([""], "\n") == "";
    assert |Lines(z)| == 1 ==> Lines(z) == [""];
  }

  lemma NothingRun(v: View)
    ensures RunText("") && TakeAll(NOTHING, Lines(""), v) == NOTHING
  {
    LinesOfOne("");
    TakeOne(NOTHING, "", v);
    TakeBlank(NOTHING, v);
  }

  lemma RemainderLine(buffer: string, rest: string, r: string, line: string, end: string)
    requires OneLine(line) && line != "" && LineEnd(end) && !SplitsPair(rest, line + end)
    requires Remainder(buffer + Normalize(rest)) == r && LineStart(r)
    ensures Remainder(buffer + Normalize(rest + (line + end))) == r + line + "\n"
  {
    hide Normalize, Remainder;
    var w := buffer + Normalize(rest);
    LineNormalized(rest, line, end);
    assert buffer + (Normalize(rest) + line + "\n") == w + (line + "\n");
    RemainderGrows(w, line + "\n");
    RemainderOpen(w);
    OpenGrows(r, line);
    assert r + (line + "\n") == r + line + "\n";
  }

  lemma FrontGrows(q: string, z: string, mode: Mode, open: bool, line: string)
    requires InFront(q, z, mode, open) && RunText(z) && OneLine(line) && line != ""
    ensures InFront(q, z + line + "\n", if mode == Blank then Open else mode, open) && LineStart(q + z)
    ensures mode == Early ==> Lines(z + line + "\n")[0] == Lines(z)[0]
  {
    hide Lines, IsData;
    FirstOfRun(z, line);
    LineStartLines(z);
  }

  /** A line of the run comes in behind the last flush. */
  lemma HoldsGrows(
      text: string, chunks: seq<string>, rest: string, q: string, z: string, mode: Mode, p: Para, open: bool,
      line: string, end: string, v: View)
    requires HoldsBy(text, chunks, rest, q, z, mode, p, open, v)
    requires OneLine(line) && line != "" && LineEnd(end) && !SplitsPair(text, line + end)
    requires mode == Early ==> !IsData(line)
    ensures HoldsBy(text + (line + end), chunks, rest + (line + end), q, z + line + "\n",
                    if mode == Blank then Open else mode, Take(p, line, v), open, v)
  {
    hide Lines, Normalize, EndBuffer, Remainder, IsData, DataOf, Named, InFront, RunText, TakeAll;
    AppendAssociates(Flatten(chunks), rest, line + end);
    assert !SplitsPair(rest, line + end) by { assert rest != "" ==> Last(rest) == Last(text); }
    FrontGrows(q, z, mode, open, line);
    RemainderLine(EndBuffer("", chunks, v.trim), rest, q + z, line, end);
    assert q + z + line + "\n" == q + (z + line + "\n");
    RunGrows(z, line, p, v);
    DataLine(line, v);
    if mode == Early {
      assert p.data + [] == p.data;
    }
  }

  /** The first line of a run behind an empty buffer. */
  lemma HoldsFirst(text: string, chunks: seq<string>, line: string, end: string, v: View)
    requires Flatten(chunks) == text && EndBuffer("", chunks, v.trim) == ""
    requires OneLine(line) && line != "" && LineEnd(end)
    ensures HoldsBy(text + (line + end), chunks, line + end, "", line + "\n",
                    if IsData(line) then Early else Open, Take(NOTHING, line, v), false, v)
  {
    hide Lines, Normalize, EndBuffer, Remainder, IsData, DataOf, Named;
    BufferLine("", line, end);
    assert "" + (line + end) == line + end && "" + line + "\n" == line + "\n" && "" + (line + "\n") == line + "\n";
    NothingRun(v);
    NoSeparatorInEmpty();
    OpenGrows("", line);
    RunGrows("", line, NOTHING, v);
    FirstOfRun("", line);
    assert [] + DataOf(line, v.trim) == DataOf(line, v.trim);
  }

  lemma NoSeparatorInEmpty()
    ensures IndexOf("", SEPARATOR) == -1
  {
  }

  /** A data line in an empty buffer that the next flush will hand over, in front of nothing. */
  lemma HoldsBehind(text: string, chunks: seq<string>, line: string, end: string, v: View)
    requires Flatten(chunks) == text && EndBuffer("", chunks, v.trim) == ""
    requires OneLine(line) && IsData(line) && LineEnd(end)
    ensures HoldsBy(text + (line + end), chunks, line + end, line + "\n", "", Blank, NOTHING, true, v)
  {
    hide Lines, Normalize, EndBuffer, Remainder, IsData;
    NotBlank(line);
    BufferLine("", line, end);
    assert "" + (line + end) == line + end && "" + line + "\n" == line + "\n" && "" + (line + "\n") == line + "\n";
    NoSeparatorInEmpty();
    OpenGrows("", line);
    NothingRun(v);
    assert ButLast(line + "\n") == line && line + "\n" + "" == line + "\n";
  }

  lemma HoldsBlank(text: string, v: View)
    requires CanEnd(text, "\n", v.trim)
    ensures Holds(text, Blank, NOTHING, false, v)
  {
    hide Lines, Normalize, EndBuffer;
    var chunks :| Flatten(chunks) == text && EndBuffer("", chunks, v.trim) == "\n";
    NormalizeClean("");
    NothingRun(v);
    assert text + "" == text && "\n" + "" == "\n";
    assert Remainder("\n") == "\n" by { NothingRemains(); }
    assert HoldsBy(text, chunks, "", "\n", "", Blank, NOTHING, false, v);
  }

  lemma NothingRemains()
    ensures Remainder("\n") == "\n"
  {
    IndexOfFirst("\n", SEPARATOR);
    SingleParagraph("\n", false);
  }

  lemma BlankCanEnd(text: string, p: Para, v: View)
    requires Holds(text, Blank, p, false, v)
    ensures CanEnd(text, "\n", v.trim)
  {
    hide Lines, Normalize, EndBuffer, Remainder, EarlyLine;
    var chunks, rest, q, z :| HoldsBy(text, chunks, rest, q, z, Blank, p, false, v);
    assert q + z == "\n";
    var buffer := EndBuffer("", chunks, v.trim);
    EndBufferClean("", chunks, v.trim);
    NormalizeAfter(buffer, rest);
    assert FlushOpen(buffer + Normalize(rest), v.trim).1 == EarlyRest("\n");
    assert EarlyRest("\n") == "\n" by { NothingEarly(); }
    EndBufferSnoc("", chunks, rest, v.trim);
    FlattenSnoc(chunks, rest);
  }

  lemma NothingEarly()
    ensures EarlyRest("\n") == "\n"
  {
    FlushBlank(false);
    NothingRemains();
  }
}
