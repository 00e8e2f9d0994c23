/** Exactly the texts that pass the scan of EventStreamScan are read alike for every
    chunking: where the scan fails, two ways to go on from what can be brought about differ. */
module EventStreamExact {
  import opened Text
  import opened EventStream
  import opened EventStreamTheorems
  import opened EventStreamBoundaries
  import opened EventStreamPairs
  import opened EventStreamRows
  import opened EventStreamScan
  import opened EventStreamCuts
  import opened EventStreamSteady
  import opened EventStreamChunkings
  import opened EventStreamReached

  // --------------------------------------------------------------- blocks and their places

  function DataLength(blocks: seq<EventBlock>): nat {
    |Flatten(PartsOf(blocks))|
  }

  lemma DataLengthAppend(a: seq<EventBlock>, b: seq<EventBlock>)
    ensures DataLength(a + b) == DataLength(a) + DataLength(b)
  {
    PartsOfAppend(a, b);
  }

  lemma SeenData(blocks: seq<EventBlock>, v: View)
    ensures DataLength(Seen(blocks, v)) == DataLength(blocks)
    ensures Full(blocks) ==> Full(Seen(blocks, v))
  {
    assert PartsOf(Seen(blocks, v)) == PartsOf(blocks);
  }

  /** Some chunks of the text yield the block behind `n` data contents. */
  ghost predicate ResultAt(text: string, n: int, block: EventBlock, v: View) {
    exists chunks, before, after ::
      Flatten(chunks) == text && DataLength(before) == n
      && Seen(ParseEvents("", chunks, "", v.trim), v) == before + [block] + after
  }

  /** The chunks do not give what the text gives as one chunk. */
  predicate Witness(text: string, chunks: seq<string>, v: View) {
    && Flatten(chunks) == text
    && Seen(ParseEvents("", chunks, "", v.trim), v) != Seen(ParseEvents("", [text], "", v.trim), v)
  }

  /** In one list of blocks a place holds one block. */
  lemma OneBlockAt(
      a: seq<EventBlock>, block: EventBlock, a': seq<EventBlock>,
      b: seq<EventBlock>, block': EventBlock, b': seq<EventBlock>)
    requires a + [block] + a' == b + [block'] + b' && DataLength(a) == DataLength(b)
    requires Full(a + [block] + a')
    ensures block == block'
  {
    var all := a + [block] + a';
    if |a| < |b| {
      ShorterBefore(all, a, block, a', b, block', b');
    } else if |b| < |a| {
      ShorterBefore(all, b, block', b', a, block, a');
    } else {
      assert all[|a|] == block && (b + [block'] + b')[|b|] == block';
    }
  }

  lemma ShorterBefore(
      all: seq<EventBlock>, a: seq<EventBlock>, block: EventBlock, a': seq<EventBlock>,
      b: seq<EventBlock>, block': EventBlock, b': seq<EventBlock>)
    requires all == a + [block] + a' == b + [block'] + b' && |a| < |b| && Full(all)
    ensures DataLength(a) < DataLength(b)
  {
    hide DataLength;
    var middle := b[|a|..];
    assert b == all[..|b|] && a == all[..|a|];
    assert b == a + middle;
    DataLengthAppend(a, middle);
    assert middle[0] == all[|a|];
    assert DataLength(middle) > 0 by { SomeData(middle); }
  }

  lemma SomeData(blocks: seq<EventBlock>)
    requires blocks != [] && blocks[0].parts != []
    ensures DataLength(blocks) > 0
  {
    FirstBlockData(blocks);
  }

  /** Two chunkings that differ at one place: one of them is not like the whole. */
  lemma Conflict(text: string, n: int, block: EventBlock, block': EventBlock, v: View) returns (chunks: seq<string>)
    requires ResultAt(text, n, block, v) && ResultAt(text, n, block', v) && block != block'
    ensures Witness(text, chunks, v)
  {
    hide ParseEvents, DataLength, Seen, Full;
    var first, a, a' :| Flatten(first) == text && DataLength(a) == n
      && Seen(ParseEvents("", first, "", v.trim), v) == a + [block] + a';
    var second, b, b' :| Flatten(second) == text && DataLength(b) == n
      && Seen(ParseEvents("", second, "", v.trim), v) == b + [block'] + b';
    if Seen(ParseEvents("", first, "", v.trim), v) == Seen(ParseEvents("", second, "", v.trim), v) {
      RunFull("", first, "", v.trim);
      SeenData(ParseEvents("", first, "", v.trim), v);
      OneBlockAt(a, block, a', b, block', b');
      assert false;
    }
    chunks := if Seen(ParseEvents("", first, "", v.trim), v) != Seen(ParseEvents("", [text], "", v.trim), v)
              then first else second;
  }

  // ------------------------------------------------------------------- one more chunk

  lemma DataBehind(text: string, later: string, trimPrefix: bool)
    requires LineStart(Normalize(text)) && !SplitsPair(text, later)
    ensures Data(Normalize(text + later), trimPrefix)
         == Data(Normalize(text), trimPrefix) + Data(Normalize(later), trimPrefix)
  {
    hide Normalize, Data;
    NormalizeAppend(text, later);
    var n, m := Normalize(text), Normalize(later);
    EmptyData(trimPrefix);
    if n == "" {
      assert n + m == m && [] + Data(m, trimPrefix) == Data(m, trimPrefix);
    } else {
      var w := ButLast(n);
      assert n == w + "\n" + "" && n + m == w + "\n" + m;
      DataCut(w, "", trimPrefix);
      DataCut(w, m, trimPrefix);
    }
  }

  /** The rest of a text as one more chunk. */
  lemma LastOnce(chunks: seq<string>, rest: string, v: View)
    ensures var buffer := EndBuffer("", chunks, v.trim);
            Seen(ParseEvents("", chunks + [rest], "", v.trim), v)
            == Seen(Emitted("", chunks, v.trim), v) + Once(buffer + Normalize(rest), v)
  {
    hide Normalize, FlushOpen, FlushDone, Seen, EndBuffer, Emitted;
    var buffer := EndBuffer("", chunks, v.trim);
    EndBufferClean("", chunks, v.trim);
    NormalizeAfter(buffer, rest);
    NormalizeClean(rest);
    var text := buffer + Normalize(rest);
    var (blocks, left) := FlushOpen(text, v.trim);
    RunSplit("", chunks + [rest], "", v.trim);
    EmittedSnoc("", chunks, rest, v.trim);
    EndBufferSnoc("", chunks, rest, v.trim);
    FlushOpenClean(text, v.trim);
    NormalizeClean(left);
    assert left + "" == left;
    var done := FlushDone(left, v.trim);
    SeenAppend(Emitted("", chunks, v.trim) + blocks, done, v);
    SeenAppend(Emitted("", chunks, v.trim), blocks, v);
    AppendAssociates(Seen(Emitted("", chunks, v.trim), v), Seen(blocks, v), Seen(done, v));
  }

  lemma {:induction false} OncePrefix(text: string, x: string, v: View)
    ensures Once(text + x, v) == Seen(CompleteBlocks(text, v.trim), v) + Once(Remainder(text) + x, v)
    decreases |text|
  {
    hide IndexOf, Once, Seen, BlockEvents;
    if IndexOf(text, SEPARATOR) == -1 {
      SingleParagraph(text, v.trim);
      SeenNothing(v);
      assert [] + Once(text + x, v) == Once(text + x, v);
    } else {
      var head, rest := CutFirstParagraph(text);
      hide CompleteBlocks, Remainder;
      FirstParagraphExtends(text, head, rest, x);
      OnceParagraph(text + x, head, rest + x, v);
      Unfold(text, head, rest, v.trim);
      OncePrefix(rest, x, v);
      SeenAppend(BlockEvents(head, v.trim), CompleteBlocks(rest, v.trim), v);
      AppendAssociates(Seen(BlockEvents(head, v.trim), v), Seen(CompleteBlocks(rest, v.trim), v),
                       Once(Remainder(rest) + x, v));
    }
  }

  /** What was handed over is a message of its own. */
  lemma FromHanded(text: string, mode: Mode, data: seq<string>, bad: bool, later: string, v: View)
    requires HandedOver(text, mode, data, bad, v)
    ensures ResultAt(text + later, |Data(Normalize(text), v.trim)| - |data|, EventBlock(data, bad), v)
  {
    hide Normalize, EndBuffer, Emitted, Data, Once, DataLength, ParseEvents;
    var chunks :| HandedBy(text, chunks, mode, data, bad, v);
    var blocks, block := Seen(Emitted("", chunks, v.trim), v), EventBlock(data, bad);
    var before, after := ButLast(blocks), Once(EndBuffer("", chunks, v.trim) + Normalize(later), v);
    LastOnce(chunks, later, v);
    FlattenSnoc(chunks, later);
    assert blocks == before + [block];
    DataLengthAppend(before, [block]);
    OneBlockData(block);
    SeenData(Emitted("", chunks, v.trim), v);
    EmittedData(chunks, v.trim);
    assert DataLength(Emitted("", chunks, v.trim)) == |Data(Normalize(text), v.trim)| by {
      DataLengthIs(Emitted("", chunks, v.trim));
    }
    assert Seen(ParseEvents("", chunks + [later], "", v.trim), v) == before + [block] + after;
  }

  lemma DataLengthIs(blocks: seq<EventBlock>)
    ensures DataLength(blocks) == |Flatten(PartsOf(blocks))|
  {
  }

  lemma OneBlockData(block: EventBlock)
    ensures DataLength([block]) == |block.parts|
  {
    FirstBlockData([block]);
    NoParts();
    assert [block][1..] == [];
  }

  // ----------------------------------------------------------- how a held run is read on

  /** The lines up to the first blank line that ends them. */
  function RunOf(lines: seq<string>): seq<string>
    requires lines != []
    decreases |lines|
  {
    if |lines| == 1 then lines
    else if lines[0] == "" then []
    else [lines[0]] + RunOf(lines[1..])
  }

  lemma {:induction false} RunBehind(run: seq<string>, lines: seq<string>)
    requires NoBlank(run) && lines != []
    ensures RunOf(run + lines) == run + RunOf(lines)
    ensures OpenEnd(run + lines) <==> OpenEnd(lines)
    decreases |run|
  {
    if run == [] {
      assert run + lines == lines && run + RunOf(lines) == RunOf(lines);
    } else {
      var all := run + lines;
      assert all[0] == run[0] && all[1..] == run[1..] + lines;
      assert NoBlank(run[1..]) by {
        forall i | 0 <= i < |run[1..]| ensures run[1..][i] != "" { assert run[1..][i] == run[i + 1]; }
      }
      RunBehind(run[1..], lines);
      OpenEndMore(run[0], run[1..] + lines);
      assert all == [run[0]] + (run[1..] + lines);
    }
  }

  lemma OpenEndMore(line: string, rest: seq<string>)
    requires line != "" && rest != []
    ensures OpenEnd([line] + rest) <==> OpenEnd(rest)
  {
    if OpenEnd(rest) {
      forall i | 0 <= i < |rest| ensures ([line] + rest)[i] != "" {
        if i > 0 { assert ([line] + rest)[i] == rest[i - 1]; }
      }
    } else {
      var i :| 0 <= i < |rest| - 1 && rest[i] == "";
      assert ([line] + rest)[i + 1] == "";
    }
  }

  /** The run that is read first is one message, unless its first line is handed over early. */
  lemma {:induction false} RestBegins(lines: seq<string>, mode: Mode, p: Para, v: View)
    returns (after: seq<EventBlock>)
    requires lines != [] && (mode == Early ==> !OpenEnd(lines))
    requires mode == Empty && IsData(lines[0]) && |lines| > 1 ==> !OpenEnd(lines)
    ensures Rest(lines, mode, p, v) == Emit(TakeAll(p, RunOf(lines), v)) + after
    decreases |lines|
  {
    hide IsData, Take, Emit, OpenEnd;
    if |lines| == 1 {
      assert OpenEnd(lines) by { OneOpen(lines); }
      assert lines == [lines[0]];
      TakeOne(p, lines[0], v);
      after := [];
      assert Emit(Take(p, lines[0], v)) + [] == Emit(Take(p, lines[0], v));
    } else if lines[0] == "" {
      after := Rest(lines[1..], AfterBlank(mode), NOTHING, v);
    } else {
      assert lines == [lines[0]] + lines[1..];
      OpenEndMore(lines[0], lines[1..]);
      after := RestBegins(lines[1..], Onward(mode, lines[0]), Take(p, lines[0], v), v);
      assert RunOf(lines)[1..] == RunOf(lines[1..]);
    }
  }

  lemma OneOpen(lines: seq<string>)
    requires |lines| == 1
    ensures OpenEnd(lines)
  {
  }

  lemma LinesBehind(z: string, later: string)
    requires Last(Lines(z)) == ""
    ensures Lines(z + later) == ButLast(Lines(z)) + Lines(later)
  {
    hide Lines;
    LinesResume(z, later);
    assert "" + later == later;
  }

  /** The buffer in front of a run, read on: the run is a message behind some others. */
  lemma HeldBegins(q: string, z: string, mode: Mode, p: Para, open: bool, later: string, v: View)
    returns (before: seq<EventBlock>, after: seq<EventBlock>)
    requires RunText(z) && InFront(q, z, mode, open) && TakeAll(NOTHING, Lines(z), v) == p
    requires OpenEnd(Lines(later)) == open && (mode == Early ==> !open)
    ensures var run := Emit(TakeAll(p, RunOf(Lines(later)), v));
            && Rest(Lines(q + z + later), Empty, NOTHING, v) == before + (run + after)
            && DataLength(run + after) == |p.data| + |Data(later, v.trim)|
  {
    hide Lines, Rest, Take, TakeAll, Emit, IsData, DataOf, OpenEnd, NoBlank, Data, RunOf, InFront;
    var run, tail := ButLast(Lines(z)), Lines(later);
    var lines := run + tail;
    LinesBehind(z, later);
    RunBehind(run, tail);
    RunTaken(z, RunOf(tail), p, v);
    RunData(z, p, tail, v);
    FirstBehind(z, later, mode);
    var mode2 := if q == "" then Empty else Blank;
    assert mode2 == Empty && IsData(lines[0]) && |lines| > 1 ==> !OpenEnd(lines) by { FrontFirst(q, z, mode, open); }
    after := RestBegins(lines, mode2, NOTHING, v);
    var all := Rest(lines, mode2, NOTHING, v);
    before := FrontRest(q, z + later, z, mode, open, v);
    assert q + z + later == q + (z + later);
    RestData(lines, mode2, NOTHING, v);
    DataLengthIs(all);
    assert NOTHING.data + DataParts(lines, v.trim) == DataParts(lines, v.trim);
    DataIs(later, v.trim);
  }

  lemma DataIs(text: string, trimPrefix: bool)
    ensures Data(text, trimPrefix) == DataParts(Lines(text), trimPrefix)
  {
  }

  lemma RunTaken(z: string, more: seq<string>, p: Para, v: View)
    requires RunText(z) && TakeAll(NOTHING, Lines(z), v) == p
    ensures TakeAll(NOTHING, ButLast(Lines(z)) + more, v) == TakeAll(p, more, v)
  {
    hide Lines, Take;
    var run := ButLast(Lines(z));
    assert Lines(z) == run + [""];
    TakeAllAppend(NOTHING, run, [""], v);
    TakeOne(TakeAll(NOTHING, run, v), "", v);
    TakeBlank(TakeAll(NOTHING, run, v), v);
    TakeAllAppend(NOTHING, run, more, v);
  }

  lemma RunData(z: string, p: Para, tail: seq<string>, v: View)
    requires RunText(z) && TakeAll(NOTHING, Lines(z), v) == p
    ensures DataParts(ButLast(Lines(z)) + tail, v.trim) == p.data + DataParts(tail, v.trim)
  {
    hide Lines, Take, DataOf;
    var run := ButLast(Lines(z));
    RunTaken(z, [], p, v);
    assert run + [] == run;
    TakeAllData(NOTHING, run, v);
    assert NOTHING.data + DataParts(run, v.trim) == DataParts(run, v.trim);
    DataPartsAppend(run, tail, v.trim);
  }

  lemma FirstBehind(z: string, later: string, mode: Mode)
    requires RunText(z)
    ensures z != "" ==> (ButLast(Lines(z)) + Lines(later))[0] == Lines(z)[0]
  {
    if z != "" {
      RunNotBare(z);
    }
  }

  lemma FrontFirst(q: string, z: string, mode: Mode, open: bool)
    requires InFront(q, z, mode, open)
    ensures q == "" ==> z != "" && (IsData(Lines(z)[0]) <==> mode == Early)
  {
  }

  /** What is in front of the run: a blank line, or a data line that is handed over. */
  lemma FrontRest(q: string, text: string, z: string, mode: Mode, open: bool, v: View)
    returns (before: seq<EventBlock>)
    requires InFront(q, z, mode, open) && (OpenEnd(Lines(text)) <==> open)
    ensures Rest(Lines(q + text), Empty, NOTHING, v)
         == before + Rest(Lines(text), if q == "" then Empty else Blank, NOTHING, v)
  {
    hide Lines, Rest, Emit, IsData, DataOf, OpenEnd;
    before := [];
    if q == "" {
      assert q + text == text;
    } else if q == "\n" {
      assert q + text == "" + "\n" + text;
      LinesCut("", text);
      LinesOfOne("");
      RestBlank(Lines(text), Empty, NOTHING, v);
      NothingEmitted();
    } else {
      var line := ButLast(q);
      assert q + text == line + "\n" + text;
      LinesCut(line, text);
      LinesOfOne(line);
      NotBlank(line);
      OpenEndMore(line, Lines(text));
      ForcedRest(line, Lines(text), v);
      before := [EventBlock(DataOf(line, v.trim), false)];
    }
  }

  /** A held run is a message where the rest of the text arrives at once. */
  lemma FromHeld(text: string, mode: Mode, p: Para, open: bool, later: string, v: View)
    requires Holds(text, mode, p, open, v) && LineStart(Normalize(text)) && !SplitsPair(text, later)
    requires OpenEnd(Lines(Normalize(later))) == open && (mode == Early ==> !open)
    requires TakeAll(p, RunOf(Lines(Normalize(later))), v).data != []
    ensures var p' := TakeAll(p, RunOf(Lines(Normalize(later))), v);
            ResultAt(text + later, |Data(Normalize(text), v.trim)| - |p.data|, EventBlock(p'.data, p'.bad), v)
  {
    hide Lines, Normalize, EndBuffer, Emitted, Remainder, CompleteBlocks, RunText, InFront, TakeAll, RunOf, Rest, Once,
         Data, DataLength, ParseEvents, Seen, OpenEnd;
    var chunks, rest, q, z :| HoldsBy(text, chunks, rest, q, z, mode, p, open, v);
    var buffer, m := EndBuffer("", chunks, v.trim), Normalize(later);
    var w, p' := buffer + Normalize(rest), TakeAll(p, RunOf(Lines(m)), v);
    var block := EventBlock(p'.data, p'.bad);
    assert !SplitsPair(rest, later) by { assert rest != "" ==> Last(rest) == Last(text); }
    NormalizeAppend(rest, later);
    assert buffer + (Normalize(rest) + m) == w + m;
    LastOnce(chunks, rest + later, v);
    OncePrefix(w, m, v);
    HeldClean(chunks, rest, later, v);
    OnceIsRest(q + z + m, v);
    var x, after := HeldBegins(q, z, mode, p, open, m, v);
    assert Emit(p') == [block];
    HeldResult(text, later, chunks + [rest + later], Seen(Emitted("", chunks, v.trim), v),
               Seen(CompleteBlocks(w, v.trim), v), x, block, after, |p.data|, v) by {
      FlattenSnoc(chunks, rest + later);
      AppendAssociates(Flatten(chunks), rest, later);
    }
  }

  lemma HeldClean(chunks: seq<string>, rest: string, later: string, v: View)
    ensures '\r' !in Remainder(EndBuffer("", chunks, v.trim) + Normalize(rest)) + Normalize(later)
  {
    hide Normalize, EndBuffer, Remainder;
    EndBufferClean("", chunks, v.trim);
    NormalizeClean(rest);
    NormalizeClean(later);
    RemainderClean(EndBuffer("", chunks, v.trim) + Normalize(rest));
  }

  lemma HeldResult(
      text: string, later: string, chunks: seq<string>, a: seq<EventBlock>, b: seq<EventBlock>, c: seq<EventBlock>,
      block: EventBlock, after: seq<EventBlock>, count: nat, v: View)
    requires LineStart(Normalize(text)) && !SplitsPair(text, later) && Flatten(chunks) == text + later
    requires Seen(ParseEvents("", chunks, "", v.trim), v) == a + (b + (c + ([block] + after)))
    requires DataLength([block] + after) == count + |Data(Normalize(later), v.trim)|
    ensures ResultAt(text + later, |Data(Normalize(text), v.trim)| - count, block, v)
  {
    hide Normalize, Data, DataLength, ParseEvents, Seen;
    var all, before := ParseEvents("", chunks, "", v.trim), a + b + c;
    assert Seen(all, v) == before + ([block] + after) == before + [block] + after;
    DataLengthAppend(before, [block] + after);
    SeenData(all, v);
    DataLengthIs(all);
    EventDataConserved(chunks, "", v.trim);
    assert Flatten(chunks) + "" == text + later;
    DataBehind(text, later, v.trim);
  }

  /** The last line of a text in an empty buffer. */
  lemma FromEmpty(text: string, line: string, v: View)
    requires CanEnd(text, "", v.trim) && LineStart(Normalize(text)) && !SplitsPair(text, line)
    requires OneLine(line) && IsData(line)
    ensures ResultAt(text + line, |Data(Normalize(text), v.trim)|, EventBlock(DataOf(line, v.trim), false), v)
  {
    hide Normalize, EndBuffer, Emitted, Data, DataLength, DataOf, IsData, Seen, Once, ResultAt, ParseEvents;
    var chunks :| Flatten(chunks) == text && EndBuffer("", chunks, v.trim) == "";
    var block := EventBlock(DataOf(line, v.trim), false);
    LastOnce(chunks, line, v);
    NormalizeClean(line);
    assert "" + line == line;
    DataLineOnce(line, v);
    FlattenSnoc(chunks, line);
    var a := Seen(Emitted("", chunks, v.trim), v);
    NothingAround(a, [block]);
    OneBlockData(block);
    OneLineData(line, v.trim);
    HeldResult(text, line, chunks + [line], a, [], [], block, [], 0, v);
  }

  lemma NothingAround(a: seq<EventBlock>, b: seq<EventBlock>)
    ensures a + b == a + ([] + ([] + (b + []))) && b + [] == b
  {
  }

  lemma DataLineOnce(line: string, v: View)
    requires OneLine(line) && IsData(line)
    ensures Once(line, v) == [EventBlock(DataOf(line, v.trim), false)]
  {
    hide DataOf, IsData, Lines, Seen, Once;
    OnceIsRest(line, v);
    LinesOfOne(line);
    DataLine(line, v);
    NamedData(line, v);
    assert [] + DataOf(line, v.trim) == DataOf(line, v.trim);
    assert Take(NOTHING, line, v) == Para(DataOf(line, v.trim), false);
  }

  // --------------------------------------------------------------- all the scan holds

  /** Some configuration still holds the run's data, and will not hand it over early. */
  predicate Live(configs: set<Config>, open: bool) {
    exists c | c in configs :: c.handed.None? && (c.mode != Early || !open)
  }

  /** What the scan holds behind a text can be brought about. `lines` are those to come. */
  ghost predicate Reached(text: string, lines: seq<string>, configs: set<Config>, data: seq<string>, v: View)
    requires lines != []
  {
    && LineStart(Normalize(text)) && AllFit(configs, data != []) && Live(configs, OpenEnd(lines))
    && forall c | c in configs :: Real(text, c, data, OpenEnd(lines), v)
  }

  lemma StartReached(lines: seq<string>, v: View)
    requires lines != []
    ensures Reached("", lines, {EMPTY}, [], v)
  {
    StartFits();
    assert Normalize("") == "";
    assert Flatten<char>([]) == "" && EndBuffer("", [], v.trim) == "";
    assert CanEnd("", "", v.trim);
    assert EMPTY in {EMPTY};
  }

  lemma LineStartsAfter(text: string, line: string, end: string)
    requires Arrives(text, line, end)
    ensures LineStart(Normalize(text + (line + end)))
  {
    hide Normalize;
    LineNormalized(text, line, end);
  }

  lemma BlankReached(
      text: string, end: string, lines: seq<string>, configs: set<Config>, data: seq<string>, v: View)
    requires lines != [] && Reached(text, [""] + lines, configs, data, v) && Arrives(text, "", end)
    ensures Reached(text + ("" + end), lines, Next(configs, Row("", end == "\r\n"), data != [], v), [], v)
  {
    hide Normalize, Real, IsData, Fit, Stay, Cut;
    var row := Row("", end == "\r\n");
    var next, open := Next(configs, row, data != [], v), OpenEnd(lines);
    assert "" + end == end;
    BlankIsNoData();
    assert !OpenEnd([""] + lines) by { assert ([""] + lines)[0] == ""; }
    NextFits(configs, row, data != [], v);
    LineStartsAfter(text, "", end);
    forall c' | c' in next ensures Real(text + end, c', [], open, v) {
      var c := NextMember(c', configs, row, data != [], v);
      BlankReal(text, c, data, end, c', open, data != [], v);
    }
    var c0 :| c0 in configs;
    StayNext(c0, configs, row, data != [], v);
    BlankLive(c0, next, open, v);
  }

  lemma BlankLive(c: Config, next: set<Config>, open: bool, v: View)
    requires Stay(c, "", v) in next
    ensures Live(next, open)
  {
  }

  lemma LineReached(
      text: string, line: string, end: string, lines: seq<string>, configs: set<Config>, data: seq<string>, v: View)
    requires lines != [] && Reached(text, [line] + lines, configs, data, v) && Arrives(text, line, end) && line != ""
    requires !Breaks(configs, line, data != [])
    requires !(IsData(line) && OpenEnd([line] + lines) && configs == {EMPTY})
    ensures Reached(text + (line + end), lines, Next(configs, Row(line, end == "\r\n"), data != [], v),
                    data + DataOf(line, v.trim), v)
  {
    hide Normalize, Real, IsData, DataOf, Named, OpenEnd;
    var row, data' := Row(line, end == "\r\n"), data + DataOf(line, v.trim);
    var next, open := Next(configs, row, data != [], v), OpenEnd(lines);
    OpenEndMore(line, lines);
    DataLine(line, v);
    NextFits(configs, row, data != [], v);
    LineStartsAfter(text, line, end);
    forall c' | c' in next ensures Real(text + (line + end), c', data', open, v) {
      var c := NextMember(c', configs, row, data != [], v);
      FitIn(c, configs, data != []);
      QuietBehind(configs, c, line, data != []);
      SuccReal(text, c, data, open, line, end, c', v);
    }
    LineLive(configs, row, data != [], open, v);
  }

  lemma QuietBehind(configs: set<Config>, c: Config, line: string, seen: bool)
    requires AllFit(configs, seen) && c in configs && !Breaks(configs, line, seen)
    ensures c.handed.Some? || c.mode == Early ==> !IsData(line)
  {
    assert Fit(c, seen);
    if c.mode == Early {
      var h :| h in configs && h.handed == Some(false);
    }
  }

  lemma LineLive(configs: set<Config>, row: Row, seen: bool, open: bool, v: View)
    requires AllFit(configs, seen) && Live(configs, open) && row.line != ""
    requires !(IsData(row.line) && open && configs == {EMPTY})
    ensures Live(Next(configs, row, seen, v), open)
  {
    hide IsData, Named;
    var next := Next(configs, row, seen, v);
    var c :| c in configs && c.handed.None? && (c.mode != Early || !open);
    StayNext(c, configs, row, seen, v);
    assert Fit(c, seen);
    if open && c.mode == Empty && IsData(row.line) {
      assert c == EMPTY && !seen;
      var d :| d in configs && d != EMPTY;
      assert Fit(d, seen);
      StayNext(d, configs, row, seen, v);
      assert Stay(d, row.line, v).mode == Open;
    } else {
      assert Stay(c, row.line, v).mode != Early || !open;
    }
  }

  /** A data line that always finds the buffer empty has been handed over, or will be by the
      next flush: in both cases the run starts behind it. */
  lemma ForcedReached(
      text: string, line: string, end: string, lines: seq<string>, data: seq<string>, v: View)
    requires lines != [] && Reached(text, [line] + lines, {EMPTY}, data, v) && Arrives(text, line, end)
    requires IsData(line) && OpenEnd([line] + lines)
    ensures Reached(text + (line + end), lines, {EMPTY, BLANK}, [], v)
  {
    hide Normalize, IsData, OpenEnd, Real;
    NotBlank(line);
    OpenEndMore(line, lines);
    LineStartsAfter(text, line, end);
    StartFits();
    assert EMPTY in {EMPTY} && Fit(EMPTY, data != []) && data == [];
    ForcedReal(text, line, end, v);
    assert EMPTY in {EMPTY, BLANK};
  }

  lemma ForcedReal(text: string, line: string, end: string, v: View)
    requires Real(text, EMPTY, [], true, v) && Arrives(text, line, end) && IsData(line)
    ensures Real(text + (line + end), EMPTY, [], true, v) && Real(text + (line + end), BLANK, [], true, v)
  {
    hide Normalize, EndBuffer, IsData, DataOf, HoldsBy, HandedOver;
    HandedReal(text, EMPTY, [], true, line, end, v);
    var chunks :| Flatten(chunks) == text && EndBuffer("", chunks, v.trim) == "";
    HoldsBehind(text, chunks, line, end, v);
    assert Holds(text + (line + end), Blank, NOTHING, true, v);
  }

  // ------------------------------------------------------------------- where the scan fails

  /** At a blank line each configuration makes the run a message. */
  lemma ClosedAt(text: string, c: Config, data: seq<string>, later: string, v: View)
    requires LineStart(Normalize(text)) && !SplitsPair(text, later) && data != [] && Fit(c, true)
    requires Real(text, c, data, false, v)
    requires |Lines(Normalize(later))| > 1 && Lines(Normalize(later))[0] == ""
    ensures ResultAt(text + later, |Data(Normalize(text), v.trim)| - |data|, EventBlock(data, ClosesAsError(c)), v)
  {
    hide Lines, Normalize, Data, Holds, HandedOver, ResultAt, EndsLine;
    var lines := Lines(Normalize(later));
    assert !OpenEnd(lines) by { assert lines[0] == ""; }
    if c.handed.Some? {
      FromHanded(text, c.mode, data, c.handed.value, later, v);
    } else {
      assert TakeAll(Para(data, c.bad), [], v) == Para(data, c.bad);
      FromHeld(text, c.mode, Para(data, c.bad), false, later, v);
    }
  }

  /** Where data was handed over, and elsewhere more data joins what is still held. */
  lemma BrokenAt(text: string, configs: set<Config>, data: seq<string>, later: string, v: View)
    returns (chunks: seq<string>)
    requires !SplitsPair(text, later) && Reached(text, Lines(Normalize(later)), configs, data, v)
    requires Breaks(configs, Lines(Normalize(later))[0], data != [])
    ensures Witness(text + later, chunks, v)
  {
    hide Lines, Normalize, Data, Holds, HandedOver, ResultAt, IsData, DataOf, Named, OpenEnd, Witness, EndsLine;
    var lines := Lines(Normalize(later));
    var open, line, n := OpenEnd(lines), lines[0], |Data(Normalize(text), v.trim)| - |data|;
    var h :| h in configs && h.handed.Some?;
    assert Real(text, h, data, open, v);
    FromHanded(text, h.mode, data, h.handed.value, later, v);
    var c :| c in configs && c.handed.None? && (c.mode != Early || !open);
    assert Real(text, c, data, open, v) && Fit(c, data != []);
    var p' := TakeAll(Para(data, c.bad), RunOf(lines), v);
    RunGrowsData(lines, Para(data, c.bad), v);
    FromHeld(text, c.mode, Para(data, c.bad), open, later, v);
    chunks := Conflict(text + later, n, EventBlock(data, h.handed.value), EventBlock(p'.data, p'.bad), v);
  }

  lemma RunGrowsData(lines: seq<string>, p: Para, v: View)
    requires lines != [] && IsData(lines[0])
    ensures |TakeAll(p, RunOf(lines), v).data| > |p.data|
  {
    hide DataOf, Named, IsData;
    var line, run := lines[0], RunOf(lines);
    NotBlank(line);
    assert run != [] && run[0] == line;
    DataLine(line, v);
    TakeAllData(p, run, v);
    assert DataParts(run, v.trim) == DataOf(line, v.trim) + DataParts(run[1..], v.trim);
  }

  /** At the end of a text each configuration makes the run a message. */
  lemma FinalAt(text: string, c: Config, data: seq<string>, line: string, v: View)
    requires LineStart(Normalize(text)) && !SplitsPair(text, line) && OneLine(line)
    requires Real(text, c, data, true, v) && Fit(c, data != []) && c.mode != Early
    requires c.handed.Some? ==> !IsData(line)
    requires data != [] || IsData(line)
    ensures ResultAt(text + line, |Data(Normalize(text), v.trim)| - |data|,
                     EventBlock(data + DataOf(line, v.trim), EndsAsError(c, line, v)), v)
  {
    hide Lines, Normalize, Data, Holds, HandedOver, CanEnd, ResultAt, IsData, DataOf, Named, EndsLine;
    DataLine(line, v);
    if c.handed.Some? {
      FromHanded(text, c.mode, data, c.handed.value, line, v);
      assert data + [] == data;
    } else if c.mode == Empty {
      FromEmpty(text, line, v);
      NamedData(line, v);
      assert [] + DataOf(line, v.trim) == DataOf(line, v.trim);
    } else {
      NormalizeClean(line);
      LinesOfOne(line);
      OneOpen([line]);
      TakeOne(Para(data, c.bad), line, v);
      FromHeld(text, c.mode, Para(data, c.bad), true, line, v);
    }
  }

  /** Instead of a run that is handed over early, one that has been. */
  lemma NotEarly(configs: set<Config>, c: Config, seen: bool, line: string, v: View) returns (d: Config)
    requires AllFit(configs, seen) && c in configs
    ensures d in configs && d.mode != Early && EndsAsError(d, line, v) == EndsAsError(c, line, v)
  {
    hide Named;
    d := c;
    if c.mode == Early {
      assert Fit(c, seen);
      d :| d in configs && d.handed == Some(false);
      assert Fit(d, seen);
    }
  }

  lemma LastDiffers(text: string, configs: set<Config>, data: seq<string>, line: string, v: View)
    returns (chunks: seq<string>)
    requires !SplitsPair(text, line) && OneLine(line) && Reached(text, [line], configs, data, v)
    requires !Breaks(configs, line, data != []) && (data != [] || IsData(line)) && !FinalAgree(configs, line, v)
    ensures Witness(text + line, chunks, v)
  {
    hide Normalize, Data, Real, ResultAt, IsData, DataOf, EndsAsError, Witness;
    OneOpen([line]);
    var c0, d0 :| c0 in configs && d0 in configs && EndsAsError(c0, line, v) != EndsAsError(d0, line, v);
    var c := NotEarly(configs, c0, data != [], line, v);
    var d := NotEarly(configs, d0, data != [], line, v);
    QuietBehind(configs, c, line, data != []);
    QuietBehind(configs, d, line, data != []);
    FinalAt(text, c, data, line, v);
    FinalAt(text, d, data, line, v);
    var all := data + DataOf(line, v.trim);
    chunks := Conflict(text + line, |Data(Normalize(text), v.trim)| - |data|,
                       EventBlock(all, EndsAsError(c, line, v)), EventBlock(all, EndsAsError(d, line, v)), v);
  }

  lemma BlankDiffers(text: string, configs: set<Config>, data: seq<string>, later: string, v: View)
    returns (chunks: seq<string>)
    requires !SplitsPair(text, later) && Reached(text, Lines(Normalize(later)), configs, data, v)
    requires |Lines(Normalize(later))| > 1 && Lines(Normalize(later))[0] == ""
    requires data != [] && !Agree(configs)
    ensures Witness(text + later, chunks, v)
  {
    hide Lines, Normalize, Data, Real, ResultAt, ClosesAsError, Witness;
    assert !OpenEnd(Lines(Normalize(later))) by { assert Lines(Normalize(later))[0] == ""; }
    var c, d :| c in configs && d in configs && ClosesAsError(c) != ClosesAsError(d);
    ClosedAt(text, c, data, later, v);
    ClosedAt(text, d, data, later, v);
    chunks := Conflict(text + later, |Data(Normalize(text), v.trim)| - |data|,
                       EventBlock(data, ClosesAsError(c)), EventBlock(data, ClosesAsError(d)), v);
  }

  /** Where the scan of the rest of a text fails, some chunks of the text show it. */
  lemma {:induction false} UnsteadyFrom(
      text: string, later: string, configs: set<Config>, data: seq<string>, v: View)
    returns (chunks: seq<string>)
    requires !SplitsPair(text, later) && Reached(text, Lines(Normalize(later)), configs, data, v)
    requires !Steady(Rows(Marks(later)), configs, data != [], v)
    ensures Witness(text + later, chunks, v)
    decreases |later|
  {
    hide Normalize, Lines, Rows, Marks, Reached, Breaks, Agree, FinalAgree, IsData, DataOf, Witness, OpenEnd;
    var rows := Rows(Marks(later));
    MarksNormalize(later);
    RowsLines(Marks(later));
    if Breaks(configs, rows[0].line, data != []) && !(rows[0].line == "" && |rows| > 1) {
      chunks := BrokenAt(text, configs, data, later, v);
    } else if OneLine(later) {
      NormalizeClean(later);
      LinesOfOne(later);
      MarksClean(later);
      RowsOfOne(later);
      chunks := LastDiffers(text, configs, data, later, v);
    } else {
      var line, end, rest := CutLine(later);
      CutRows(line, end, rest);
      chunks := RowDiffers(text, line, end, rest, configs, data, v);
    }
  }

  lemma RowDiffers(
      text: string, line: string, end: string, rest: string, configs: set<Config>, data: seq<string>, v: View)
    returns (chunks: seq<string>)
    requires OneLine(line) && LineEnd(end) && !SplitsPair(line + end, rest)
    requires !SplitsPair(text, line + end + rest)
    requires Reached(text, Lines(Normalize(line + end + rest)), configs, data, v)
    requires Rows(Marks(line + end + rest)) == [Row(line, end == "\r\n")] + Rows(Marks(rest))
    requires !Steady([Row(line, end == "\r\n")] + Rows(Marks(rest)), configs, data != [], v)
    requires line != "" ==> !Breaks(configs, line, data != [])
    ensures Witness(text + (line + end + rest), chunks, v)
    decreases |line + end + rest|, 0
  {
    hide Normalize, Lines, Rows, Marks, Reached, Breaks, Agree, FinalAgree, IsData, DataOf, Witness, OpenEnd;
    var row, rows, later := Row(line, end == "\r\n"), Rows(Marks(rest)), line + end + rest;
    var text', next := text + (line + end), Next(configs, row, data != [], v);
    MarksNormalize(later);
    RowsLines(Marks(later));
    MarksNormalize(rest);
    RowsLines(Marks(rest));
    assert ([row] + rows)[1..] == rows && LinesOf([row] + rows) == [line] + LinesOf(rows);
    assert text' + rest == text + later;
    assert !SplitsPair(text, line + end) && !SplitsPair(text', rest) by { assert Last(text') == Last(line + end); }
    DataLine(line, v);
    if line == "" {
      if data != [] && !Agree(configs) {
        chunks := BlankDiffers(text, configs, data, later, v);
      } else {
        BlankReached(text, end, LinesOf(rows), configs, data, v);
        chunks := UnsteadyFrom(text', rest, next, [], v);
      }
    } else if IsData(line) && OpenEnd([line] + LinesOf(rows)) && configs == {EMPTY} {
      ForcedReached(text, line, end, LinesOf(rows), data, v);
      chunks := UnsteadyFrom(text', rest, {EMPTY, BLANK}, [], v);
    } else {
      LineReached(text, line, end, LinesOf(rows), configs, data, v);
      chunks := UnsteadyFrom(text', rest, next, data + DataOf(line, v.trim), v);
    }
  }

  // ------------------------------------------------------------------------ the condition

  /** The chunks of a text that fails the scan. */
  lemma UnsteadyText(text: string, v: View) returns (chunks: seq<string>)
    requires !SteadyText(text, v)
    ensures Witness(text, chunks, v)
  {
    hide Normalize, Lines, Rows, Marks, Witness, Reached;
    StartReached(Lines(Normalize(text)), v);
    chunks := UnsteadyFrom("", text, {EMPTY}, [], v);
    assert "" + text == text;
  }

  /** Every chunking of a text is read as the text in one chunk is exactly if the text passes
      the scan. With `v.errors` this is about whole blocks, without it about messages alone. */
  lemma ChunkingIndependentIff(text: string, v: View)
    ensures (forall chunks, tail | Flatten(chunks) + tail == text && CanClose(tail) ::
               Seen(ParseEvents("", chunks, tail, v.trim), v) == Seen(ParseEvents("", [text], "", v.trim), v))
       <==> SteadyText(text, v)
  {
    hide ParseEvents, Seen, SteadyText;
    if SteadyText(text, v) {
      forall chunks, tail | Flatten(chunks) + tail == text && CanClose(tail)
        ensures Seen(ParseEvents("", chunks, tail, v.trim), v) == Seen(ParseEvents("", [text], "", v.trim), v)
      {
        SteadyReads(chunks, tail, v);
      }
    } else {
      var chunks := UnsteadyText(text, v);
      assert Flatten(chunks) + "" == text && CanClose("");
      assert Seen(ParseEvents("", chunks, "", v.trim), v) != Seen(ParseEvents("", [text], "", v.trim), v);
    }
  }

  lemma SeenWhole(blocks: seq<EventBlock>, trimPrefix: bool)
    ensures Seen(blocks, View(trimPrefix, true)) == blocks
  {
  }

  /** Where a blank line ends the last paragraph of a text without CR LF pairs, the scan asks
      for safe paragraphs. */
  lemma SteadyIffSafe(text: string, trimPrefix: bool)
    requires NoPair(text) && Closed(Normalize(text))
    ensures SteadyText(text, View(trimPrefix, true)) <==> AllEarlySafe(Normalize(text), trimPrefix)
  {
    hide Normalize, NoPair, Closed, AllEarlySafe, SteadyText, ParseEvents, Seen;
    var v := View(trimPrefix, true);
    SeenWhole(ParseEvents("", [text], "", trimPrefix), trimPrefix);
    forall chunks, tail | Flatten(chunks) + tail == text && CanClose(tail)
      ensures Seen(ParseEvents("", chunks, tail, v.trim), v) == ParseEvents("", chunks, tail, trimPrefix)
    {
      SeenWhole(ParseEvents("", chunks, tail, trimPrefix), trimPrefix);
    }
    ChunkingIndependentIff(text, v);
    BoundariesChunkingIndependentIff(text, trimPrefix);
  }

  lemma OpenLinesSteady(a: string, b: string, v: View)
    requires OneLine(a) && OneLine(b) && IsData(a) && IsData(b)
    ensures SteadyText(a + "\n" + b, v)
  {
    hide Rows, Marks, IsData;
    assert (a + "\n") + b == a + "\n" + b;
    CutRows(a, "\n", b);
    MarksClean(b);
    RowsOfOne(b);
    NotBlank(a);
    var rows := [Row(a, false)] + [Row(b, false)];
    assert rows[1..] == [Row(b, false)];
    NamedData(b, v);
    assert Steady(rows[1..], {EMPTY, BLANK}, false, v);
  }

  lemma OpenLinesUnsafe(a: string, b: string, trimPrefix: bool)
    requires OneLine(a) && OneLine(b) && IsData(a) && IsData(b)
    ensures !AllEarlySafe(a + "\n" + b, trimPrefix)
  {
    hide Lines, IndexOf;
    var text := a + "\n" + b;
    LaterNoSeparator(b);
    IndexOfAfterLine(a, b);
    SingleParagraph(text, trimPrefix);
    LinesCut(a, b);
    LinesOfOne(a);
    LinesOfOne(b);
    assert Lines(text) == [a, b] && [a, b][1..] == [b];
    DataOfCount(b, trimPrefix);
    OneDataPart(b, trimPrefix);
  }

  lemma LaterNoSeparator(line: string)
    requires OneLine(line)
    ensures IndexOf(line, SEPARATOR) == -1
  {
    IndexOfFirst(line, SEPARATOR);
    OccursAtChars(line, IndexOf(line, SEPARATOR));
  }

  lemma LastRest(line: string, v: View)
    ensures Rest([line], Blank, NOTHING, v) == Emit(Take(NOTHING, line, v))
  {
  }

  /** Where no blank line ends the last paragraph, texts can be read alike that are not safe
      paragraph by paragraph: two data lines at the open end are two messages for every
      chunking, as the first is handed over early even if the text is one chunk. */
  lemma OpenDataLines(a: string, b: string, chunks: seq<string>, trimPrefix: bool)
    requires OneLine(a) && OneLine(b) && IsData(a) && IsData(b) && Flatten(chunks) == a + "\n" + b
    ensures ParseEvents("", chunks, "", trimPrefix)
         == [EventBlock(DataOf(a, trimPrefix), false), EventBlock(DataOf(b, trimPrefix), false)]
    ensures !AllEarlySafe(a + "\n" + b, trimPrefix)
  {
    hide Normalize, IsData, DataOf, ParseEvents, AllEarlySafe, SteadyText, Once, Rest, Lines, Seen;
    var text, v := a + "\n" + b, View(trimPrefix, true);
    OpenLinesSteady(a, b, v);
    OpenLinesUnsafe(a, b, trimPrefix);
    assert Flatten(chunks) + "" == text;
    SteadyReads(chunks, "", v);
    SeenWhole(ParseEvents("", chunks, "", trimPrefix), trimPrefix);
    OnceWhole(text, v);
    NormalizeClean(text);
    OnceIsRest(text, v);
    LinesCut(a, b);
    LinesOfOne(a);
    LinesOfOne(b);
    NotBlank(a);
    OneOpen([b]);
    OpenEndMore(a, [b]);
    ForcedRest(a, [b], v);
    DataLine(b, v);
    NamedData(b, v);
    assert [] + DataOf(b, v.trim) == DataOf(b, v.trim);
    LastRest(b, v);
  }
}
