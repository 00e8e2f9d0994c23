/** However a steady text arrives, it gives what it gives as one chunk. */
module EventStreamSteady {
  import opened Text
  import opened EventStream
  import opened EventStreamTheorems
  import opened EventStreamBoundaries
  import opened EventStreamPairs
  import opened EventStreamRows
  import opened EventStreamScan
  import opened EventStreamCuts

  // ------------------------------------------------------------------ one flush of many

  lemma CleanRows(text: string)
    requires '\r' !in text
    ensures forall i | 0 <= i < |Rows(text)| :: !Rows(text)[i].pair
    ensures LinesOf(Rows(text)) == Lines(text)
  {
    RowsLines(text);
    CrToLfClean(text);
    NoPairs(text);
  }

  lemma {:induction false} NoPairs(text: string)
    requires '\r' !in text
    ensures forall i | 0 <= i < |Rows(text)| :: !Rows(text)[i].pair
  {
    if text != "" {
      NoPairs(text[1..]);
    }
  }

  /** The rows of an open paragraph that ends in the middle of a line. */
  lemma RunRows(w: string)
    requires '\r' !in w && w != "" && w[0] != '\n' && Last(w) != '\n' && IndexOf(w, SEPARATOR) == -1
    ensures PlainRun(ButLast(Rows(w))) && Last(Rows(w)).line != ""
    ensures EndLast(Rows(w), true) == ButLast(Rows(w)) + [Row(Last(Rows(w)).line, true)]
    ensures EndLast(Rows(w), false) == ButLast(Rows(w)) + [Row(Last(Rows(w)).line, false)]
    ensures LinesOf(Rows(w)) == LinesOf(ButLast(Rows(w))) + [Last(Rows(w)).line]
  {
    hide Rows, Lines, IndexOf;
    CleanRows(w);
    OpenLines(w);
    LastRowNotBlank(w);
    var rows := Rows(w);
    forall i | 0 <= i < |ButLast(rows)| ensures !ButLast(rows)[i].pair && ButLast(rows)[i].line != "" {
      assert LinesOf(rows)[i] == rows[i].line;
    }
  }

  /** A run `w` with a pair behind it, and with two line ends instead. */
  lemma SplitRun(
      w: string, m: string, configs: set<Config>, seen: bool, configs': set<Config>, seen': bool,
      c: Config, data: seq<string>, v: View)
    requires '\r' !in w && w != "" && w[0] != '\n' && Last(w) != '\n' && IndexOf(w, SEPARATOR) == -1
    requires Steady(Rows(w + "\r" + m), configs', seen', v) && AllFit(configs', seen')
    requires configs != {} && Covered(configs, seen, configs', seen')
    requires configs' == {EMPTY} ==> !IsData(Lines(w)[0])
    requires EMPTY in configs && IsData(Lines(w)[0]) ==> BLANK in configs'
    requires c in configs' && c.mode != Early && (c.mode == Empty ==> !IsData(Lines(w)[0]))
    requires seen' <==> data != []
    ensures Total(LinesOf(Rows(w + "\r" + m)), c, data, v) == Total(LinesOf(Rows(w + "\n" + ("\n" + m))), c, data, v)
    ensures Steady(Rows(w + "\n" + ("\n" + m)), configs, seen, v)
  {
    hide Rows, Lines, IndexOf, Steady, Total, IsData, Covered, Fit;
    RunRows(w);
    CleanRows(w);
    var a, line, b := ButLast(Rows(w)), Last(Rows(w)).line, Rows(m);
    assert FirstLine(a, line) == Lines(w)[0] by { assert Rows(w)[0].line == LinesOf(Rows(w))[0]; }
    assert w + "\r" + m == w + ['\r'] + m && w + "\n" + ("\n" + m) == w + ['\n'] + ("\n" + m);
    RowsCut(w, '\r', m);
    RowsCut(w, '\n', "\n" + m);
    assert "\n" + m == "" + ['\n'] + m;
    FirstRow("", '\n', m);
    assert EndLast(Rows(w), false) + ([Row("", false)] + b) == a + [Row(line, false), Row("", false)] + b;
    assert LinesOf(a + [Row(line, true)] + b) == LinesOf(a) + [line] + LinesOf(b);
    assert LinesOf(a + [Row(line, false), Row("", false)] + b) == LinesOf(a) + [line, ""] + LinesOf(b);
    CutRun(a, line, b, configs', seen', c, data, v);
    SplitSteady(a, line, b, configs, seen, configs', seen', v);
  }

  lemma RowsHeadCut(line: string, c: char, m: string)
    requires OneLine(line) && (c == '\n' || c == '\r')
    ensures Rows(line + [c] + m) == [Row(line, c == '\r')] + Rows(m)
    ensures LinesOf([Row(line, c == '\r')] + Rows(m)) == [line] + LinesOf(Rows(m))
  {
    hide Rows;
    FirstRow(line, c, m);
  }

  lemma EarlyBlock(line: string, v: View)
    requires OneLine(line) && IsData(line)
    ensures Seen(BlockEvents(line, v.trim), v) == [EventBlock(DataOf(line, v.trim), false)]
  {
    hide DataOf, Lines;
    ParagraphBlock(line, v);
    LinesOfOne(line);
    TakeOne(NOTHING, line, v);
    DataLine(line, v);
    NamedData(line, v);
    assert [] + DataOf(line, v.trim) == DataOf(line, v.trim);
  }

  /** A first data line handed over, and the rest read on. */
  lemma EarlyStep(line: string, m: string, v: View)
    requires OneLine(line) && IsData(line) && Steady(Rows(line + "\n" + m), {EMPTY}, false, v)
    ensures Seen(BlockEvents(line, v.trim), v) + Once(CrToLf(m), v) == Once(line + "\n" + CrToLf(m), v)
    ensures Steady(Rows(m), {EMPTY}, false, v)
  {
    hide Rows, Once, Rest, Seen, IsData, DataOf, Steady;
    assert line + "\n" + m == line + ['\n'] + m;
    RowsHeadCut(line, '\n', m);
    var _, _ := EarlyRows(line, false, Rows(m), v);
    OnceRows(m, v);
    OnceRows(line + "\n" + m, v);
    CrToLfClear(line + "\n", m);
    EarlyBlock(line, v);
  }

  /** One flush, with the rest of the text still to come: nothing is lost, and the rest is
      steady. `m` is the rest, marked. */
  lemma {:induction false} FlushStep(text: string, m: string, v: View)
    requires '\r' !in text && Steady(Rows(text + m), {EMPTY}, false, v)
    ensures Seen(FlushOpen(text, v.trim).0, v) + Once(FlushOpen(text, v.trim).1 + CrToLf(m), v)
         == Once(text + CrToLf(m), v)
    ensures Steady(Rows(FlushOpen(text, v.trim).1 + m), {EMPTY}, false, v)
    decreases |text|
  {
    hide Rows, Once, Seen, IndexOf, BlockEvents, Steady;
    if IndexOf(text, SEPARATOR) != -1 {
      var head, rest := CutFirstParagraph(text);
      hide FlushOpen;
      ParagraphStep(text, head, rest, m, v);
      assert '\r' !in rest;
      FlushStep(rest, m, v);
      FlushOpenAfterParagraph(text, head, rest, v.trim);
      SeenAppend(BlockEvents(head, v.trim), FlushOpen(rest, v.trim).0, v);
      AppendAssociates(Seen(BlockEvents(head, v.trim), v), Seen(FlushOpen(rest, v.trim).0, v),
                       Once(FlushOpen(rest, v.trim).1 + CrToLf(m), v));
    } else {
      hide FlushOpen;
      FlushStepOpen(text, m, v);
    }
  }

  lemma OpenFlushIs(text: string, v: View)
    requires IndexOf(text, SEPARATOR) == -1
    ensures FlushOpen(text, v.trim) == match EarlyLine(text)
                                       case Some(j) => (BlockEvents(text[..j], v.trim), text[j + 1..])
                                       case None => ([], text)
  {
    SingleParagraph(text, v.trim);
    assert [] + EarlyBlocks(text, v.trim) == EarlyBlocks(text, v.trim);
  }

  lemma NothingSeen(rest: seq<EventBlock>, v: View)
    ensures Seen([], v) + rest == rest
  {
    SeenNothing(v);
  }

  lemma FlushStepOpen(text: string, m: string, v: View)
    requires '\r' !in text && Steady(Rows(text + m), {EMPTY}, false, v) && IndexOf(text, SEPARATOR) == -1
    ensures Seen(FlushOpen(text, v.trim).0, v) + Once(FlushOpen(text, v.trim).1 + CrToLf(m), v)
         == Once(text + CrToLf(m), v)
    ensures Steady(Rows(FlushOpen(text, v.trim).1 + m), {EMPTY}, false, v)
  {
    hide Rows, Once, Seen, IndexOf, BlockEvents, Steady, FlushOpen, CrToLf;
    OpenFlushIs(text, v);
    if EarlyLine(text).Some? {
      var j := EarlyLine(text).value;
      EarlyLineIs(text);
      var line, z := text[..j], text[j + 1..];
      assert '\r' !in z && '\r' !in line;
      assert text + m == line + "\n" + (z + m) && text + CrToLf(m) == line + "\n" + (z + CrToLf(m));
      EarlyStep(line, z + m, v);
      CrToLfClear(z, m);
    } else {
      NothingSeen(Once(text + CrToLf(m), v), v);
    }
  }

  lemma ParagraphStep(text: string, head: string, rest: string, m: string, v: View)
    requires '\r' !in text && FirstParagraph(text, head, rest) && Steady(Rows(text + m), {EMPTY}, false, v)
    ensures Once(text + CrToLf(m), v) == Seen(BlockEvents(head, v.trim), v) + Once(rest + CrToLf(m), v)
    ensures Steady(Rows(rest + m), {EMPTY}, false, v)
  {
    hide Rows, Once, Seen, IndexOf, BlockEvents, Steady;
    FirstParagraphExtends(text, head, rest, CrToLf(m));
    OnceParagraph(text + CrToLf(m), head, rest + CrToLf(m), v);
    if head != "" {
      HeadEnds(text, head, rest);
    }
    assert text + m == head + "\n" + ['\n'] + (rest + m);
    assert '\r' !in head;
    SteadyAfterParagraph(head, '\n', rest + m, v);
  }

  // --------------------------------------------------- a flush between the two of a pair

  /** The first of the two line ends closes a paragraph or is all there is. */
  lemma SplitAfterBlank(head: string, m: string, v: View)
    requires Steady(Rows(m), {EMPTY, BLANK}, false, v)
    ensures Once("\n" + CrToLf(m), v) == Once(CrToLf(m), v)
    ensures Steady(Rows("\n" + m), {EMPTY}, false, v) && Steady(Rows("\n" + ("\n" + m)), {EMPTY}, false, v)
  {
    hide Rows, Once, Rest, Steady, Next;
    StartFits();
    Confluent(Rows(m), {EMPTY, BLANK}, false, [], EMPTY, BLANK, v);
    FreshTotal(LinesOf(Rows(m)), Empty, v);
    FreshTotal(LinesOf(Rows(m)), Blank, v);
    OnceRows(m, v);
    OnceRows("\n" + m, v);
    CrToLfClear("\n", m);
    assert "\n" + m == "" + ['\n'] + m && "\n" + ("\n" + m) == "" + ['\n'] + ("\n" + m);
    RowsHeadCut("", '\n', m);
    RowsHeadCut("", '\n', "\n" + m);
    RestBlank(LinesOf(Rows(m)), Empty, NOTHING, v);
    assert Emit(NOTHING) == [];
    SteadyLess(Rows(m), {EMPTY}, {EMPTY, BLANK}, v);
    SteadyLess(Rows(m), {BLANK}, {EMPTY, BLANK}, v);
    BlankFirst(Rows(m), v);
    BlankFirst(Rows("\n" + m), v);
  }

  /** A blank row in front of a text. */
  lemma BlankFirst(rows: seq<Row>, v: View)
    requires rows != []
    ensures Steady([Row("", false)] + rows, {EMPTY}, false, v) <==> Steady(rows, {BLANK}, false, v)
    ensures Steady([Row("", false)] + rows, {BLANK}, false, v) <==> Steady(rows, {EMPTY}, false, v)
  {
    var row := Row("", false);
    assert ([row] + rows)[1..] == rows;
    BlankIsNoData();
    hide IsData;
    assert Next({EMPTY}, row, false, v) == {BLANK} by { NextOfOne(EMPTY, v); }
    assert Next({BLANK}, row, false, v) == {EMPTY} by { NextOfOne(BLANK, v); }
  }

  lemma NextOfOne(c: Config, v: View)
    ensures Next({c}, Row("", false), false, v) == {Config(AfterBlank(c.mode), false, None)}
  {
    BlankIsNoData();
    StayNext(c, {c}, Row("", false), false, v);
    forall d | d in Next({c}, Row("", false), false, v) ensures d == Config(AfterBlank(c.mode), false, None) {
      var c' := NextMember(d, {c}, Row("", false), false, v);
    }
  }

  /** The open paragraph behind a flush that hands nothing over. */
  lemma SplitOpen(w: string, m: string, v: View)
    requires '\r' !in w && IndexOf(w + "\n", SEPARATOR) == -1 && EarlyLine(w + "\n").None?
    requires Steady(Rows(w + "\r" + m), {EMPTY}, false, v)
    ensures Once(w + "\n" + ("\n" + CrToLf(m)), v) == Once(w + "\n" + CrToLf(m), v)
    ensures Steady(Rows(w + "\n" + ("\n" + m)), {EMPTY}, false, v)
  {
    hide Rows, Once, Steady, IndexOf, EarlyLine;
    if w == "" {
      assert w + "\r" + m == "\r" + m;
      SplitOpenBlank(m, v);
      assert w + "\n" + ("\n" + m) == "\n" + ("\n" + m);
      assert w + "\n" + ("\n" + CrToLf(m)) == "\n" + ("\n" + CrToLf(m)) && w + "\n" + CrToLf(m) == "\n" + CrToLf(m);
    } else {
      NoSeparatorIn(w);
      if w[0] == '\n' {
        assert w == "\n" + w[1..];
        SplitOpenLed(w[1..], m, v);
      } else {
        FirstNotData(w);
        SplitOpenRun(w, m, v);
      }
    }
  }

  lemma SplitOpenBlank(m: string, v: View)
    requires Steady(Rows("\r" + m), {EMPTY}, false, v)
    ensures Once("\n" + ("\n" + CrToLf(m)), v) == Once("\n" + CrToLf(m), v)
    ensures Steady(Rows("\n" + ("\n" + m)), {EMPTY}, false, v)
  {
    hide Rows, Once, Steady;
    assert "\r" + m == "" + ['\r'] + m;
    RowsHeadCut("", '\r', m);
    BlankPair(Rows(m), v);
    SplitAfterBlank("", m, v);
    TwoBlanksFirst(m, v);
  }

  lemma SplitOpenRun(w: string, m: string, v: View)
    requires '\r' !in w && w != "" && w[0] != '\n' && Last(w) != '\n' && IndexOf(w, SEPARATOR) == -1
    requires !IsData(Lines(w)[0]) && Steady(Rows(w + "\r" + m), {EMPTY}, false, v)
    ensures Once(w + "\n" + ("\n" + CrToLf(m)), v) == Once(w + "\n" + CrToLf(m), v)
    ensures Steady(Rows(w + "\n" + ("\n" + m)), {EMPTY}, false, v)
  {
    hide Rows, Once, Rest, Steady, IndexOf, Lines, Total, IsData;
    StartFits();
    assert Covered({EMPTY}, false, {EMPTY}, false);
    hide Covered, AllFit;
    SplitRun(w, m, {EMPTY}, false, {EMPTY}, false, EMPTY, [], v);
    FreshTotal(LinesOf(Rows(w + "\r" + m)), Empty, v);
    FreshTotal(LinesOf(Rows(w + "\n" + ("\n" + m))), Empty, v);
    PairCleared(w, m);
    OnceRows(w + "\r" + m, v);
    OnceRows(w + "\n" + ("\n" + m), v);
  }

  /** The same behind a blank line. */
  lemma SplitOpenLed(z: string, m: string, v: View)
    requires var w := "\n" + z;
             && '\r' !in w && Last(w) != '\n' && IndexOf(w, SEPARATOR) == -1
             && Steady(Rows(w + "\r" + m), {EMPTY}, false, v)
    ensures var w := "\n" + z;
            && Once(w + "\n" + ("\n" + CrToLf(m)), v) == Once(w + "\n" + CrToLf(m), v)
            && Steady(Rows(w + "\n" + ("\n" + m)), {EMPTY}, false, v)
  {
    hide Rows, Once, Rest, Steady, IndexOf, Lines, Total, IsData;
    var w, paired, doubled := "\n" + z, z + "\r" + m, z + "\n" + ("\n" + m);
    BlankThenRun(w, z);
    StartFits();
    assert Covered({BLANK}, false, {BLANK}, false) && EMPTY !in {BLANK};
    hide Covered, AllFit;
    assert w + "\r" + m == "" + ['\n'] + paired && w + "\n" + ("\n" + m) == "" + ['\n'] + doubled;
    RowsHeadCut("", '\n', paired);
    RowsHeadCut("", '\n', doubled);
    BlankFirst(Rows(paired), v);
    BlankFirst(Rows(doubled), v);
    SplitRun(z, m, {BLANK}, false, {BLANK}, false, BLANK, [], v);
    FreshTotal(LinesOf(Rows(paired)), Blank, v);
    FreshTotal(LinesOf(Rows(doubled)), Blank, v);
    RestBlank(LinesOf(Rows(paired)), Empty, NOTHING, v);
    RestBlank(LinesOf(Rows(doubled)), Empty, NOTHING, v);
    PairCleared(w, m);
    OnceRows(w + "\r" + m, v);
    OnceRows(w + "\n" + ("\n" + m), v);
  }

  lemma BlankPair(rows: seq<Row>, v: View)
    requires rows != [] && Steady([Row("", true)] + rows, {EMPTY}, false, v)
    ensures Steady(rows, {EMPTY, BLANK}, false, v)
  {
    hide Next;
    SteadyBlank(Row("", true), rows, {EMPTY}, false, v);
    StayNext(EMPTY, {EMPTY}, Row("", true), false, v);
    SteadyLess(rows, {EMPTY, BLANK}, Next({EMPTY}, Row("", true), false, v), v);
  }

  lemma TwoBlanksFirst(m: string, v: View)
    ensures Once("\n" + ("\n" + CrToLf(m)), v) == Once(CrToLf(m), v)
  {
    hide Once, Rest, Rows;
    OnceRows("\n" + ("\n" + m), v);
    OnceRows(m, v);
    CrToLfClear("\n", "\n" + m);
    CrToLfClear("\n", m);
    assert "\n" + ("\n" + m) == "" + ['\n'] + ("\n" + m) && "\n" + m == "" + ['\n'] + m;
    RowsHeadCut("", '\n', "\n" + m);
    RowsHeadCut("", '\n', m);
    RestBlank(LinesOf(Rows("\n" + m)), Empty, NOTHING, v);
    RestBlank(LinesOf(Rows(m)), Blank, NOTHING, v);
    assert Emit(NOTHING) == [];
  }

  lemma NoSeparatorIn(w: string)
    requires w != "" && IndexOf(w + "\n", SEPARATOR) == -1
    ensures IndexOf(w, SEPARATOR) == -1 && Last(w) != '\n'
  {
    IndexOfFirst(w + "\n", SEPARATOR);
    IndexOfFirst(w, SEPARATOR);
    OccursAtChars(w + "\n", |w| - 1);
    OccursAtChars(w, IndexOf(w, SEPARATOR));
    OccursAtChars(w + "\n", IndexOf(w, SEPARATOR));
  }

  lemma BlankThenRun(w: string, z: string)
    requires w == "\n" + z && IndexOf(w, SEPARATOR) == -1 && Last(w) != '\n'
    ensures z != "" && z[0] != '\n' && Last(z) != '\n' && IndexOf(z, SEPARATOR) == -1
  {
    assert z != "";
    assert w == "" + "\n" + z;
    LaterParagraph("", z);
    assert Last(w) == Last(z);
  }

  lemma FirstNotData(w: string)
    requires w != "" && w[0] != '\n' && EarlyLine(w + "\n").None?
    ensures !IsData(Lines(w)[0])
  {
    hide IndexOf, Lines;
    if '\n' in w {
      var line, z := CutFirstLine(w);
      LinesCut(line, z);
      LinesOfOne(line);
      assert w + "\n" == line + "\n" + (z + "\n");
      FirstLineFeed(line, z + "\n");
      assert (w + "\n")[..|line|] == line;
    } else {
      LinesOfOne(w);
      assert w + "\n" == w + "\n" + "";
      FirstLineFeed(w, "");
      assert (w + "\n")[..|w|] == w;
    }
  }

  /** The open paragraph is one data line, which the flush hands over. */
  lemma SplitEarlyAlone(line: string, m: string, v: View)
    requires OneLine(line) && IsData(line) && Steady(Rows(line + "\r" + m), {EMPTY}, false, v)
    ensures Seen(BlockEvents(line, v.trim), v) + Once("\n" + CrToLf(m), v) == Once(line + "\n" + CrToLf(m), v)
    ensures Steady(Rows("\n" + m), {EMPTY}, false, v)
  {
    hide Rows, Once, Rest, Seen, Steady, IsData, DataOf;
    assert line + "\r" + m == line + ['\r'] + m;
    RowsHeadCut(line, '\r', m);
    var _, _ := EarlyRows(line, true, Rows(m), v);
    SplitAfterBlank("", m, v);
    EarlyBlock(line, v);
    PairCleared(line, m);
    OnceRows(line + "\r" + m, v);
    OnceRows(m, v);
  }

  /** Or it begins with one. */
  lemma SplitEarly(line: string, z: string, m: string, v: View)
    requires OneLine(line) && IsData(line) && '\r' !in z && IndexOf(line + "\n" + z, SEPARATOR) == -1
    requires z == "" || Last(z) == '\n'
    requires Steady(Rows(if z == "" then line + "\r" + m else line + "\n" + ButLast(z) + "\r" + m), {EMPTY}, false, v)
    ensures Seen(BlockEvents(line, v.trim), v) + Once(z + ("\n" + CrToLf(m)), v) == Once(line + "\n" + z + CrToLf(m), v)
    ensures Steady(Rows(z + ("\n" + m)), {EMPTY}, false, v)
  {
    hide Rows, Once, Seen, Steady, IndexOf, IsData, BlockEvents;
    if z == "" {
      SplitEarlyAlone(line, m, v);
      assert z + ("\n" + m) == "\n" + m && z + ("\n" + CrToLf(m)) == "\n" + CrToLf(m);
      assert line + "\n" + z + CrToLf(m) == line + "\n" + CrToLf(m);
    } else {
      var w := ButLast(z);
      assert z == w + "\n";
      SplitEarlyMore(line, w, m, v);
      assert z + ("\n" + m) == w + "\n" + ("\n" + m) && z + ("\n" + CrToLf(m)) == w + "\n" + ("\n" + CrToLf(m));
      assert line + "\n" + z + CrToLf(m) == line + "\n" + w + "\n" + CrToLf(m);
    }
  }

  lemma SplitEarlyMore(line: string, w: string, m: string, v: View)
    requires OneLine(line) && IsData(line) && '\r' !in w && IndexOf(line + "\n" + (w + "\n"), SEPARATOR) == -1
    requires Steady(Rows(line + "\n" + w + "\r" + m), {EMPTY}, false, v)
    ensures Seen(BlockEvents(line, v.trim), v) + Once(w + "\n" + ("\n" + CrToLf(m)), v)
         == Once(line + "\n" + w + "\n" + CrToLf(m), v)
    ensures Steady(Rows(w + "\n" + ("\n" + m)), {EMPTY}, false, v)
  {
    hide Rows, Once, Rest, Seen, Steady, IndexOf, IsData;
    LaterParagraph(line, w + "\n");
    assert w != "";
    NoSeparatorIn(w);
    assert w[0] == (w + "\n")[0];
    var paired := w + "\r" + m;
    assert line + "\n" + w + "\r" + m == line + "\n" + paired;
    EarlyStep(line, paired, v);
    PairCleared(w, m);
    assert line + "\n" + (w + "\n" + CrToLf(m)) == line + "\n" + w + "\n" + CrToLf(m);
    assert line + "\n" + paired == line + ['\n'] + paired;
    RowsHeadCut(line, '\n', paired);
    var configs, seen := EarlyRows(line, false, Rows(paired), v);
    if seen {
      SplitClosed(line, w, m, configs, v);
    } else {
      SplitForced(w, m, v);
    }
  }

  lemma PairCleared(w: string, m: string)
    requires '\r' !in w
    ensures CrToLf(w + "\r" + m) == w + "\n" + CrToLf(m)
    ensures CrToLf(w + "\n" + ("\n" + m)) == w + "\n" + ("\n" + CrToLf(m))
  {
    CrToLfClear(w, "\r" + m);
    assert w + ("\r" + m) == w + "\r" + m;
    assert CrToLf("\r" + m) == "\n" + CrToLf(m) by { assert ("\r" + m)[1..] == m; }
    assert w + ("\n" + CrToLf(m)) == w + "\n" + CrToLf(m);
    CrToLfClear(w + "\n" + "\n", m);
    assert w + "\n" + "\n" + m == w + "\n" + ("\n" + m);
    assert w + "\n" + "\n" + CrToLf(m) == w + "\n" + ("\n" + CrToLf(m));
  }

  lemma SplitClosed(line: string, w: string, m: string, configs: set<Config>, v: View)
    requires IsData(line) && HANDED in configs && AllFit(configs, true)
    requires '\r' !in w && w != "" && w[0] != '\n' && Last(w) != '\n' && IndexOf(w, SEPARATOR) == -1
    requires Steady(Rows(w + "\r" + m), configs, true, v)
    ensures Once(w + "\n" + ("\n" + CrToLf(m)), v) == Once(w + "\n" + CrToLf(m), v)
    ensures Steady(Rows(w + "\n" + ("\n" + m)), {EMPTY}, false, v)
  {
    hide Rows, Once, Rest, Steady, IndexOf, Lines, Total, IsData, DataOf, Covered;
    var lines, lines' := LinesOf(Rows(w + "\r" + m)), LinesOf(Rows(w + "\n" + ("\n" + m)));
    var data := DataOf(line, v.trim);
    DataLine(line, v);
    CoveredHanded(configs);
    FirstQuiet(w, m, configs, v);
    assert configs != {EMPTY} by { assert HANDED != EMPTY; }
    SplitRun(w, m, {EMPTY}, false, configs, true, HANDED, data, v);
    HandedTotal(lines, Empty, data, v);
    HandedTotal(lines', Empty, data, v);
    SameRest([EventBlock(data, false)], Rest(lines, Empty, NOTHING, v), Rest(lines', Empty, NOTHING, v));
    PairCleared(w, m);
    OnceRows(w + "\r" + m, v);
    OnceRows(w + "\n" + ("\n" + m), v);
  }

  lemma SplitForced(w: string, m: string, v: View)
    requires '\r' !in w && w != "" && w[0] != '\n' && Last(w) != '\n' && IndexOf(w, SEPARATOR) == -1
    requires Steady(Rows(w + "\r" + m), {EMPTY, BLANK}, false, v)
    ensures Once(w + "\n" + ("\n" + CrToLf(m)), v) == Once(w + "\n" + CrToLf(m), v)
    ensures Steady(Rows(w + "\n" + ("\n" + m)), {EMPTY}, false, v)
  {
    hide Rows, Once, Rest, Steady, IndexOf, Lines, Total, IsData, Covered;
    var rows, rows', both := Rows(w + "\r" + m), Rows(w + "\n" + ("\n" + m)), {EMPTY, BLANK};
    StartFits();
    CoveredStart();
    assert both != {EMPTY} by { assert BLANK in both && BLANK != EMPTY; }
    SplitRun(w, m, {EMPTY}, false, both, false, BLANK, [], v);
    Confluent(rows, both, false, [], EMPTY, BLANK, v);
    FreshTotal(LinesOf(rows), Empty, v);
    FreshTotal(LinesOf(rows), Blank, v);
    FreshTotal(LinesOf(rows'), Blank, v);
    ClosedEither(w, m, v);
    PairCleared(w, m);
    OnceRows(w + "\r" + m, v);
    OnceRows(w + "\n" + ("\n" + m), v);
  }

  lemma SameRest(a: seq<EventBlock>, b: seq<EventBlock>, c: seq<EventBlock>)
    requires a + b == a + c
    ensures b == c
  {
    assert (a + b)[|a|..] == b && (a + c)[|a|..] == c;
  }

  lemma CoveredHanded(configs: set<Config>)
    requires HANDED in configs
    ensures Covered({EMPTY}, false, configs, true)
  {
    assert MayHaveHanded(configs, Empty);
  }

  lemma CoveredStart()
    ensures Covered({EMPTY}, false, {EMPTY, BLANK}, false)
  {
  }

  lemma FirstQuiet(w: string, m: string, configs: set<Config>, v: View)
    requires '\r' !in w && w != "" && w[0] != '\n' && Last(w) != '\n' && IndexOf(w, SEPARATOR) == -1
    requires Steady(Rows(w + "\r" + m), configs, true, v) && HANDED in configs
    ensures !IsData(Lines(w)[0])
  {
    hide Rows, Lines, IndexOf, IsData, Next, Agree, FinalAgree;
    RunRows(w);
    CleanRows(w);
    assert w + "\r" + m == w + ['\r'] + m;
    RowsCut(w, '\r', m);
    var rows := Rows(w + "\r" + m);
    assert rows[0].line == Rows(w)[0].line == LinesOf(Rows(w))[0];
    assert rows[0].line != "";
    HandedBreaks(rows, configs, HANDED, v);
  }

  /** A run that a blank line ends reads the same behind an empty buffer and a blank line. */
  lemma ClosedEither(w: string, m: string, v: View)
    requires '\r' !in w && w != "" && w[0] != '\n' && Last(w) != '\n' && IndexOf(w, SEPARATOR) == -1
    ensures var lines := LinesOf(Rows(w + "\n" + ("\n" + m)));
            Rest(lines, Empty, NOTHING, v) == Rest(lines, Blank, NOTHING, v)
  {
    hide Rows, IndexOf, Rest;
    RunRows(w);
    assert w + "\n" + ("\n" + m) == w + ['\n'] + ("\n" + m) && "\n" + m == "" + ['\n'] + m;
    RowsCut(w, '\n', "\n" + m);
    FirstRow("", '\n', m);
    var run := LinesOf(Rows(w));
    assert LinesOf(EndLast(Rows(w), false) + ([Row("", false)] + Rows(m))) == run + [""] + LinesOf(Rows(m));
    assert NoBlank(run) by {
      forall i | 0 <= i < |run| ensures run[i] != "" {
        if i < |run| - 1 { assert ButLast(Rows(w))[i] == Rows(w)[i]; }
      }
    }
    RestRun(run, LinesOf(Rows(m)), Empty, NOTHING, v);
    RestRun(run, LinesOf(Rows(m)), Blank, NOTHING, v);
  }

  /** One flush of a chunk that ends inside a pair. */
  lemma {:induction false} FlushSplit(w: string, m: string, v: View)
    requires '\r' !in w && Steady(Rows(w + "\r" + m), {EMPTY}, false, v)
    ensures Seen(FlushOpen(w + "\n", v.trim).0, v) + Once(FlushOpen(w + "\n", v.trim).1 + ("\n" + CrToLf(m)), v)
         == Once(w + "\n" + CrToLf(m), v)
    ensures Steady(Rows(FlushOpen(w + "\n", v.trim).1 + ("\n" + m)), {EMPTY}, false, v)
    decreases |w|
  {
    hide Rows, Once, Seen, IndexOf, BlockEvents, Steady, FlushOpen;
    var text := w + "\n";
    if IndexOf(text, SEPARATOR) == -1 {
      FlushSplitOpen(w, m, v);
    } else {
      var head, rest := CutFirstParagraph(text);
      SplitParagraph(w, head, rest, m, v);
      if rest != "" {
        var later := ButLast(rest);
        assert rest == later + "\n" by { assert Last(rest) == Last(text); }
        assert '\r' !in later by { assert forall i | 0 <= i < |later| :: later[i] == text[|head| + 2 + i]; }
        FlushSplit(later, m, v);
      } else {
        EmptyFlush(v);
        SeenNothing(v);
        assert "" + ("\n" + m) == "\n" + m && "" + ("\n" + CrToLf(m)) == "\n" + CrToLf(m)
          && "" + CrToLf(m) == CrToLf(m);
        assert [] + Once("\n" + CrToLf(m), v) == Once("\n" + CrToLf(m), v);
        SplitAfterBlank(head, m, v);
      }
      FlushOpenAfterParagraph(text, head, rest, v.trim);
      SeenAppend(BlockEvents(head, v.trim), FlushOpen(rest, v.trim).0, v);
      AppendAssociates(Seen(BlockEvents(head, v.trim), v), Seen(FlushOpen(rest, v.trim).0, v),
                       Once(FlushOpen(rest, v.trim).1 + ("\n" + CrToLf(m)), v));
    }
  }

  lemma SplitParagraph(w: string, head: string, rest: string, m: string, v: View)
    requires '\r' !in w && FirstParagraph(w + "\n", head, rest) && Steady(Rows(w + "\r" + m), {EMPTY}, false, v)
    ensures Once(w + "\n" + CrToLf(m), v) == Seen(BlockEvents(head, v.trim), v) + Once(rest + CrToLf(m), v)
    ensures if rest == "" then Steady(Rows(m), {EMPTY, BLANK}, false, v)
            else Steady(Rows(ButLast(rest) + "\r" + m), {EMPTY}, false, v)
  {
    hide Rows, Once, Seen, IndexOf, BlockEvents, Steady;
    var text := w + "\n";
    FirstParagraphExtends(text, head, rest, CrToLf(m));
    OnceParagraph(text + CrToLf(m), head, rest + CrToLf(m), v);
    if head != "" {
      HeadEnds(text, head, rest);
    }
    assert '\r' !in head by { assert forall i | 0 <= i < |head| :: head[i] == text[i]; }
    assert w == ButLast(text);
    if rest == "" {
      assert ButLast(head + SEPARATOR + rest) == head + "\n";
      assert w + "\r" + m == head + "\n" + ['\r'] + m;
      SteadyAfterParagraph(head, '\r', m, v);
    } else {
      var later := ButLast(rest);
      assert ButLast(head + SEPARATOR + rest) == head + SEPARATOR + later;
      assert w + "\r" + m == head + "\n" + ['\n'] + (later + "\r" + m);
      SteadyAfterParagraph(head, '\n', later + "\r" + m, v);
    }
  }

  lemma FlushSplitOpen(w: string, m: string, v: View)
    requires '\r' !in w && Steady(Rows(w + "\r" + m), {EMPTY}, false, v) && IndexOf(w + "\n", SEPARATOR) == -1
    ensures Seen(FlushOpen(w + "\n", v.trim).0, v) + Once(FlushOpen(w + "\n", v.trim).1 + ("\n" + CrToLf(m)), v)
         == Once(w + "\n" + CrToLf(m), v)
    ensures Steady(Rows(FlushOpen(w + "\n", v.trim).1 + ("\n" + m)), {EMPTY}, false, v)
  {
    hide Rows, Once, Seen, IndexOf, BlockEvents, Steady, FlushOpen, CrToLf;
    var text := w + "\n";
    OpenFlushIs(text, v);
    if EarlyLine(text).Some? {
      var j := EarlyLine(text).value;
      EarlyLineIs(text);
      SplitEarlyLine(w, text[..j], text[j + 1..], m, v);
    } else {
      SplitOpen(w, m, v);
      NothingSeen(Once(text + ("\n" + CrToLf(m)), v), v);
    }
  }

  lemma SplitEarlyLine(w: string, line: string, z: string, m: string, v: View)
    requires '\r' !in w && w + "\n" == line + "\n" + z && OneLine(line) && IsData(line)
    requires IndexOf(w + "\n", SEPARATOR) == -1 && Steady(Rows(w + "\r" + m), {EMPTY}, false, v)
    ensures Seen(BlockEvents(line, v.trim), v) + Once(z + ("\n" + CrToLf(m)), v) == Once(w + "\n" + CrToLf(m), v)
    ensures Steady(Rows(z + ("\n" + m)), {EMPTY}, false, v)
  {
    hide Rows, Once, Seen, IndexOf, BlockEvents, Steady, IsData;
    var text := w + "\n";
    assert w == ButLast(text);
    if z == "" {
      assert ButLast(line + "\n" + z) == line;
    } else {
      assert ButLast(line + "\n" + z) == line + "\n" + ButLast(z);
      assert z == ButLast(z) + "\n" by { assert Last(z) == Last(w + "\n"); }
      assert w == line + "\n" + ButLast(z);
      assert '\r' !in z by { assert forall i | 0 <= i < |z| :: z[i] == (w + "\n")[|line| + 1 + i]; }
    }
    SplitEarly(line, z, m, v);
  }

  lemma EmptyFlush(v: View)
    ensures FlushOpen("", v.trim).0 == [] && FlushOpen("", v.trim).1 == ""
  {
  }

  // ------------------------------------------------------------------- all the chunks

  /** Characters without a line end behind the last flush. */
  lemma {:induction false} TailOnce(text: string, tail: string, v: View)
    requires OneLine(tail)
    ensures FlushOpen(text + tail, v.trim).0 == FlushOpen(text, v.trim).0
    ensures FlushOpen(text + tail, v.trim).1 == FlushOpen(text, v.trim).1 + tail
    decreases |text|
  {
    hide IndexOf, BlockEvents, FlushOpen;
    if IndexOf(text, SEPARATOR) != -1 {
      var head, rest := CutFirstParagraph(text);
      FirstParagraphExtends(text, head, rest, tail);
      FlushOpenAfterParagraph(text, head, rest, v.trim);
      FlushOpenAfterParagraph(text + tail, head, rest + tail, v.trim);
      TailOnce(rest, tail, v);
    } else {
      NoSeparatorBefore(text, tail);
      TailOpen(text, tail, v);
    }
  }

  lemma TailOpen(text: string, tail: string, v: View)
    requires OneLine(tail) && IndexOf(text, SEPARATOR) == -1 && IndexOf(text + tail, SEPARATOR) == -1
    ensures FlushOpen(text + tail, v.trim).0 == FlushOpen(text, v.trim).0
    ensures FlushOpen(text + tail, v.trim).1 == FlushOpen(text, v.trim).1 + tail
  {
    hide IndexOf, BlockEvents, EarlyLine, CompleteBlocks, Remainder;
    SingleParagraph(text, v.trim);
    SingleParagraph(text + tail, v.trim);
    TailEarly(text, tail);
  }

  lemma NoSeparatorBefore(text: string, tail: string)
    requires OneLine(tail) && IndexOf(text, SEPARATOR) == -1
    ensures IndexOf(text + tail, SEPARATOR) == -1
  {
    IndexOfFirst(text, SEPARATOR);
    IndexOfFirst(text + tail, SEPARATOR);
    OccursAtChars(text + tail, IndexOf(text + tail, SEPARATOR));
    OccursAtChars(text, IndexOf(text + tail, SEPARATOR));
  }

  lemma TailEarly(text: string, tail: string)
    requires OneLine(tail)
    ensures EarlyLine(text + tail) == EarlyLine(text)
    ensures EarlyLine(text).Some? ==>
      var j := EarlyLine(text).value;
      (text + tail)[..j] == text[..j] && (text + tail)[j + 1..] == text[j + 1..] + tail
  {
    if '\n' in text {
      var line, z := CutFirstLine(text);
      assert text + tail == line + "\n" + (z + tail);
      FirstLineFeed(line, z);
      FirstLineFeed(line, z + tail);
      assert (text + tail)[..|line|] == text[..|line|];
    } else {
      NoLineFeed(text);
      NoLineFeed(text + tail);
    }
  }

  lemma {:induction false} NoLineFeed(text: string)
    requires '\n' !in text
    ensures IndexOf(text, "\n") == -1
  {
    if text != "" {
      assert text[..1] == [text[0]];
      NoLineFeed(text[1..]);
    }
  }

  lemma ClearMarks(before: string, a: string, after: string, v: View)
    requires Steady(Rows(before + Marks(a) + after), {EMPTY}, false, v)
    ensures Steady(Rows(before + Normalize(a) + after), {EMPTY}, false, v)
  {
    hide Rows, Steady, Normalize, Marks;
    MarksNormalize(a);
    CrToLfFewer(Marks(a));
    assert FewerMarks(before + Normalize(a) + after, before + Marks(a) + after);
    FewerMarksRows(before + Normalize(a) + after, before + Marks(a) + after);
    SteadyWithin(Rows(before + Normalize(a) + after), {EMPTY}, false,
                 Rows(before + Marks(a) + after), {EMPTY}, false, v);
  }

  lemma ParseStep(buffer: string, chunks: seq<string>, tail: string, v: View)
    requires '\r' !in buffer && chunks != []
    ensures var text := buffer + Normalize(chunks[0]);
            && '\r' !in text && '\r' !in FlushOpen(text, v.trim).1
            && Seen(ParseEvents(buffer, chunks, tail, v.trim), v)
               == Seen(FlushOpen(text, v.trim).0, v)
                 + Seen(ParseEvents(FlushOpen(text, v.trim).1, chunks[1..], tail, v.trim), v)
  {
    hide Normalize, FlushOpen, FlushDone, Seen;
    NormalizeAfter(buffer, chunks[0]);
    NormalizeClean(chunks[0]);
    var text := buffer + Normalize(chunks[0]);
    FlushOpenClean(text, v.trim);
    SeenAppend(FlushOpen(text, v.trim).0, ParseEvents(FlushOpen(text, v.trim).1, chunks[1..], tail, v.trim), v);
  }

  /** However a steady text arrives, it gives what it gives in one piece. */
  lemma {:induction false} SteadyRun(buffer: string, chunks: seq<string>, tail: string, v: View)
    requires '\r' !in buffer && chunks != [] && OneLine(tail)
    requires Steady(Rows(buffer + Marks(Flatten(chunks) + tail)), {EMPTY}, false, v)
    ensures Seen(ParseEvents(buffer, chunks, tail, v.trim), v) == Once(buffer + Normalize(Flatten(chunks) + tail), v)
    decreases |chunks|
  {
    hide Normalize, FlushOpen, FlushDone, Rows, Steady, Marks, Seen, Once;
    var c, future := chunks[0], Flatten(chunks[1..]) + tail;
    AppendAssociates(c, Flatten(chunks[1..]), tail);
    ParseStep(buffer, chunks, tail, v);
    if |chunks| == 1 {
      LastChunk(buffer, c, tail, v);
      assert chunks[1..] == [];
      assert Flatten(chunks) + tail == c + tail;
    } else {
      RunStep(buffer, c, future, v);
      SteadyRun(FlushOpen(buffer + Normalize(c), v.trim).1, chunks[1..], tail, v);
    }
  }

  lemma LastChunk(buffer: string, c: string, tail: string, v: View)
    requires '\r' !in buffer && OneLine(tail)
    ensures var (blocks, rest) := FlushOpen(buffer + Normalize(c), v.trim);
            Seen(blocks, v) + Seen(ParseEvents(rest, [], tail, v.trim), v) == Once(buffer + Normalize(c + tail), v)
  {
    hide Normalize, FlushOpen, FlushDone, Seen;
    var text := buffer + Normalize(c);
    NormalizeAppend(c, tail);
    NormalizeClean(tail);
    AppendAssociates(buffer, Normalize(c), tail);
    TailOnce(text, tail, v);
    NormalizeClean(c);
    FlushOpenClean(text, v.trim);
    NormalizeClean(FlushOpen(text, v.trim).1 + tail);
  }

  lemma RunStep(buffer: string, c: string, future: string, v: View)
    requires '\r' !in buffer && Steady(Rows(buffer + Marks(c + future)), {EMPTY}, false, v)
    ensures var (blocks, rest) := FlushOpen(buffer + Normalize(c), v.trim);
            && Seen(blocks, v) + Once(rest + Normalize(future), v) == Once(buffer + Normalize(c + future), v)
            && Steady(Rows(rest + Marks(future)), {EMPTY}, false, v)
  {
    hide Normalize, FlushOpen, Rows, Steady, Marks, Seen, Once;
    MarksNormalize(future);
    NormalizeClean(c);
    if SplitsPair(c, future) {
      var a, b := ButLast(c), future[1..];
      assert c == a + "\r" && future == "\n" + b;
      MarksSplit(a, b);
      NormalizeSplit(a, b);
      MarksNormalize(b);
      assert buffer + (Marks(a) + "\r" + Marks(b)) == buffer + Marks(a) + ("\r" + Marks(b));
      ClearMarks(buffer, a, "\r" + Marks(b), v);
      var w := buffer + Normalize(a);
      NormalizeClean(a);
      assert w + ("\r" + Marks(b)) == w + "\r" + Marks(b);
      FlushSplit(w, Marks(b), v);
      assert buffer + (Normalize(a) + "\n") == w + "\n";
      assert buffer + (Normalize(a) + ("\n" + Normalize(b))) == w + "\n" + Normalize(b);
    } else {
      MarksAppend(c, future);
      NormalizeAppend(c, future);
      AppendAssociates(buffer, Marks(c), Marks(future));
      AppendAssociates(buffer, Normalize(c), Normalize(future));
      ClearMarks(buffer, c, Marks(future), v);
      FlushStep(buffer + Normalize(c), Marks(future), v);
    }
  }

  lemma OnceWhole(text: string, v: View)
    ensures Seen(ParseEvents("", [text], "", v.trim), v) == Once(Normalize(text), v)
  {
    hide Normalize, FlushOpen, FlushDone, Seen, Once;
    ParseStep("", [text], "", v);
    LastChunk("", text, "", v);
    assert [text][1..] == [] && text + "" == text && "" + Normalize(text) == Normalize(text);
  }

  /** A steady text gives the same for every chunking, also if closing the character decoder
      still yields some characters, without a line end. */
  lemma SteadyReads(chunks: seq<string>, tail: string, v: View)
    requires OneLine(tail) && SteadyText(Flatten(chunks) + tail, v)
    ensures Seen(ParseEvents("", chunks, tail, v.trim), v)
         == Seen(ParseEvents("", [Flatten(chunks) + tail], "", v.trim), v)
  {
    hide Normalize, FlushOpen, FlushDone, Seen, Once, Rows, Steady, Marks;
    var text := Flatten(chunks) + tail;
    OnceWhole(text, v);
    assert "" + Marks(text) == Marks(text) && "" + Normalize(text) == Normalize(text);
    if chunks == [] {
      assert text == tail;
      NoChunks(tail, v);
    } else {
      SteadyRun("", chunks, tail, v);
    }
  }

  lemma NoChunks(tail: string, v: View)
    requires OneLine(tail)
    ensures Seen(ParseEvents("", [], tail, v.trim), v) == Once(Normalize(tail), v)
  {
    hide Normalize, FlushOpen, FlushDone;
    NormalizeClean(tail);
    TailOnce("", tail, v);
    EmptyFlush(v);
    assert "" + tail == tail;
    SeenNothing(v);
  }
}
