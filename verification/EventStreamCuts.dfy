/** Where a steady text is cut, what is left is steady: behind a paragraph, behind a data
    line handed over early, and inside a CR LF pair. */
module EventStreamCuts {
  import opened Text
  import opened EventStream
  import opened EventStreamTheorems
  import opened EventStreamBoundaries
  import opened EventStreamPairs
  import opened EventStreamRows
  import opened EventStreamScan

  // ----------------------------------------------------------- behind complete paragraphs

  lemma StartFits()
    ensures AllFit({EMPTY}, false) && AllFit({BLANK}, false) && AllFit({EMPTY, BLANK}, false)
  {
  }

  /** Reading on to a blank line. */
  lemma {:induction false} WalkTo(a: seq<Row>, b: seq<Row>, configs: set<Config>, seen: bool, v: View)
    returns (configs': set<Config>, seen': bool)
    requires |b| > 1 && b[0].line == "" && AllFit(configs, seen) && Steady(a + b, configs, seen, v)
    ensures AllFit(configs', seen') && Steady(b, configs', seen', v)
    ensures a != [] && Last(a).line != "" ==> exists c | c in configs' :: c.mode != Empty
  {
    if a == [] {
      assert a + b == b;
      configs', seen' := configs, seen;
    } else {
      hide AllFit, IsData, Agree;
      var row := a[0];
      assert (a + b)[0] == row && (a + b)[1..] == a[1..] + b;
      assert !OpenEnd(LinesOf(a + b)) by { assert LinesOf(a + b)[|a|] == b[0].line; }
      BlankIsNoData();
      NextFits(configs, row, seen, v);
      var next, seen1 := Next(configs, row, seen, v), row.line != "" && (seen || IsData(row.line));
      configs', seen' := WalkTo(a[1..], b, next, seen1, v);
      if |a| > 1 {
        assert Last(a[1..]) == Last(a);
      } else if row.line != "" {
        assert a[1..] == [];
        WalkOne(configs, row, seen, v);
        configs', seen' := next, seen1;
        assert a[1..] + b == b;
      }
    }
  }

  lemma WalkOne(configs: set<Config>, row: Row, seen: bool, v: View)
    requires AllFit(configs, seen) && row.line != ""
    ensures exists c | c in Next(configs, row, seen, v) :: c.mode != Empty
  {
    var c :| c in configs;
    StayNext(c, configs, row, seen, v);
    assert Stay(c, row.line, v).mode != Empty;
  }

  /** Behind the blank line that ends a paragraph the buffer is empty; and if that line ends
      with a pair, it may also hold one more blank line. */
  lemma SteadyAfterParagraph(head: string, c: char, m: string, v: View)
    requires '\r' !in head && (head == "" || Last(head) != '\n') && (c == '\n' || c == '\r')
    requires Steady(Rows(head + "\n" + [c] + m), {EMPTY}, false, v)
    ensures Steady(Rows(m), if c == '\r' then {EMPTY, BLANK} else {EMPTY}, false, v)
  {
    hide Rows, Steady, Next, Fit;
    var a, row, b := EndLast(Rows(head), false), Row("", c == '\r'), Rows(m);
    assert head + "\n" + [c] + m == head + ['\n'] + ([c] + m);
    RowsCut(head, '\n', [c] + m);
    assert [c] + m == "" + [c] + m;
    FirstRow("", c, m);
    StartFits();
    var configs, seen := {EMPTY}, false;
    if head == "" {
      RowsOfOne("");
      assert a == [Row("", false)];
      configs := Next({EMPTY}, Row("", false), false, v);
      SteadyBlank(Row("", false), [row] + b, {EMPTY}, false, v);
      StayNext(EMPTY, {EMPTY}, Row("", false), false, v);
      assert BLANK in configs;
    } else {
      LastRowNotBlank(head);
      configs, seen := WalkTo(a, [row] + b, {EMPTY}, false, v);
    }
    var d :| d in configs && d.mode != Empty;
    SteadyBlank(row, b, configs, seen, v);
    StayNext(d, configs, row, seen, v);
    SteadyLess(b, if c == '\r' then {EMPTY, BLANK} else {EMPTY}, Next(configs, row, seen, v), v);
  }

  lemma SteadyBlank(row: Row, rows: seq<Row>, configs: set<Config>, seen: bool, v: View)
    requires row.line == "" && rows != [] && Steady([row] + rows, configs, seen, v)
    ensures Steady(rows, Next(configs, row, seen, v), false, v)
  {
    assert ([row] + rows)[1..] == rows;
  }

  // --------------------------------------------------------- a data line handed over early

  lemma OnceRows(marks: string, v: View)
    ensures Once(CrToLf(marks), v) == Rest(LinesOf(Rows(marks)), Empty, NOTHING, v)
  {
    hide Once, Rest, Rows;
    CrToLfClean(marks);
    RowsLines(marks);
    OnceIsRest(CrToLf(marks), v);
  }

  lemma CrToLfClear(text: string, marks: string)
    requires '\r' !in text
    ensures CrToLf(text + marks) == text + CrToLf(marks)
  {
    CrToLfAppend(text, marks);
    CrToLfClean(text);
  }

  lemma ForcedRows(line: string, rows: seq<Row>, v: View)
    requires IsData(line) && rows != [] && OpenEnd([line] + LinesOf(rows)) && Steady(rows, {EMPTY, BLANK}, false, v)
    ensures var rest, block := LinesOf(rows), [EventBlock(DataOf(line, v.trim), false)];
            && Rest([line] + rest, Empty, NOTHING, v) == block + Rest(rest, Blank, NOTHING, v)
            && Rest(rest, Blank, NOTHING, v) == Rest(rest, Empty, NOTHING, v)
            && OpenEnd(rest)
    ensures Steady(rows, {EMPTY}, false, v)
  {
    hide Rest, Named, DataOf, Total, IsData, Steady;
    var rest := LinesOf(rows);
    StartFits();
    OpenEndTail(line, rest);
    ForcedRest(line, rest, v);
    Confluent(rows, {EMPTY, BLANK}, false, [], EMPTY, BLANK, v);
    FreshTotal(rest, Empty, v);
    FreshTotal(rest, Blank, v);
    SteadyLess(rows, {EMPTY}, {EMPTY, BLANK}, v);
  }

  lemma HandedRows(line: string, pair: bool, rows: seq<Row>, v: View)
    requires IsData(line) && rows != [] && !OpenEnd([line] + LinesOf(rows))
    requires Steady(rows, Next({EMPTY}, Row(line, pair), false, v), true, v)
    ensures var rest, block := LinesOf(rows), [EventBlock(DataOf(line, v.trim), false)];
            && Rest([line] + rest, Empty, NOTHING, v) == block + Rest(rest, Empty, NOTHING, v)
            && (pair ==> Rest([line] + rest, Empty, NOTHING, v) == block + Rest(rest, Blank, NOTHING, v))
    ensures AllFit(Next({EMPTY}, Row(line, pair), false, v), true) && HANDED in Next({EMPTY}, Row(line, pair), false, v)
    ensures Steady(rows, {EMPTY}, false, v) && (pair ==> Steady(rows, {EMPTY, BLANK}, false, v))
  {
    hide Rest, Named, DataOf, Total, Steady, Fit, AllFit, Next;
    var row, rest, data := Row(line, pair), LinesOf(rows), DataOf(line, v.trim);
    var configs := Next({EMPTY}, row, false, v);
    StartFits();
    DataLine(line, v);
    NotBlank(line);
    NextFits({EMPTY}, row, false, v);
    StayNext(EMPTY, {EMPTY}, row, false, v);
    StayTotal(EMPTY, line, rest, [], v);
    assert [] + data == data;
    FreshTotal([line] + rest, Empty, v);
    Confluent(rows, configs, true, data, Stay(EMPTY, line, v), HANDED, v);
    HandedTotal(rest, Empty, data, v);
    SamePairs(rows);
    SteadyWithin(rows, {EMPTY}, false, rows, configs, true, v);
    if pair {
      var led := Config(Blank, false, Some(false));
      Confluent(rows, configs, true, data, led, HANDED, v);
      HandedTotal(rest, Blank, data, v);
      SteadyWithin(rows, {EMPTY, BLANK}, false, rows, configs, true, v);
    }
  }

  lemma NotBlank(line: string)
    requires IsData(line)
    ensures line != ""
  {
  }

  /** The first data line of a steady text can be handed over on its own. `configs` is what
      the scan holds behind it. */
  lemma EarlyRows(line: string, pair: bool, rows: seq<Row>, v: View) returns (configs: set<Config>, seen: bool)
    requires IsData(line) && rows != [] && Steady([Row(line, pair)] + rows, {EMPTY}, false, v)
    ensures AllFit(configs, seen) && Steady(rows, configs, seen, v)
    ensures if seen then HANDED in configs else configs == {EMPTY, BLANK}
    ensures var block := [EventBlock(DataOf(line, v.trim), false)];
            && Rest([line] + LinesOf(rows), Empty, NOTHING, v) == block + Rest(LinesOf(rows), Empty, NOTHING, v)
            && (pair ==>
                  Rest([line] + LinesOf(rows), Empty, NOTHING, v) == block + Rest(LinesOf(rows), Blank, NOTHING, v))
    ensures Steady(rows, {EMPTY}, false, v)
    ensures pair ==> Steady(rows, {EMPTY, BLANK}, false, v)
  {
    hide Rest, Named, DataOf, IsData, Next, AllFit;
    assert ([Row(line, pair)] + rows)[1..] == rows && LinesOf([Row(line, pair)] + rows) == [line] + LinesOf(rows);
    NotBlank(line);
    if OpenEnd([line] + LinesOf(rows)) {
      configs, seen := {EMPTY, BLANK}, false;
      StartFits();
      ForcedRows(line, rows, v);
    } else {
      configs, seen := Next({EMPTY}, Row(line, pair), false, v), true;
      HandedRows(line, pair, rows, v);
    }
  }

  lemma HandedTotal(lines: seq<string>, mode: Mode, data: seq<string>, v: View)
    requires lines != []
    ensures Total(lines, Config(mode, false, Some(false)), data, v)
         == [EventBlock(data, false)] + Rest(lines, mode, NOTHING, v)
  {
  }

  // ----------------------------------------------------------- a pair read as two line ends

  predicate PlainRun(rows: seq<Row>) {
    forall i | 0 <= i < |rows| :: !rows[i].pair && rows[i].line != ""
  }

  lemma PlainTail(rows: seq<Row>)
    requires PlainRun(rows) && rows != []
    ensures PlainRun(rows[1..]) && !rows[0].pair && rows[0].line != ""
  {
    forall i | 0 <= i < |rows[1..]| ensures !rows[1..][i].pair && rows[1..][i].line != "" {
      assert rows[1..][i] == rows[i + 1];
    }
  }

  function FirstLine(a: seq<Row>, line: string): string {
    if a == [] then line else a[0].line
  }

  /** What is held at the end of a run yields the same whether the pair behind the run is one
      line end or two. */
  lemma {:induction false} CutRun(
      a: seq<Row>, line: string, b: seq<Row>, configs: set<Config>, seen: bool, c: Config, data: seq<string>, v: View)
    requires PlainRun(a) && line != "" && b != [] && AllFit(configs, seen)
    requires Steady(a + [Row(line, true)] + b, configs, seen, v)
    requires c in configs && c.mode != Early && (c.mode == Empty ==> !IsData(FirstLine(a, line)))
    requires seen <==> data != []
    ensures Total(LinesOf(a) + [line] + LinesOf(b), c, data, v)
         == Total(LinesOf(a) + [line, ""] + LinesOf(b), c, data, v)
    decreases |a|
  {
    hide Rest, Named, DataOf, Total, IsData, Agree, FinalAgree, AllFit, Next, Forced, Breaks, OpenEnd;
    var rows, row := a + [Row(line, true)] + b, if a == [] then Row(line, true) else a[0];
    var lines, lines' := LinesOf(a) + [line] + LinesOf(b), LinesOf(a) + [line, ""] + LinesOf(b);
    var first := row.line;
    assert rows[0] == row && lines[0] == lines'[0] == first;
    NotForced(rows, configs, c);
    assert c.handed.Some? ==> !IsData(first) by { QuietIfHanded(c, configs, seen, first); }
    assert lines == [first] + lines[1..] && lines' == [first] + lines'[1..];
    var next, data' := Next(configs, row, seen, v), data + DataOf(first, v.trim);
    StayNext(c, configs, row, seen, v);
    NextFits(configs, row, seen, v);
    DataLine(first, v);
    if a == [] {
      assert rows[1..] == b && lines[1..] == LinesOf(b) && lines'[1..] == [""] + LinesOf(b);
      StayTotal(c, line, LinesOf(b), data, v);
      StayTotal(c, line, [""] + LinesOf(b), data, v);
      CutHere(line, b, configs, seen, c, data, v);
    } else {
      PlainTail(a);
      assert rows[1..] == a[1..] + [Row(line, true)] + b;
      assert lines[1..] == LinesOf(a[1..]) + [line] + LinesOf(b);
      assert lines'[1..] == LinesOf(a[1..]) + [line, ""] + LinesOf(b);
      StayTotal(c, first, lines[1..], data, v);
      StayTotal(c, first, lines'[1..], data, v);
      CutRun(a[1..], line, b, next, seen || IsData(first), Stay(c, first, v), data', v);
    }
  }

  lemma FitIn(c: Config, configs: set<Config>, seen: bool)
    requires AllFit(configs, seen) && c in configs
    ensures Fit(c, seen) && (c.handed.Some? ==> seen)
  {
  }

  lemma NotForced(rows: seq<Row>, configs: set<Config>, c: Config)
    requires rows != [] && c in configs && (c.mode == Empty ==> !IsData(rows[0].line))
    ensures !Forced(rows, configs)
  {
    assert configs == {EMPTY} ==> c == EMPTY;
  }

  lemma QuietIfHanded(c: Config, configs: set<Config>, seen: bool, line: string)
    requires AllFit(configs, seen) && c in configs && !Breaks(configs, line, seen)
    ensures c.handed.Some? ==> !IsData(line)
  {
    FitIn(c, configs, seen);
  }

  lemma CutHere(line: string, b: seq<Row>, configs: set<Config>, seen: bool, c: Config, data: seq<string>, v: View)
    requires line != "" && b != [] && AllFit(configs, seen) && c in configs && !Breaks(configs, line, seen)
    requires Steady(b, Next(configs, Row(line, true), seen, v), seen || IsData(line), v)
    requires c.mode != Early && (c.mode == Empty ==> !IsData(line)) && (seen <==> data != [])
    ensures Total(LinesOf(b), Stay(c, line, v), data + DataOf(line, v.trim), v)
         == Total([""] + LinesOf(b), Stay(c, line, v), data + DataOf(line, v.trim), v)
  {
    hide Rest, Named, DataOf, IsData;
    var row, data' := Row(line, true), data + DataOf(line, v.trim);
    var next, seen' := Next(configs, row, seen, v), seen || IsData(line);
    var d, k := Stay(c, line, v), Cut(c, line, seen, v);
    FitIn(c, configs, seen);
    DataLine(line, v);
    StayNext(c, configs, row, seen, v);
    NextFits(configs, row, seen, v);
    FitIn(d, next, seen');
    BlankTotal(d, LinesOf(b), seen', data', v);
    Confluent(b, next, seen', data', d, k, v);
    assert k.mode == Empty && !k.bad && d.mode == Open;
    if k.handed.Some? {
      assert k.handed.value == ClosesAsError(d) && data' != [];
    } else {
      assert data' == [];
    }
  }

  // ------------------------------------------------- and leaves behind a steady text

  /** What two configurations have handed over is the same. */
  lemma HandedAgree(rows: seq<Row>, configs: set<Config>, c: Config, c': Config, v: View)
    requires rows != [] && Steady(rows, configs, true, v) && AllFit(configs, true)
    requires c in configs && c' in configs && c.handed.Some? && c'.handed.Some?
    ensures c.handed == c'.handed
  {
    hide Rest, Steady;
    var data := [""];
    Confluent(rows, configs, true, data, c, c', v);
    assert Total(LinesOf(rows), c, data, v)[0] == EventBlock(data, c.handed.value);
    assert Total(LinesOf(rows), c', data, v)[0] == EventBlock(data, c'.handed.value);
  }

  /** Each configuration of the smaller scan is in the larger one, and an open paragraph that
      would be handed over early is there as one that would not, too. */
  predicate Covered(configs: set<Config>, seen: bool, configs': set<Config>, seen': bool) {
    && Within(configs, seen, configs', seen')
    && (seen == seen' ==> forall c | c in configs && c.mode == Early :: c.(mode := Open) in configs')
  }

  lemma NextCovered(configs: set<Config>, seen: bool, configs': set<Config>, seen': bool, row: Row, v: View)
    requires Covered(configs, seen, configs', seen') && AllFit(configs', seen')
    requires row.line != "" && !row.pair && !Breaks(configs', row.line, seen') && configs != {}
    requires EMPTY in configs && IsData(row.line) ==> BLANK in configs'
    ensures Covered(Next(configs, row, seen, v), seen || IsData(row.line),
                    Next(configs', row, seen', v), seen' || IsData(row.line))
    ensures EMPTY !in Next(configs, row, seen, v)
  {
    hide Named, IsData, Fit;
    var next, next' := Next(configs, row, seen, v), Next(configs', row, seen', v);
    var line := row.line;
    if seen == seen' {
      NextFewer(configs, configs', row, row, seen, v);
      forall d | d in next ensures d != EMPTY && (d.mode == Early ==> d.(mode := Open) in next') {
        var c := NextMember(d, configs, row, seen, v);
        if d.mode == Early {
          if c.mode == Early {
            StayNext(c.(mode := Open), configs', row, seen', v);
          } else {
            assert c.mode == Empty && IsData(line);
            FitIn(c, configs', seen');
            FitHandedData(c, configs', line, seen');
            StayNext(BLANK, configs', row, seen', v);
          }
        }
      }
    } else {
      var c0 :| c0 in configs;
      var h :| h in configs' && h.handed.Some? && h.mode == c0.mode;
      assert !IsData(line);
      NextHanded(configs, configs', row, row, v);
      forall d | d in next ensures d != EMPTY {
        var c := NextMember(d, configs, row, seen, v);
      }
    }
  }

  lemma FitHandedData(c: Config, configs: set<Config>, line: string, seen: bool)
    requires AllFit(configs, seen) && c in configs && c.mode == Empty && IsData(line) && !Breaks(configs, line, seen)
    ensures c == EMPTY
  {
  }

  /** What a configuration at the end of a run has handed over if the pair there is read as
      two line ends, whatever blank line then follows. */
  lemma HandsOver(c: Config, d: Config, line: string, configs: set<Config>, seen: bool, v: View)
    requires line != "" && AllFit(configs, seen) && c in configs && d in Succ(c, Row(line, false), seen, v)
    requires !Breaks(configs, line, seen)
    requires c.mode == Early ==> c.(mode := Open) in configs
    ensures var next := Next(configs, Row(line, true), seen, v);
            if seen || IsData(line) then
              && Config(Empty, false, Some(ClosesAsError(d))) in next
              && exists k | k in next :: k.handed.Some? && k.mode == AfterBlank(d.mode)
            else Config(AfterBlank(d.mode), false, None) in next
  {
    hide Named, IsData;
    var row := Row(line, true);
    FitIn(c, configs, seen);
    StayNext(c, configs, row, seen, v);
    if c.mode == Early {
      StayNext(c.(mode := Open), configs, row, seen, v);
      assert Cut(c.(mode := Open), line, seen, v) in Next(configs, row, seen, v);
    } else if c.mode == Empty && IsData(line) {
      FitHandedData(c, configs, line, seen);
      assert HANDED in Next(configs, row, seen, v);
      assert Config(Blank, false, Some(false)) in Next(configs, row, seen, v);
      NamedData(line, v);
    } else {
      assert Cut(c, line, seen, v) in Next(configs, row, seen, v);
    }
  }

  lemma NamedData(line: string, v: View)
    requires IsData(line)
    ensures Named(line, false, v) == false
  {
    assert line[0] == 'd';
  }

  lemma SplitSteadyHere(
      line: string, b: seq<Row>, configs: set<Config>, seen: bool, configs': set<Config>, seen': bool, v: View)
    requires line != "" && b != [] && configs != {} && AllFit(configs', seen') && !Breaks(configs', line, seen')
    requires Covered(configs, seen, configs', seen')
    requires Steady(b, Next(configs', Row(line, true), seen', v), seen' || IsData(line), v)
    requires EMPTY in configs && IsData(line) ==> BLANK in configs'
    ensures Steady([Row(line, false), Row("", false)] + b, configs, seen, v)
  {
    hide Named, IsData, Fit, Succ, FinalAgree;
    var row, blank := Row(line, false), Row("", false);
    var next, next' := Next(configs, row, seen, v), Next(configs', Row(line, true), seen', v);
    var seen1, seen1' := seen || IsData(line), seen' || IsData(line);
    var after := Next(next, blank, seen1, v);
    NextFits(configs', Row(line, true), seen', v);
    assert !Breaks(configs, line, seen) by { WithinBreaks(configs, seen, configs', seen', line); }
    if seen1 {
      assert seen == seen';
      forall d, e | d in next && e in next ensures ClosesAsError(d) == ClosesAsError(e) {
        var c := NextMember(d, configs, row, seen, v);
        var c' := NextMember(e, configs, row, seen, v);
        HandsOver(c, d, line, configs', seen', v);
        HandsOver(c', e, line, configs', seen', v);
        HandedAgree(b, next', Config(Empty, false, Some(ClosesAsError(d))),
                    Config(Empty, false, Some(ClosesAsError(e))), v);
      }
    }
    NextNotEmpty(configs, row, seen, v);
    NextNotEmpty(next, blank, seen1, v);
    assert Within(after, false, next', seen1') by {
      SplitWithin(line, configs, seen, configs', seen', v);
    }
    SamePairs(b);
    SteadyWithin(b, after, false, b, next', seen1', v);
    var rows := [row, blank] + b;
    assert rows[1..] == [blank] + b && rows[1..][1..] == b;
    assert !OpenEnd(LinesOf(rows)) by { assert LinesOf(rows)[1] == ""; }
  }

  lemma WithinBreaks(configs: set<Config>, seen: bool, configs': set<Config>, seen': bool, line: string)
    requires Within(configs, seen, configs', seen') && !Breaks(configs', line, seen')
    ensures !Breaks(configs, line, seen)
  {
    hide IsData;
  }

  lemma BlankMember(next: set<Config>, seen: bool, d': Config, v: View) returns (d: Config)
    requires d' in Next(next, Row("", false), seen, v)
    ensures d in next && d' == Config(AfterBlank(d.mode), false, None)
  {
    BlankIsNoData();
    d := NextMember(d', next, Row("", false), seen, v);
  }

  lemma SplitWithin(
      line: string, configs: set<Config>, seen: bool, configs': set<Config>, seen': bool, v: View)
    requires line != "" && configs != {} && AllFit(configs', seen') && !Breaks(configs', line, seen')
    requires Covered(configs, seen, configs', seen')
    ensures Within(Next(Next(configs, Row(line, false), seen, v), Row("", false), seen || IsData(line), v), false,
                   Next(configs', Row(line, true), seen', v), seen' || IsData(line))
  {
    hide Named, IsData, Fit, Succ;
    var row := Row(line, false);
    var next, next' := Next(configs, row, seen, v), Next(configs', Row(line, true), seen', v);
    forall d' | d' in Next(next, Row("", false), seen || IsData(line), v)
      ensures d'.handed.None? && d'.mode != Early
      ensures if seen' || IsData(line) then MayHaveHanded(next', d'.mode) else d' in next'
    {
      var d := BlankMember(next, seen || IsData(line), d', v);
      var c := NextMember(d, configs, row, seen, v);
      if seen == seen' {
        HandsOver(c, d, line, configs', seen', v);
      } else {
        var h :| h in configs' && h.handed.Some? && h.mode == c.mode;
        assert !IsData(line);
        HandedCut(c, d, h, line, configs', v);
      }
    }
  }

  lemma HandedCut(c: Config, d: Config, h: Config, line: string, configs: set<Config>, v: View)
    requires line != "" && !IsData(line) && c.handed.None? && c.mode != Early
    requires d in Succ(c, Row(line, false), false, v) && h in configs && h.handed.Some?
    ensures MayHaveHanded(Next(configs, Row(line, true), true, v), AfterBlank(d.mode))
  {
    hide Named, IsData;
    StayNext(h, configs, Row(line, true), true, v);
    assert Cut(h, line, true, v) in Next(configs, Row(line, true), true, v);
  }

  /** With the pair behind a run read as two line ends the rest is steady, for a scan that the
      one with the pair covers. */
  lemma {:induction false} SplitSteady(
      a: seq<Row>, line: string, b: seq<Row>,
      configs: set<Config>, seen: bool, configs': set<Config>, seen': bool, v: View)
    requires PlainRun(a) && line != "" && b != [] && configs != {} && AllFit(configs', seen')
    requires Steady(a + [Row(line, true)] + b, configs', seen', v)
    requires Covered(configs, seen, configs', seen')
    requires configs' == {EMPTY} ==> !IsData(FirstLine(a, line))
    requires EMPTY in configs && IsData(FirstLine(a, line)) ==> BLANK in configs'
    ensures Steady(a + [Row(line, false), Row("", false)] + b, configs, seen, v)
    decreases |a|
  {
    hide Named, IsData, Fit, Agree, FinalAgree, Covered;
    var rows, rows' := a + [Row(line, false), Row("", false)] + b, a + [Row(line, true)] + b;
    assert !Forced(rows', configs');
    if a == [] {
      assert rows == [Row(line, false), Row("", false)] + b && rows'[1..] == b;
      SplitSteadyHere(line, b, configs, seen, configs', seen', v);
    } else {
      var row := a[0];
      PlainTail(a);
      assert rows[0] == rows'[0] == row;
      assert rows[1..] == a[1..] + [Row(line, false), Row("", false)] + b;
      assert rows'[1..] == a[1..] + [Row(line, true)] + b;
      assert !OpenEnd(LinesOf(rows)) by { assert LinesOf(rows)[|a| + 1] == ""; }
      NextFits(configs', row, seen', v);
      NextCovered(configs, seen, configs', seen', row, v);
      NextNotEmpty(configs, row, seen, v);
      assert !Breaks(configs, row.line, seen) by { CoveredWithin(configs, seen, configs', seen', row.line); }
      assert Next(configs', row, seen', v) != {EMPTY} by { NoneEmpty(configs', row, seen', v); }
      SplitSteady(a[1..], line, b, Next(configs, row, seen, v), seen || IsData(row.line),
                  Next(configs', row, seen', v), seen' || IsData(row.line), v);
    }
  }

  lemma CoveredWithin(configs: set<Config>, seen: bool, configs': set<Config>, seen': bool, line: string)
    requires Covered(configs, seen, configs', seen') && !Breaks(configs', line, seen')
    ensures !Breaks(configs, line, seen)
  {
    WithinBreaks(configs, seen, configs', seen', line);
  }

  lemma NoneEmpty(configs: set<Config>, row: Row, seen: bool, v: View)
    requires AllFit(configs, seen) && row.line != ""
    ensures Next(configs, row, seen, v) != {EMPTY}
  {
    WalkOne(configs, row, seen, v);
  }
}
