/** A scan of the lines of a text that follows everything a decoder may hold while the text
    arrives in chunks. If all it may hold agrees, the chunking makes no difference. */
module EventStreamScan {
  import opened Text
  import opened EventStream
  import opened EventStreamTheorems
  import opened EventStreamBoundaries
  import opened EventStreamPairs
  import opened EventStreamRows

  // -------------------------------------------------------------------------- the scan

  /** What a decoder may hold between two rows: the buffer, whether the open paragraph names
      the error event so far, and, if the data of this run of lines has already been handed
      over, whether as an error event. */
  datatype Config = Config(mode: Mode, bad: bool, handed: Option<bool>)

  const EMPTY := Config(Empty, false, None)
  const BLANK := Config(Blank, false, None)

  function AfterBlank(mode: Mode): Mode {
    if mode == Empty then Blank else Empty
  }

  /** The row is read and nothing else happens. */
  function Stay(c: Config, line: string, v: View): Config {
    if line == "" then Config(AfterBlank(c.mode), false, None)
    else Config(Onward(c.mode, line), Named(line, c.bad, v), c.handed)
  }

  /** A chunk ends inside the pair behind the row, which is then read as two line ends. */
  function Cut(c: Config, line: string, seen: bool, v: View): Config {
    if line == "" then Config(AfterBlank(AfterBlank(c.mode)), false, None)
    else if c.mode == Empty && IsData(line) then Config(Blank, false, Some(false))
    else Config(Empty, false,
                if c.handed.Some? || (!seen && !IsData(line)) then c.handed
                else Some(c.mode != Early && Named(line, c.bad, v)))
  }

  /** A data line that finds the buffer empty is handed over at once. */
  const HANDED := Config(Empty, false, Some(false))

  function Succ(c: Config, row: Row, seen: bool, v: View): set<Config> {
    {Stay(c, row.line, v)}
    + (if row.pair then {Cut(c, row.line, seen, v)} else {})
    + (if c.mode == Empty && IsData(row.line) then {HANDED} else {})
  }

  function Next(configs: set<Config>, row: Row, seen: bool, v: View): set<Config> {
    set c, c' | c in configs && c' in Succ(c, row, seen, v) :: c'
  }

  /** More data in a run of lines whose data may have been handed over. */
  predicate Breaks(configs: set<Config>, line: string, seen: bool) {
    IsData(line) && seen && exists c | c in configs :: c.handed.Some?
  }

  /** Whether the message of the run is an error event, if a blank line ends the run here. */
  predicate ClosesAsError(c: Config) {
    match c.handed
    case Some(b) => b
    case None => c.bad
  }

  /** And if the text ends with this line: an early line has been handed over by then. */
  predicate EndsAsError(c: Config, line: string, v: View) {
    match c.handed
    case Some(b) => b
    case None => c.mode != Early && Named(line, c.bad, v)
  }

  predicate Agree(configs: set<Config>) {
    forall c, c' | c in configs && c' in configs :: ClosesAsError(c) == ClosesAsError(c')
  }

  predicate FinalAgree(configs: set<Config>, line: string, v: View) {
    forall c, c' | c in configs && c' in configs :: EndsAsError(c, line, v) == EndsAsError(c', line, v)
  }

  /** In a last run that no blank line ends, a first data line that always finds the buffer
      empty is always handed over on its own. */
  predicate Forced(rows: seq<Row>, configs: set<Config>)
    requires rows != []
  {
    IsData(rows[0].line) && OpenEnd(LinesOf(rows)) && configs == {EMPTY}
  }

  /** No run of lines can be split, or be an error event for one chunking and not for
      another. `seen` says whether the run so far has data. */
  predicate Steady(rows: seq<Row>, configs: set<Config>, seen: bool, v: View)
    requires rows != []
  {
    var line := rows[0].line;
    if |rows| == 1 then
      !Breaks(configs, line, seen) && (seen || IsData(line) ==> FinalAgree(configs, line, v))
    else if line == "" then
      (seen ==> Agree(configs)) && Steady(rows[1..], Next(configs, rows[0], seen, v), false, v)
    else if Forced(rows, configs) then
      Steady(rows[1..], {EMPTY, BLANK}, false, v)
    else
      !Breaks(configs, line, seen) && Steady(rows[1..], Next(configs, rows[0], seen, v), seen || IsData(line), v)
  }

  predicate SteadyText(text: string, v: View) {
    Steady(Rows(Marks(text)), {EMPTY}, false, v)
  }

  // ------------------------------------------------------------ what the scan may hold

  predicate Fit(c: Config, seen: bool) {
    && (c.mode == Empty || c.mode == Blank ==> !c.bad)
    && (c.handed.Some? ==> seen && c.mode != Early)
    && (c.handed.None? && seen ==> c.mode == Open || c.mode == Early)
    && (c.mode == Early ==> seen)
  }

  predicate AllFit(configs: set<Config>, seen: bool) {
    && configs != {}
    && (forall c | c in configs :: Fit(c, seen))
    && (forall c | c in configs && c.mode == Early :: Handable(configs))
  }

  /** The data may have been handed over, not as an error. */
  predicate Handable(configs: set<Config>) {
    exists c | c in configs :: c.handed == Some(false)
  }

  lemma StayNext(c: Config, configs: set<Config>, row: Row, seen: bool, v: View)
    requires c in configs
    ensures Stay(c, row.line, v) in Next(configs, row, seen, v)
    ensures row.pair ==> Cut(c, row.line, seen, v) in Next(configs, row, seen, v)
    ensures c.mode == Empty && IsData(row.line) ==> HANDED in Next(configs, row, seen, v)
  {
    hide Stay, Cut, IsData;
    assert Stay(c, row.line, v) in Succ(c, row, seen, v);
  }

  lemma SuccFit(c: Config, c': Config, row: Row, seen: bool, v: View)
    requires Fit(c, seen) && c' in Succ(c, row, seen, v)
    requires !(IsData(row.line) && seen && c.handed.Some?)
    ensures Fit(c', row.line != "" && (seen || IsData(row.line)))
  {
    hide Named;
    BlankIsNoData();
    hide IsData;
  }

  lemma NextFits(configs: set<Config>, row: Row, seen: bool, v: View)
    requires AllFit(configs, seen) && !Breaks(configs, row.line, seen)
    ensures AllFit(Next(configs, row, seen, v), row.line != "" && (seen || IsData(row.line)))
  {
    hide IsData, Named, Fit;
    var next, seen' := Next(configs, row, seen, v), row.line != "" && (seen || IsData(row.line));
    var c0 :| c0 in configs;
    StayNext(c0, configs, row, seen, v);
    forall c' | c' in next ensures Fit(c', seen') {
      var c :| c in configs && c' in Succ(c, row, seen, v);
      SuccFit(c, c', row, seen, v);
    }
    forall c' | c' in next && c'.mode == Early ensures Handable(next) {
      var c :| c in configs && c' in Succ(c, row, seen, v);
      EarlyNext(c, c', configs, row, seen, v);
    }
  }

  lemma EarlyNext(c: Config, c': Config, configs: set<Config>, row: Row, seen: bool, v: View)
    requires c in configs && c' in Succ(c, row, seen, v) && c'.mode == Early
    requires c.mode == Early ==> Handable(configs)
    ensures Handable(Next(configs, row, seen, v))
  {
    hide IsData, Named, Next;
    if c.mode == Empty && IsData(row.line) {
      StayNext(c, configs, row, seen, v);
    } else {
      assert c.mode == Early && row.line != "";
      var h :| h in configs && h.handed == Some(false);
      StayNext(h, configs, row, seen, v);
      assert Stay(h, row.line, v).handed == Some(false);
    }
  }

  // -------------------------------------------------------- all it may hold comes to one

  /** What a run of the decoder that holds `c` still yields if the rest arrives in one
      piece, with the data of the current run of lines counted in. */
  function Total(lines: seq<string>, c: Config, data: seq<string>, v: View): seq<EventBlock>
    requires lines != []
  {
    match c.handed
    case Some(b) => [EventBlock(data, b)] + Rest(lines, c.mode, Para([], c.bad), v)
    case None => Rest(lines, c.mode, Para(data, c.bad), v)
  }

  function ClosedRun(c: Config, data: seq<string>): seq<EventBlock> {
    if data == [] then [] else [EventBlock(data, ClosesAsError(c))]
  }

  lemma DataLine(line: string, v: View)
    ensures IsData(line) <==> DataOf(line, v.trim) != []
  {
    DataOfCount(line, v.trim);
  }

  lemma BlankTotal(c: Config, rest: seq<string>, seen: bool, data: seq<string>, v: View)
    requires rest != [] && Fit(c, seen) && (seen <==> data != [])
    ensures Total([""] + rest, c, data, v) == ClosedRun(c, data) + Rest(rest, AfterBlank(c.mode), NOTHING, v)
  {
    hide Rest, Fit;
    var lines := [""] + rest;
    assert lines[1..] == rest;
    RestBlank(rest, c.mode, Para(if c.handed.Some? then [] else data, c.bad), v);
    assert c.handed.Some? ==> seen by { FitHanded(c, seen); }
    if c.handed.Some? {
      assert Emit(Para([], c.bad)) == [];
      assert [] + Rest(rest, AfterBlank(c.mode), NOTHING, v) == Rest(rest, AfterBlank(c.mode), NOTHING, v);
    }
  }

  lemma FitHanded(c: Config, seen: bool)
    requires Fit(c, seen)
    ensures c.handed.Some? ==> seen && c.mode != Early
  {
  }

  lemma RestBlank(rest: seq<string>, mode: Mode, p: Para, v: View)
    requires rest != []
    ensures Rest([""] + rest, mode, p, v) == Emit(p) + Rest(rest, AfterBlank(mode), NOTHING, v)
  {
    assert ([""] + rest)[1..] == rest;
  }

  lemma RestLine(line: string, rest: seq<string>, mode: Mode, p: Para, v: View)
    requires line != "" && rest != []
    requires !(mode == Empty && IsData(line) && OpenEnd([line] + rest))
    ensures Rest([line] + rest, mode, p, v) == Rest(rest, Onward(mode, line), Take(p, line, v), v)
  {
    hide OpenEnd;
    assert ([line] + rest)[1..] == rest;
  }

  /** A line that is read without more moves what is yielded from the text to what is held. */
  lemma StayTotal(c: Config, line: string, rest: seq<string>, data: seq<string>, v: View)
    requires line != "" && rest != []
    requires !(c.mode == Empty && IsData(line) && OpenEnd([line] + rest))
    requires c.handed.Some? ==> !IsData(line)
    ensures Total([line] + rest, c, data, v) == Total(rest, Stay(c, line, v), data + DataOf(line, v.trim), v)
  {
    hide Rest, OpenEnd, IsData, DataOf, Named;
    DataLine(line, v);
    RestLine(line, rest, c.mode, Para(if c.handed.Some? then [] else data, c.bad), v);
    assert [] + DataOf(line, v.trim) == DataOf(line, v.trim);
    if c.handed.Some? {
      assert data + DataOf(line, v.trim) == data;
    }
  }

  lemma OpenEndTail(line: string, rest: seq<string>)
    requires OpenEnd([line] + rest)
    ensures OpenEnd(rest)
  {
    forall i | 0 <= i < |rest| - 1 ensures rest[i] != "" { assert rest[i] == ([line] + rest)[i + 1]; }
  }

  lemma {:induction false} QuietRest(lines: seq<string>, mode: Mode, bad: bool, v: View)
    requires lines != [] && OpenEnd(lines) && (forall i | 0 <= i < |lines| :: !IsData(lines[i]))
    ensures Rest(lines, mode, Para([], bad), v) == []
  {
    hide IsData, DataOf, Named;
    DataLine(lines[0], v);
    assert [] + DataOf(lines[0], v.trim) == [];
    if |lines| > 1 {
      assert lines == [lines[0]] + lines[1..];
      OpenEndTail(lines[0], lines[1..]);
      QuietRest(lines[1..], Onward(mode, lines[0]), Named(lines[0], bad, v), v);
    }
  }

  lemma RowsTail(rows: seq<Row>)
    requires |rows| > 1
    ensures LinesOf(rows) == [rows[0].line] + LinesOf(rows[1..]) && LinesOf(rows[1..]) != []
    ensures LinesOf(rows)[1..] == LinesOf(rows[1..])
  {
  }

  /** Behind data that may have been handed over, an open run has no more data. */
  lemma {:induction false} NoMoreData(rows: seq<Row>, configs: set<Config>, c: Config, v: View)
    requires rows != [] && Steady(rows, configs, true, v) && c in configs && c.handed.Some?
    requires OpenEnd(LinesOf(rows))
    ensures forall i | 0 <= i < |rows| :: !IsData(LinesOf(rows)[i])
  {
    hide IsData, Named, FinalAgree, Agree;
    if |rows| > 1 {
      RowsTail(rows);
      assert LinesOf(rows)[0] != "";
      OpenEndTail(rows[0].line, LinesOf(rows[1..]));
      StayNext(c, configs, rows[0], true, v);
      assert c != EMPTY;
      assert !Forced(rows, configs);
      NoMoreData(rows[1..], Next(configs, rows[0], true, v), Stay(c, rows[0].line, v), v);
      forall i | 0 < i < |rows| ensures !IsData(LinesOf(rows)[i]) {
        assert LinesOf(rows)[i] == LinesOf(rows[1..])[i - 1];
      }
    }
  }

  /** In a steady text everything the decoder may hold yields the same. */
  lemma {:induction false} Confluent(
      rows: seq<Row>, configs: set<Config>, seen: bool, data: seq<string>, c: Config, c': Config, v: View)
    requires rows != [] && Steady(rows, configs, seen, v) && AllFit(configs, seen)
    requires c in configs && c' in configs && (seen <==> data != [])
    ensures Total(LinesOf(rows), c, data, v) == Total(LinesOf(rows), c', data, v)
    decreases |rows|
  {
    var line := rows[0].line;
    if |rows| == 1 {
      LastTotal(line, configs, seen, data, c, v);
      LastTotal(line, configs, seen, data, c', v);
      assert LinesOf(rows) == [line];
    } else if line == "" {
      ConfluentBlank(rows, configs, seen, data, c, c', v);
    } else if !Forced(rows, configs) {
      hide Total, AllFit, Next, Forced, Breaks, IsData;
      var next, data' := Next(configs, rows[0], seen, v), data + DataOf(line, v.trim);
      DataLine(line, v);
      NextFits(configs, rows[0], seen, v);
      var d := LineTotal(rows, configs, seen, data, c, v);
      var d' := LineTotal(rows, configs, seen, data, c', v);
      Confluent(rows[1..], next, seen || IsData(line), data', d, d', v);
    }
  }

  lemma LastTotal(line: string, configs: set<Config>, seen: bool, data: seq<string>, c: Config, v: View)
    requires !Breaks(configs, line, seen) && AllFit(configs, seen) && c in configs && (seen <==> data != [])
    ensures var all := data + DataOf(line, v.trim);
            Total([line], c, data, v) == if all == [] then [] else [EventBlock(all, EndsAsError(c, line, v))]
  {
    hide DataOf, IsData, Named;
    DataLine(line, v);
    assert Fit(c, seen);
    assert [] + DataOf(line, v.trim) == DataOf(line, v.trim);
    if c.mode == Early {
      var h :| h in configs && h.handed == Some(false);
      assert data + [] == data;
    } else if c.handed.Some? {
      assert data + [] == data;
    }
  }

  lemma ConfluentBlank(
      rows: seq<Row>, configs: set<Config>, seen: bool, data: seq<string>, c: Config, c': Config, v: View)
    requires |rows| > 1 && rows[0].line == "" && Steady(rows, configs, seen, v) && AllFit(configs, seen)
    requires c in configs && c' in configs && (seen <==> data != [])
    ensures Total(LinesOf(rows), c, data, v) == Total(LinesOf(rows), c', data, v)
    decreases |rows|, 0
  {
    hide Rest, Named, IsData;
    var rest, next := LinesOf(rows[1..]), Next(configs, rows[0], seen, v);
    RowsTail(rows);
    BlankIsNoData();
    BlankTotal(c, rest, seen, data, v);
    BlankTotal(c', rest, seen, data, v);
    StayNext(c, configs, rows[0], seen, v);
    StayNext(c', configs, rows[0], seen, v);
    NextFits(configs, rows[0], seen, v);
    hide Total;
    Confluent(rows[1..], next, false, [], Stay(c, "", v), Stay(c', "", v), v);
    FreshTotal(rest, AfterBlank(c.mode), v);
    FreshTotal(rest, AfterBlank(c'.mode), v);
  }

  lemma FreshTotal(lines: seq<string>, mode: Mode, v: View)
    requires lines != []
    ensures Total(lines, Config(mode, false, None), [], v) == Rest(lines, mode, NOTHING, v)
  {
  }

  /** One line of a run: some configuration behind it yields the same in total. */
  lemma LineTotal(rows: seq<Row>, configs: set<Config>, seen: bool, data: seq<string>, c: Config, v: View)
    returns (d: Config)
    requires |rows| > 1 && rows[0].line != "" && Steady(rows, configs, seen, v) && AllFit(configs, seen)
    requires !Forced(rows, configs) && c in configs && (seen <==> data != [])
    ensures d in Next(configs, rows[0], seen, v)
    ensures Total(LinesOf(rows), c, data, v)
         == Total(LinesOf(rows[1..]), d, data + DataOf(rows[0].line, v.trim), v)
  {
    hide Rest, Named, DataOf, IsData, Agree, FinalAgree;
    var line, rest := rows[0].line, LinesOf(rows[1..]);
    RowsTail(rows);
    StayNext(c, configs, rows[0], seen, v);
    assert Fit(c, seen);
    if c.mode == Empty && IsData(line) && OpenEnd(LinesOf(rows)) {
      d := HANDED;
      var next := Next(configs, rows[0], seen, v);
      OpenEndTail(line, rest);
      NoMoreData(rows[1..], next, HANDED, v);
      QuietRest(rest, Empty, false, v);
      QuietRest(rest, Blank, false, v);
      DataLine(line, v);
      assert c.handed.None? && data == [];
      ForcedRest(line, rest, v);
      assert [] + DataOf(line, v.trim) == DataOf(line, v.trim);
    } else {
      d := Stay(c, line, v);
      hide Total;
      StayTotal(c, line, rest, data, v);
    }
  }

  lemma ForcedRest(line: string, rest: seq<string>, v: View)
    requires rest != [] && IsData(line) && OpenEnd([line] + rest)
    ensures Rest([line] + rest, Empty, NOTHING, v)
         == [EventBlock(DataOf(line, v.trim), false)] + Rest(rest, Blank, NOTHING, v)
  {
    assert ([line] + rest)[1..] == rest;
    DataLine(line, v);
    assert [] + DataOf(line, v.trim) == DataOf(line, v.trim);
    assert Named(line, false, v) == false by { assert line[0] == 'd'; }
    assert line != "";
  }

  // ----------------------------------------------------- smaller scans of a steady text

  /** A scan that holds no more than another: the same run so far, or one without data where
      the other has handed its data over and so is to see no more. */
  predicate Within(configs: set<Config>, seen: bool, configs': set<Config>, seen': bool) {
    if seen == seen' then configs <= configs'
    else seen' && forall c | c in configs :: c.handed.None? && c.mode != Early && MayHaveHanded(configs', c.mode)
  }

  predicate MayHaveHanded(configs: set<Config>, mode: Mode) {
    exists c | c in configs :: c.handed.Some? && c.mode == mode
  }

  lemma NextMember(c': Config, configs: set<Config>, row: Row, seen: bool, v: View) returns (c: Config)
    requires c' in Next(configs, row, seen, v)
    ensures c in configs && c' in Succ(c, row, seen, v)
  {
    c :| c in configs && c' in Succ(c, row, seen, v);
  }

  lemma SuccFewer(c: Config, row: Row, row': Row, seen: bool, v: View)
    requires row.line == row'.line && (row.pair ==> row'.pair)
    ensures Succ(c, row, seen, v) <= Succ(c, row', seen, v)
  {
    hide Stay, Cut, IsData;
  }

  lemma NextFewer(configs: set<Config>, configs': set<Config>, row: Row, row': Row, seen: bool, v: View)
    requires configs <= configs' && row.line == row'.line && (row.pair ==> row'.pair)
    ensures Next(configs, row, seen, v) <= Next(configs', row', seen, v)
  {
    hide Succ;
    forall d | d in Next(configs, row, seen, v) ensures d in Next(configs', row', seen, v) {
      var c := NextMember(d, configs, row, seen, v);
      SuccFewer(c, row, row', seen, v);
      assert c in configs' && d in Succ(c, row', seen, v);
    }
  }

  /** Without data on either side, what a line leaves behind differs in the data handed over
      alone. */
  lemma SuccHanded(c: Config, h: Config, d: Config, row: Row, row': Row, v: View)
    requires c.handed.None? && c.mode != Early && h.handed.Some? && h.mode == c.mode
    requires row.line == row'.line && row.line != "" && (row.pair ==> row'.pair) && !IsData(row.line)
    requires d in Succ(c, row, false, v)
    ensures d.handed.None? && d.mode != Early
    ensures exists h' | h' in Succ(h, row', true, v) :: h'.handed.Some? && h'.mode == d.mode
  {
    hide Named, IsData;
    assert Stay(h, row.line, v) in Succ(h, row', true, v);
    if row.pair {
      assert Cut(h, row.line, true, v) in Succ(h, row', true, v);
    }
  }

  lemma NextHanded(configs: set<Config>, configs': set<Config>, row: Row, row': Row, v: View)
    requires Within(configs, false, configs', true)
    requires row.line == row'.line && row.line != "" && (row.pair ==> row'.pair) && !IsData(row.line)
    ensures Within(Next(configs, row, false, v), false, Next(configs', row', true, v), true)
  {
    hide Succ, IsData;
    var next, next' := Next(configs, row, false, v), Next(configs', row', true, v);
    forall d | d in next ensures d.handed.None? && d.mode != Early && MayHaveHanded(next', d.mode) {
      var c := NextMember(d, configs, row, false, v);
      var h :| h in configs' && h.handed.Some? && h.mode == c.mode;
      SuccHanded(c, h, d, row, row', v);
      var h' :| h' in Succ(h, row', true, v) && h'.handed.Some? && h'.mode == d.mode;
      assert h' in next';
    }
  }

  lemma NextBlankHanded(configs: set<Config>, configs': set<Config>, row: Row, row': Row, v: View)
    requires Within(configs, false, configs', true)
    requires row.line == row'.line == "" && (row.pair ==> row'.pair)
    ensures Next(configs, row, false, v) <= Next(configs', row', true, v)
  {
    BlankIsNoData();
    hide IsData;
    forall d | d in Next(configs, row, false, v) ensures d in Next(configs', row', true, v) {
      var c := NextMember(d, configs, row, false, v);
      var h :| h in configs' && h.handed.Some? && h.mode == c.mode;
      assert d in Succ(h, row', true, v);
    }
  }

  lemma NextNotEmpty(configs: set<Config>, row: Row, seen: bool, v: View)
    requires configs != {}
    ensures Next(configs, row, seen, v) != {}
  {
    var c :| c in configs;
    StayNext(c, configs, row, seen, v);
  }

  lemma {:induction false} OpenNoData(rows: seq<Row>, configs: set<Config>, v: View)
    requires rows != [] && OpenEnd(LinesOf(rows)) && (forall i | 0 <= i < |rows| :: !IsData(LinesOf(rows)[i]))
    ensures Steady(rows, configs, false, v)
  {
    hide IsData, Next, FinalAgree, Agree;
    assert !IsData(LinesOf(rows)[0]);
    if |rows| > 1 {
      RowsTail(rows);
      assert LinesOf(rows)[0] != "";
      OpenEndTail(rows[0].line, LinesOf(rows[1..]));
      forall i | 0 <= i < |rows[1..]| ensures !IsData(LinesOf(rows[1..])[i]) {
        assert LinesOf(rows[1..])[i] == LinesOf(rows)[i + 1];
      }
      OpenNoData(rows[1..], Next(configs, rows[0], false, v), v);
    }
  }

  lemma FewerTails(rows: seq<Row>, rows': seq<Row>)
    requires FewerPairs(rows, rows') && rows != []
    ensures rows[0].line == rows'[0].line && (rows[0].pair ==> rows'[0].pair)
    ensures FewerPairs(rows[1..], rows'[1..]) && LinesOf(rows) == LinesOf(rows')
  {
    forall i | 0 <= i < |rows[1..]|
      ensures rows[1..][i].line == rows'[1..][i].line && (rows[1..][i].pair ==> rows'[1..][i].pair)
    {
      assert rows[1..][i] == rows[i + 1] && rows'[1..][i] == rows'[i + 1];
    }
  }

  /** The first data line of an open run, in a scan where it is not always handed over. */
  lemma ForcedWithin(rows: seq<Row>, rows': seq<Row>, configs': set<Config>, seen': bool, v: View)
    requires |rows| > 1 && FewerPairs(rows, rows')
    requires Forced(rows, {EMPTY}) && !Forced(rows', configs') && EMPTY in configs' && rows[0].line != ""
    requires Steady(rows', configs', seen', v)
    ensures Steady(rows[1..], {EMPTY, BLANK}, false, v)
  {
    hide IsData, Agree, FinalAgree;
    FewerTails(rows, rows');
    RowsTail(rows);
    RowsTail(rows');
    OpenEndTail(rows[0].line, LinesOf(rows'[1..]));
    StayNext(EMPTY, configs', rows'[0], seen', v);
    NoMoreData(rows'[1..], Next(configs', rows'[0], seen', v), HANDED, v);
    assert LinesOf(rows[1..]) == LinesOf(rows'[1..]);
    OpenNoData(rows[1..], {EMPTY, BLANK}, v);
  }

  lemma HandedBreaks(rows: seq<Row>, configs: set<Config>, c: Config, v: View)
    requires |rows| > 1 && Steady(rows, configs, true, v) && c in configs && c.handed.Some? && rows[0].line != ""
    ensures !IsData(rows[0].line) && !Forced(rows, configs)
    ensures Steady(rows[1..], Next(configs, rows[0], true, v), true, v)
  {
    assert c != EMPTY;
  }

  /** What holds less of a text with fewer pairs is steady too. */
  lemma {:induction false} SteadyWithin(
      rows: seq<Row>, configs: set<Config>, seen: bool,
      rows': seq<Row>, configs': set<Config>, seen': bool, v: View)
    requires rows != [] && FewerPairs(rows, rows') && configs != {}
    requires Within(configs, seen, configs', seen') && Steady(rows', configs', seen', v)
    ensures Steady(rows, configs, seen, v)
    decreases |rows|
  {
    FewerTails(rows, rows');
    var c0 :| c0 in configs;
    var line := rows[0].line;
    if |rows| == 1 {
      hide IsData, Named;
      if seen != seen' {
        var h :| h in configs' && h.handed.Some? && h.mode == c0.mode;
      }
    } else if line == "" {
      hide Agree;
      WithinBlank(rows, configs, seen, rows', configs', seen', v);
    } else if seen == seen' {
      WithinSame(rows, configs, rows', configs', seen, v);
    } else {
      hide IsData;
      var h :| h in configs' && h.handed.Some? && h.mode == c0.mode;
      HandedBreaks(rows', configs', h, v);
      NextHanded(configs, configs', rows[0], rows'[0], v);
      NextNotEmpty(configs, rows[0], false, v);
      SteadyWithin(rows[1..], Next(configs, rows[0], false, v), false,
                   rows'[1..], Next(configs', rows'[0], true, v), true, v);
    }
  }

  lemma WithinBlank(
      rows: seq<Row>, configs: set<Config>, seen: bool,
      rows': seq<Row>, configs': set<Config>, seen': bool, v: View)
    requires |rows| > 1 && rows[0].line == "" && FewerPairs(rows, rows') && configs != {}
    requires Within(configs, seen, configs', seen') && Steady(rows', configs', seen', v)
    ensures Steady(rows, configs, seen, v)
    decreases |rows|, 0
  {
    hide IsData;
    FewerTails(rows, rows');
    NextNotEmpty(configs, rows[0], seen, v);
    if seen == seen' {
      NextFewer(configs, configs', rows[0], rows'[0], seen, v);
    } else {
      NextBlankHanded(configs, configs', rows[0], rows'[0], v);
    }
    SteadyWithin(rows[1..], Next(configs, rows[0], seen, v), false,
                 rows'[1..], Next(configs', rows'[0], seen', v), false, v);
  }

  lemma WithinSame(rows: seq<Row>, configs: set<Config>, rows': seq<Row>, configs': set<Config>, seen: bool, v: View)
    requires |rows| > 1 && rows[0].line != "" && FewerPairs(rows, rows') && configs != {}
    requires configs <= configs' && Steady(rows', configs', seen, v)
    ensures Steady(rows, configs, seen, v)
    decreases |rows|, 0
  {
    hide IsData;
    FewerTails(rows, rows');
    if Forced(rows', configs') {
      assert configs == {EMPTY};
      SteadyWithin(rows[1..], {EMPTY, BLANK}, false, rows'[1..], {EMPTY, BLANK}, false, v);
    } else if Forced(rows, configs) {
      ForcedWithin(rows, rows', configs', seen, v);
    } else {
      NextNotEmpty(configs, rows[0], seen, v);
      NextFewer(configs, configs', rows[0], rows'[0], seen, v);
      SteadyWithin(rows[1..], Next(configs, rows[0], seen, v), seen || IsData(rows[0].line),
                   rows'[1..], Next(configs', rows'[0], seen, v), seen || IsData(rows[0].line), v);
    }
  }

  lemma SteadyLess(rows: seq<Row>, configs: set<Config>, configs': set<Config>, v: View)
    requires rows != [] && configs != {} && configs <= configs' && Steady(rows, configs', false, v)
    ensures Steady(rows, configs, false, v)
  {
    SamePairs(rows);
    SteadyWithin(rows, configs, false, rows, configs', false, v);
  }
}
