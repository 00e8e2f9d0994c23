/** The lines of a text with the line ends they have, and what reading them in one piece
    yields. */
module EventStreamRows {
  import opened Text
  import opened EventStream
  import opened EventStreamTheorems
  import opened EventStreamBoundaries
  import opened EventStreamPairs

  // ------------------------------------------------------------- lines and their ends

  /** A line, and whether a CR LF pair ends it. */
  datatype Row = Row(line: string, pair: bool)

  /** The text with one carriage return for each pair, and line feeds for other line ends. */
  function Marks(s: string): string {
    if s == "" then ""
    else if StartsWithPair(s) then "\r" + Marks(s[2..])
    else [if s[0] == '\r' then '\n' else s[0]] + Marks(s[1..])
  }

  /** The rows of a marked text that has the character `c` in front of `rows`. */
  function AddChar(c: char, rows: seq<Row>): seq<Row>
    requires rows != []
  {
    if c == '\n' || c == '\r' then [Row("", c == '\r')] + rows
    else [rows[0].(line := [c] + rows[0].line)] + rows[1..]
  }

  function Rows(marks: string): (rows: seq<Row>)
    ensures rows != []
  {
    if marks == "" then [Row("", false)] else AddChar(marks[0], Rows(marks[1..]))
  }

  function EndLast(rows: seq<Row>, pair: bool): seq<Row>
    requires rows != []
  {
    ButLast(rows) + [Last(rows).(pair := pair)]
  }

  lemma EndLastCons(first: Row, rest: seq<Row>, pair: bool)
    requires rest != []
    ensures EndLast([first] + rest, pair) == [first] + EndLast(rest, pair)
  {
    assert ButLast([first] + rest) == [first] + ButLast(rest) && Last([first] + rest) == Last(rest);
  }

  lemma AddCharCons(c: char, first: Row, rest: seq<Row>)
    requires c != '\n' && c != '\r'
    ensures AddChar(c, [first] + rest) == [first.(line := [c] + first.line)] + rest
  {
    assert ([first] + rest)[1..] == rest;
  }

  lemma AddCharEnd(c: char, a: seq<Row>, pair: bool, b: seq<Row>)
    requires a != []
    ensures AddChar(c, EndLast(a, pair) + b) == EndLast(AddChar(c, a), pair) + b
  {
    if c == '\n' || c == '\r' {
      EndLastCons(Row("", c == '\r'), a, pair);
    } else {
      var first, rest := a[0], a[1..];
      var added := first.(line := [c] + first.line);
      assert a == [first] + rest;
      AddCharCons(c, first, rest);
      if rest == [] {
        AddCharCons(c, first.(pair := pair), b);
        assert EndLast([first] + [], pair) == [first.(pair := pair)];
        assert EndLast([added] + [], pair) == [added.(pair := pair)];
      } else {
        hide EndLast, AddChar;
        EndLastCons(first, rest, pair);
        EndLastCons(added, rest, pair);
        AddCharCons(c, first, EndLast(rest, pair) + b);
        AppendAssociates([first], EndLast(rest, pair), b);
        AppendAssociates([added], EndLast(rest, pair), b);
      }
    }
  }

  function LinesOf(rows: seq<Row>): seq<string> {
    seq(|rows|, i requires 0 <= i < |rows| => rows[i].line)
  }

  predicate LineEnd(end: string) {
    end == "\n" || end == "\r" || end == "\r\n"
  }

  lemma {:induction false} MarksNormalize(s: string)
    ensures Normalize(s) == CrToLf(Marks(s))
    decreases |s|
  {
    if s != "" {
      var k := PairLength(s);
      MarksNormalize(s[k..]);
      CrLfToLfStep(s);
      var c, m := if k == 2 then '\n' else s[0], if k == 2 then '\r' else if s[0] == '\r' then '\n' else s[0];
      CrToLfAppend([c], CrLfToLf(s[k..]));
      CrToLfAppend([m], Marks(s[k..]));
      assert [c][1..] == "" && [m][1..] == "";
      assert Marks(s) == [m] + Marks(s[k..]);
      assert CrToLf([c]) == CrToLf([m]);
    }
  }

  lemma {:induction false} MarksAppend(a: string, b: string)
    requires !SplitsPair(a, b)
    ensures Marks(a + b) == Marks(a) + Marks(b)
    decreases |a|
  {
    if a == "" {
      assert a + b == b;
    } else {
      var k := PairLength(a);
      PairBeforeCut(a, b);
      MarksAppend(a[k..], b);
      var m := if k == 2 then '\r' else if a[0] == '\r' then '\n' else a[0];
      assert Marks(a) == [m] + Marks(a[k..]) && Marks(a + b) == [m] + Marks((a + b)[k..]);
      AppendAssociates([m], Marks(a[k..]), Marks(b));
    }
  }

  lemma MarksOfEnd(end: string, later: string)
    requires LineEnd(end) && !SplitsPair(end, later)
    ensures Marks(end + later) == [if end == "\r\n" then '\r' else '\n'] + Marks(later)
  {
    assert (end + later)[|end|..] == later;
    assert StartsWithPair(end + later) <==> end == "\r\n";
  }

  lemma MarksSplit(u: string, v: string)
    ensures Marks(u + "\r") == Marks(u) + "\n"
    ensures Marks("\n" + v) == "\n" + Marks(v)
    ensures Marks((u + "\r") + ("\n" + v)) == Marks(u) + "\r" + Marks(v)
  {
    MarksAppend(u, "\r");
    MarksOfEnd("\r", "");
    MarksOfEnd("\n", v);
    MarksOfEnd("\r\n", v);
    assert Marks("") == "" && "\r" + "" == "\r";
    hide Marks;
    assert (u + "\r") + ("\n" + v) == u + ("\r\n" + v);
    MarksAppend(u, "\r\n" + v);
    AppendAssociates(Marks(u), "\r", Marks(v));
  }

  lemma {:induction false} RowsLines(marks: string)
    ensures LinesOf(Rows(marks)) == Lines(CrToLf(marks))
  {
    if marks != "" {
      RowsLines(marks[1..]);
      var c := if marks[0] == '\r' then '\n' else marks[0];
      assert CrToLf(marks)[0] == c && CrToLf(marks)[1..] == CrToLf(marks[1..]);
    }
  }

  /** Where a line ends, the rows are cut in two. */
  lemma {:induction false} RowsCut(a: string, c: char, b: string)
    requires c == '\n' || c == '\r'
    ensures Rows(a + [c] + b) == EndLast(Rows(a), c == '\r') + Rows(b)
  {
    hide AddChar, EndLast;
    if a == "" {
      assert a + [c] + b == [c] + b && ([c] + b)[1..] == b;
      NoCharRow(c, Rows(b));
    } else {
      var s := a + [c] + b;
      assert s[0] == a[0] && s[1..] == a[1..] + [c] + b;
      RowsCut(a[1..], c, b);
      AddCharEnd(a[0], Rows(a[1..]), c == '\r', Rows(b));
    }
  }

  lemma NoCharRow(c: char, rows: seq<Row>)
    requires (c == '\n' || c == '\r') && rows != []
    ensures AddChar(c, rows) == EndLast(Rows(""), c == '\r') + rows
  {
  }

  lemma {:induction false} RowsOfOne(line: string)
    requires OneLine(line)
    ensures Rows(line) == [Row(line, false)]
  {
    if line != "" {
      RowsOfOne(line[1..]);
      assert [line[0]] + line[1..] == line;
    }
  }

  lemma FirstRow(line: string, c: char, b: string)
    requires OneLine(line) && (c == '\n' || c == '\r')
    ensures Rows(line + [c] + b) == [Row(line, c == '\r')] + Rows(b)
  {
    RowsCut(line, c, b);
    RowsOfOne(line);
  }

  /** The same lines, with fewer pairs. */
  predicate FewerPairs(rows: seq<Row>, rows': seq<Row>) {
    && |rows| == |rows'|
    && (forall i | 0 <= i < |rows| :: rows[i].line == rows'[i].line)
    && (forall i | 0 <= i < |rows| && rows[i].pair :: rows'[i].pair)
  }

  lemma SamePairs(rows: seq<Row>)
    ensures FewerPairs(rows, rows)
  {
  }

  /** Marks with some pairs turned into plain line ends. */
  predicate FewerMarks(m: string, m': string) {
    |m| == |m'| && forall i | 0 <= i < |m| :: m[i] == m'[i] || (m[i] == '\n' && m'[i] == '\r')
  }

  lemma FewerAdd(c: char, c': char, rows: seq<Row>, rows': seq<Row>)
    requires c == c' || (c == '\n' && c' == '\r')
    requires rows != [] && FewerPairs(rows, rows')
    ensures FewerPairs(AddChar(c, rows), AddChar(c', rows'))
  {
    var a, a' := AddChar(c, rows), AddChar(c', rows');
    var k := if c == '\n' || c == '\r' then 1 else 0;
    assert rows[0].line == rows'[0].line && (rows[0].pair ==> rows'[0].pair);
    forall i | 0 < i < |a| ensures a[i].line == a'[i].line && (a[i].pair ==> a'[i].pair) {
      assert a[i] == rows[i - k] && a'[i] == rows'[i - k];
    }
  }

  lemma FewerTail(m: string, m': string)
    requires FewerMarks(m, m') && m != ""
    ensures FewerMarks(m[1..], m'[1..]) && (m[0] == m'[0] || (m[0] == '\n' && m'[0] == '\r'))
  {
    forall i | 0 <= i < |m[1..]| ensures m[1..][i] == m'[1..][i] || (m[1..][i] == '\n' && m'[1..][i] == '\r') {
      assert m[1..][i] == m[i + 1] && m'[1..][i] == m'[i + 1];
    }
  }

  lemma {:induction false} FewerMarksRows(m: string, m': string)
    requires FewerMarks(m, m')
    ensures FewerPairs(Rows(m), Rows(m'))
  {
    if m == "" {
      assert |m'| == 0;
    } else {
      FewerTail(m, m');
      hide AddChar, FewerMarks, FewerPairs;
      FewerMarksRows(m[1..], m'[1..]);
      FewerAdd(m[0], m'[0], Rows(m[1..]), Rows(m'[1..]));
    }
  }

  lemma {:induction false} CrToLfFewer(m: string)
    ensures FewerMarks(CrToLf(m), m)
  {
    if m != "" {
      CrToLfFewer(m[1..]);
    }
  }

  lemma {:induction false} MarksClean(s: string)
    requires '\r' !in s
    ensures Marks(s) == s
  {
    if s != "" {
      MarksClean(s[1..]);
    }
  }

  lemma AddCharLast(c: char, rows: seq<Row>)
    requires rows != []
    ensures AddChar(c, rows) != []
    ensures Last(rows).line != "" || (|rows| == 1 && c != '\n' && c != '\r') ==> Last(AddChar(c, rows)).line != ""
  {
  }

  lemma {:induction false} LastRowNotBlank(marks: string)
    requires marks != "" && Last(marks) != '\n' && Last(marks) != '\r'
    ensures Last(Rows(marks)).line != ""
  {
    hide AddChar;
    AddCharLast(marks[0], Rows(marks[1..]));
    if |marks| == 1 {
      assert marks[1..] == "" && Rows(marks[1..]) == [Row("", false)];
    } else {
      assert Last(marks[1..]) == Last(marks);
      LastRowNotBlank(marks[1..]);
    }
  }

  lemma HeadEnds(text: string, head: string, rest: string)
    requires FirstParagraph(text, head, rest) && head != ""
    ensures Last(head) != '\n'
  {
    IndexOfFirst(text, SEPARATOR);
    OccursAtChars(text, |head| - 1);
  }

  // ----------------------------------------------------------------- reading in one piece

  /** How a stream is read, and whether error events count when blocks are compared. */
  datatype View = View(trim: bool, errors: bool)

  /** The blocks as they are compared: with error events, or by their data contents alone. */
  function Seen(blocks: seq<EventBlock>, v: View): seq<EventBlock> {
    seq(|blocks|, i requires 0 <= i < |blocks| => if v.errors then blocks[i] else blocks[i].(errorNamed := false))
  }

  lemma SeenAppend(a: seq<EventBlock>, b: seq<EventBlock>, v: View)
    ensures Seen(a + b, v) == Seen(a, v) + Seen(b, v)
  {
  }

  lemma SeenNothing(v: View)
    ensures Seen([], v) == []
  {
  }

  /** A paragraph as far as it has been read: its data, and whether the last `event:` line
      names the error event. */
  datatype Para = Para(data: seq<string>, bad: bool)

  const NOTHING := Para([], false)

  function Named(line: string, bad: bool, v: View): bool {
    if v.errors && StartsWith(line, "event:") then NamesError(Some(EventNameOf(line))) else bad
  }

  function Take(p: Para, line: string, v: View): Para {
    Para(p.data + DataOf(line, v.trim), Named(line, p.bad, v))
  }

  function TakeAll(p: Para, lines: seq<string>, v: View): Para
    decreases |lines|
  {
    if lines == [] then p else TakeAll(Take(p, lines[0], v), lines[1..], v)
  }

  function Emit(p: Para): seq<EventBlock> {
    if p.data == [] then [] else [EventBlock(p.data, p.bad)]
  }

  lemma TakeBlank(p: Para, v: View)
    ensures Take(p, "", v) == p
  {
    DataOfCount("", v.trim);
    assert p.data + [] == p.data;
  }

  lemma {:induction false} TakeAllAppend(p: Para, a: seq<string>, b: seq<string>, v: View)
    ensures TakeAll(p, a + b, v) == TakeAll(TakeAll(p, a, v), b, v)
    decreases |a|
  {
    hide Take;
    if a == [] {
      assert a + b == b;
    } else {
      assert (a + b)[0] == a[0] && (a + b)[1..] == a[1..] + b;
      TakeAllAppend(Take(p, a[0], v), a[1..], b, v);
    }
  }

  predicate CleanLines(lines: seq<string>) {
    forall i | 0 <= i < |lines| :: '\r' !in lines[i]
  }

  lemma LinesClean(text: string)
    requires '\r' !in text
    ensures CleanLines(Lines(text))
  {
    LinesKeepChars(text, (c: char) => c != '\r');
  }

  lemma TakeOne(p: Para, line: string, v: View)
    ensures TakeAll(p, [line], v) == Take(p, line, v)
  {
    assert [line][1..] == [];
  }

  lemma {:induction false} TakeAllIs(lines: seq<string>, v: View)
    requires CleanLines(lines)
    ensures TakeAll(NOTHING, lines, v) == Para(DataParts(lines, v.trim), v.errors && NamesError(EventName(lines)))
  {
    if lines == [] {
      assert EventName(lines) == None;
    } else {
      var before, line := ButLast(lines), Last(lines);
      assert lines == before + [line];
      TakeAllIs(before, v);
      TakeAllAppend(NOTHING, before, [line], v);
      TakeOne(TakeAll(NOTHING, before, v), line, v);
      DataPartsAppend(before, [line], v.trim);
      assert DataParts([line], v.trim) == DataOf(line, v.trim) by { OneDataPart(line, v.trim); }
      assert NormalizeLine(line) == line by { assert '\r' !in lines[|lines| - 1]; NotReturned(line); }
      hide NamesError, DataOf, DataParts;
    }
  }

  lemma OneDataPart(line: string, trimPrefix: bool)
    ensures DataParts([line], trimPrefix) == DataOf(line, trimPrefix)
  {
    assert DataParts([line][1..], trimPrefix) == [];
    assert DataOf(line, trimPrefix) + [] == DataOf(line, trimPrefix);
  }

  lemma NotReturned(line: string)
    requires '\r' !in line
    ensures NormalizeLine(line) == line
  {
  }

  /** The block of a paragraph is what its lines come to. */
  lemma ParagraphBlock(text: string, v: View)
    requires '\r' !in text
    ensures Seen(BlockEvents(text, v.trim), v) == Emit(TakeAll(NOTHING, Lines(text), v))
  {
    hide Lines, DataParts, EventName, NamesError, TakeAll;
    LinesClean(text);
    TakeAllIs(Lines(text), v);
  }

  /** What is in the buffer: nothing, a blank line, an open paragraph, or an open paragraph
      whose first line carries data and will be handed over by the next flush. */
  datatype Mode = Empty | Blank | Open | Early

  function Onward(mode: Mode, line: string): Mode {
    if mode == Early || (mode == Empty && IsData(line)) then Early else Open
  }

  predicate OpenEnd(lines: seq<string>) {
    forall i | 0 <= i < |lines| - 1 :: lines[i] != ""
  }

  /** What the rest of a stream yields if it arrives in one piece: each run of lines that are
      not blank is a message, but where the text ends in the middle of a run whose first line
      carries data and finds the buffer empty, that line is one of its own. */
  function Rest(lines: seq<string>, mode: Mode, p: Para, v: View): seq<EventBlock>
    requires lines != []
  {
    if |lines| == 1 then
      if mode == Early then Emit(p.(bad := false)) + Emit(Take(Para([], p.bad), lines[0], v))
      else Emit(Take(p, lines[0], v))
    else if lines[0] == "" then Emit(p) + Rest(lines[1..], if mode == Empty then Blank else Empty, NOTHING, v)
    else if mode == Empty && IsData(lines[0]) && OpenEnd(lines) then
      Emit(Take(p, lines[0], v)) + Rest(lines[1..], Blank, NOTHING, v)
    else Rest(lines[1..], Onward(mode, lines[0]), Take(p, lines[0], v), v)
  }

  /** A text that arrives as one chunk. */
  function Once(text: string, v: View): seq<EventBlock> {
    Seen(FlushOpen(text, v.trim).0, v) + Seen(FlushDone(FlushOpen(text, v.trim).1, v.trim), v)
  }

  /** An open run that cannot be handed over early is one message. */
  lemma {:induction false} RestOpen(lines: seq<string>, mode: Mode, p: Para, v: View)
    requires lines != [] && OpenEnd(lines) && (mode == Blank || mode == Open)
    ensures Rest(lines, mode, p, v) == Emit(TakeAll(p, lines, v))
  {
    hide Take, Emit;
    if |lines| == 1 {
      assert lines == [lines[0]];
      TakeOne(p, lines[0], v);
    } else {
      assert lines[0] != "";
      assert OpenEnd(lines[1..]) by {
        forall i | 0 <= i < |lines[1..]| - 1 ensures lines[1..][i] != "" { assert lines[1..][i] == lines[i + 1]; }
      }
      RestOpen(lines[1..], Open, Take(p, lines[0], v), v);
    }
  }

  lemma NotOpenEnd(a: seq<string>, b: seq<string>)
    requires b != []
    ensures !OpenEnd(a + [""] + b)
  {
    assert (a + [""] + b)[|a|] == "";
  }

  predicate NoBlank(lines: seq<string>) {
    forall i | 0 <= i < |lines| :: lines[i] != ""
  }

  /** A run that a blank line ends is one message, in whatever mode it starts. */
  lemma {:induction false} RestRun(run: seq<string>, rest: seq<string>, mode: Mode, p: Para, v: View)
    requires NoBlank(run) && rest != [] && (run == [] ==> mode != Empty)
    ensures Rest(run + [""] + rest, mode, p, v) == Emit(TakeAll(p, run, v)) + Rest(rest, Empty, NOTHING, v)
  {
    hide Take, Emit, IsData;
    var lines := run + [""] + rest;
    NotOpenEnd(run, rest);
    if run == [] {
      assert lines[1..] == rest;
    } else {
      assert lines[0] == run[0] && lines[1..] == run[1..] + [""] + rest;
      assert NoBlank(run[1..]) by {
        forall i | 0 <= i < |run[1..]| ensures run[1..][i] != "" { assert run[1..][i] == run[i + 1]; }
      }
      RestRun(run[1..], rest, Onward(mode, run[0]), Take(p, run[0], v), v);
    }
  }

  /** The lines of a complete paragraph: only the first can be blank. */
  lemma HeadLines(text: string, head: string, rest: string)
    requires FirstParagraph(text, head, rest)
    ensures Lines(head) == [""] || NoBlank(Lines(head)) || (Lines(head)[0] == "" && NoBlank(Lines(head)[1..]))
  {
    hide Lines, IndexOf;
    HeadIsParagraph(text, head, rest);
    InnerNotBlank(head);
    var lines := Lines(head);
    if head == "" {
      LinesOfOne("");
    } else {
      HeadEnds(text, head, rest);
      LastLineNotBlank(head);
      forall i | 0 <= i < |lines[1..]| ensures lines[1..][i] != "" { assert lines[1..][i] == lines[i + 1]; }
    }
  }

  lemma {:induction false} LastLineNotBlank(text: string)
    requires text != "" && Last(text) != '\n'
    ensures Last(Lines(text)) != ""
  {
    if |text| == 1 {
      assert text[1..] == "" && Lines(text[1..]) == [""];
    } else {
      assert Last(text[1..]) == Last(text);
      LastLineNotBlank(text[1..]);
    }
  }

  lemma RestParagraph(head: seq<string>, rest: seq<string>, v: View)
    requires rest != []
    requires head == [""] || (head != [] && NoBlank(head)) || (head != [] && head[0] == "" && NoBlank(head[1..]))
    ensures Rest(head + [""] + rest, Empty, NOTHING, v)
         == Emit(TakeAll(NOTHING, head, v)) + Rest(rest, Empty, NOTHING, v)
  {
    if head[0] == "" {
      var lines := head + [""] + rest;
      assert lines[1..] == head[1..] + [""] + rest;
      TakeBlank(NOTHING, v);
      RestRun(head[1..], rest, Blank, NOTHING, v);
    } else {
      RestRun(head, rest, Empty, NOTHING, v);
    }
  }

  lemma OnceParagraph(text: string, head: string, rest: string, v: View)
    requires FirstParagraph(text, head, rest)
    ensures Once(text, v) == Seen(BlockEvents(head, v.trim), v) + Once(rest, v)
  {
    hide FlushOpen, FlushDone, BlockEvents, IndexOf, Seen;
    FlushOpenAfterParagraph(text, head, rest, v.trim);
    var (blocks, left) := FlushOpen(rest, v.trim);
    SeenAppend(BlockEvents(head, v.trim), blocks, v);
    AppendAssociates(Seen(BlockEvents(head, v.trim), v), Seen(blocks, v), Seen(FlushDone(left, v.trim), v));
  }

  lemma LaterParagraph(line: string, z: string)
    requires OneLine(line) && IndexOf(line + "\n" + z, SEPARATOR) == -1
    ensures IndexOf(z, SEPARATOR) == -1 && (z == "" || z[0] != '\n')
  {
    var s := line + "\n" + z;
    IndexOfFirst(s, SEPARATOR);
    OccursAtChars(s, |line|);
    IndexOfAfterLine(line, z);
  }

  lemma OpenLines(text: string)
    requires IndexOf(text, SEPARATOR) == -1 && (text == "" || text[0] != '\n')
    ensures OpenEnd(Lines(text))
  {
    hide Lines, IndexOf;
    InnerNotBlank(text);
    if text == "" {
      LinesOfOne("");
    } else {
      FirstLineStarts(text);
    }
  }

  lemma OnceOpenEarly(line: string, z: string, v: View)
    requires OneLine(line) && IsData(line) && '\r' !in z
    requires IndexOf(line + "\n" + z, SEPARATOR) == -1
    ensures Once(line + "\n" + z, v) == Rest(Lines(line + "\n" + z), Empty, NOTHING, v)
  {
    hide Lines, IndexOf, BlockEvents, Seen, TakeAll, Emit, Take;
    var text := line + "\n" + z;
    LaterParagraph(line, z);
    OpenLines(z);
    SingleParagraph(text, v.trim);
    SingleParagraph(z, v.trim);
    FirstLineFeed(line, z);
    assert text[..|line|] == line && text[|line| + 1..] == z;
    assert EarlyLine(text) == Some(|line|);
    assert [] + BlockEvents(line, v.trim) == BlockEvents(line, v.trim);
    LinesCut(line, z);
    LinesOfOne(line);
    var lines := [line] + Lines(z);
    assert lines[1..] == Lines(z);
    assert OpenEnd(lines) by {
      forall i | 0 <= i < |lines| - 1 ensures lines[i] != "" {
        if i > 0 { assert lines[i] == Lines(z)[i - 1]; }
      }
    }
    ParagraphBlock(line, v);
    TakeOne(NOTHING, line, v);
    ParagraphBlock(z, v);
    RestOpen(Lines(z), Blank, NOTHING, v);
  }

  lemma OnceOpenWhole(text: string, v: View)
    requires '\r' !in text && IndexOf(text, SEPARATOR) == -1 && EarlyLine(text).None?
    ensures Once(text, v) == Rest(Lines(text), Empty, NOTHING, v)
  {
    hide BlockEvents, Emit, Take;
    SingleParagraph(text, v.trim);
    SeenNothing(v);
    assert [] + Seen(FlushDone(text, v.trim), v) == Seen(FlushDone(text, v.trim), v);
    ParagraphBlock(text, v);
    if '\n' !in text {
      LinesOfOne(text);
      TakeOne(NOTHING, text, v);
    } else {
      hide Lines, IndexOf;
      var line, z := CutFirstLine(text);
      FirstLineFeed(line, z);
      assert text[..|line|] == line;
      LaterParagraph(line, z);
      OpenLines(z);
      LinesCut(line, z);
      LinesOfOne(line);
      assert ([line] + Lines(z))[1..] == Lines(z);
      if line == "" {
        TakeBlank(NOTHING, v);
        RestOpen(Lines(z), Blank, NOTHING, v);
        assert Emit(NOTHING) == [] by { NothingEmitted(); }
      } else {
        RestOpen(Lines(z), Open, Take(NOTHING, line, v), v);
      }
    }
  }

  lemma NothingEmitted()
    ensures Emit(NOTHING) == []
  {
  }

  /** A text that arrives as one chunk gives what its lines give in one piece. */
  lemma {:induction false} OnceIsRest(text: string, v: View)
    requires '\r' !in text
    ensures Once(text, v) == Rest(Lines(text), Empty, NOTHING, v)
    decreases |text|
  {
    hide Once, Rest, Lines, IndexOf, TakeAll, Emit, BlockEvents, Seen;
    if IndexOf(text, SEPARATOR) != -1 {
      var head, rest := CutFirstParagraph(text);
      assert '\r' !in head && '\r' !in rest;
      OnceParagraph(text, head, rest, v);
      OnceIsRest(rest, v);
      LinesSeparated(head, rest);
      HeadLines(text, head, rest);
      RestParagraph(Lines(head), Lines(rest), v);
      ParagraphBlock(head, v);
    } else if EarlyLine(text).Some? {
      var j := EarlyLine(text).value;
      EarlyLineIs(text);
      OnceOpenEarly(text[..j], text[j + 1..], v);
    } else {
      OnceOpenWhole(text, v);
    }
  }

  /** Reading loses no data. */
  lemma {:induction false} RestData(lines: seq<string>, mode: Mode, p: Para, v: View)
    requires lines != []
    ensures Flatten(PartsOf(Rest(lines, mode, p, v))) == p.data + DataParts(lines, v.trim)
  {
    hide DataOf, IsData, OpenEnd, Named;
    var data := DataOf(lines[0], v.trim);
    EmitData(p);
    EmitData(p.(bad := false));
    EmitData(Take(p, lines[0], v));
    EmitData(Take(Para([], p.bad), lines[0], v));
    assert [] + data == data;
    if |lines| == 1 {
      assert lines == [lines[0]];
      OneDataPart(lines[0], v.trim);
      PartsOfAppend(Emit(p.(bad := false)), Emit(Take(Para([], p.bad), lines[0], v)));
    } else {
      var rest := DataParts(lines[1..], v.trim);
      AppendAssociates(p.data, data, rest);
      if lines[0] == "" {
        var next := if mode == Empty then Blank else Empty;
        DataOfCount("", v.trim);
        assert !IsData("") by { BlankIsNoData(); }
        RestData(lines[1..], next, NOTHING, v);
        PartsOfAppend(Emit(p), Rest(lines[1..], next, NOTHING, v));
        assert [] + rest == rest;
      } else {
        RestData(lines[1..], Blank, NOTHING, v);
        PartsOfAppend(Emit(Take(p, lines[0], v)), Rest(lines[1..], Blank, NOTHING, v));
        assert [] + rest == rest;
        RestData(lines[1..], Onward(mode, lines[0]), Take(p, lines[0], v), v);
      }
    }
  }

  lemma EmitData(p: Para)
    ensures Flatten(PartsOf(Emit(p))) == p.data
  {
    if p.data == [] {
      NoParts();
    } else {
      assert PartsOf(Emit(p)) == [p.data];
      assert Flatten([p.data]) == p.data + [];
    }
  }

  lemma BlankIsNoData()
    ensures !IsData("")
  {
  }
}
