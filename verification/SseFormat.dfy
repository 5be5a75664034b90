/** The event-stream format by itself, as lines of known kinds: what any text means, and that the parser reads just
    that. */
module SseFormat {
  import opened Text
  import opened Sse

  /** A line: empty, a comment, one without a colon, or a field whose value may follow one space. */
  datatype Line =
    | Empty
    | Comment(text: string)
    | Bare(text: string)
    | Field(key: string, padded: bool, value: string)

  /** A line with the carriage returns that end it. */
  datatype Raw = Raw(line: Line, ends: nat)

  function LineText(line: Line): string {
    match line
    case Empty => ""
    case Comment(text) => ":" + text
    case Bare(text) => text
    case Field(key, padded, value) => key + ":" + (if padded then " " else "") + value
  }

  function Returns(n: nat): string {
    if n == 0 then "" else Returns(n - 1) + "\r"
  }

  function RawText(raw: Raw): string {
    LineText(raw.line) + Returns(raw.ends)
  }

  /** The text of a line tells its kind; up to two carriage returns at its end are not part of it. */
  predicate Proper(raw: Raw) {
    && '\n' !in LineText(raw.line)
    && raw.ends <= 2 && (raw.ends == 2 || !EndsInCR(LineText(raw.line)))
    && match raw.line
       case Empty => true
       case Comment(_) => true
       case Bare(text) => text != "" && ':' !in text
       case Field(key, padded, value) => key != "" && ':' !in key && (!padded ==> value == "" || value[0] != ' ')
  }

  function Render(raws: seq<Raw>): string {
    if raws == [] then "" else RawText(raws[0]) + "\n" + Render(raws[1..])
  }

  function LinesOf(raws: seq<Raw>): (lines: seq<Line>)
    ensures |lines| == |raws| && forall k | 0 <= k < |lines| :: lines[k] == raws[k].line
  {
    if raws == [] then [] else [raws[0].line] + LinesOf(raws[1..])
  }

  // ----- what lines mean -----

  /** The name a block gives its event: its last `event` field. */
  function NameIn(block: seq<Line>): string {
    if block == [] then ""
    else
      var last := block[|block| - 1];
      if last.Field? && last.key == "event" then last.value else NameIn(block[..|block| - 1])
  }

  /** The data rows of a block: its `data` fields in order. */
  function RowsIn(block: seq<Line>): seq<string> {
    if block == [] then []
    else
      var last := block[|block| - 1];
      RowsIn(block[..|block| - 1]) + if last.Field? && last.key == "data" then [last.value] else []
  }

  /** Rows as one text, a newline between them. */
  function Lines(rows: seq<string>): string {
    if rows == [] then "" else if |rows| == 1 then rows[0] else Lines(rows[..|rows| - 1]) + "\n" + rows[|rows| - 1]
  }

  /** A block is an event when it names one or has data. */
  function EventIn(block: seq<Line>): seq<Event> {
    if NameIn(block) == "" && RowsIn(block) == [] then [] else [Event(NameIn(block), Lines(RowsIn(block)))]
  }

  function FirstEmpty(lines: seq<Line>): (n: nat)
    ensures n <= |lines| && (n < |lines| ==> lines[n].Empty?)
    ensures forall k | 0 <= k < n :: !lines[k].Empty?
  {
    if lines == [] || lines[0].Empty? then 0 else 1 + FirstEmpty(lines[1..])
  }

  /** The events of the blocks between empty lines; the end of the text ends the last block. */
  function Meaning(lines: seq<Line>): seq<Event>
    decreases |lines|
  {
    var n := FirstEmpty(lines);
    EventIn(lines[..n]) + if n == |lines| then [] else Meaning(lines[n + 1..])
  }

  // ----- the parser reads the meaning -----

  lemma ReturnsAre()
    ensures Returns(0) == "" && Returns(1) == "\r" && Returns(2) == "\r\r"
  {
    assert Returns(1) == Returns(0) + "\r";
    assert Returns(2) == Returns(1) + "\r";
  }

  lemma DropOne(text: string)
    ensures DropCR(text + "\r") == text && DropCR(text + "\r\r") == text + "\r"
  {
    assert (text + "\r")[..|text|] == text && (text + "\r\r")[..|text| + 1] == text + "\r";
  }

  lemma ReturnsOfText(text: string, ends: nat)
    requires ends <= 2 && (ends == 2 || !EndsInCR(text))
    ensures DropCR(DropCR(text + Returns(ends))) == text
  {
    ReturnsAre();
    DropOne(text);
    assert text + "" == text;
    if ends == 0 || ends == 1 {
      assert DropCR(text) == text;
    }
    hide DropCR, Returns;
  }

  lemma ReturnsDropped(raw: Raw)
    requires Proper(raw)
    ensures DropCR(DropCR(RawText(raw))) == LineText(raw.line)
    ensures '\n' !in RawText(raw)
  {
    ReturnsOfText(LineText(raw.line), raw.ends);
    ReturnsAre();
    hide DropCR, LineText;
  }

  function Taken(st: Scan, line: Line): Scan {
    match line
    case Empty => Flush(st)
    case Field(key, _, value) =>
      if key == "event" then st.(name := value)
      else if key == "data" then st.(rows := st.rows + [value])
      else st
    case _ => st
  }

  lemma FieldTaken(st: Scan, key: string, padded: bool, value: string)
    requires key != "" && ':' !in key && (!padded ==> value == "" || value[0] != ' ')
    ensures TakeField(st, LineText(Field(key, padded, value))) == Taken(st, Field(key, padded, value))
  {
    var line := LineText(Field(key, padded, value));
    var tail := (if padded then " " else "") + value;
    assert line == key + ":" + tail;
    assert line[..|key|] == key && line[|key| + 1..] == tail;
    IndexOfIs(line, ':', |key|);
    if padded {
      assert tail[1..] == value;
    } else {
      assert tail == value;
    }
  }

  lemma LineTaken(st: Scan, raw: Raw)
    requires Proper(raw)
    ensures TakeLine(st, DropCR(RawText(raw))) == Taken(st, raw.line)
  {
    ReturnsDropped(raw);
    hide DropCR, Flush, TakeField;
    match raw.line
    case Field(key, padded, value) => FieldTaken(st, key, padded, value);
    case Bare(text) => BareTaken(st, text);
    case _ =>
  }

  lemma BareTaken(st: Scan, text: string)
    requires ':' !in text
    ensures TakeField(st, text) == st
  {
    Missing(text, ':');
  }

  lemma Missing(s: string, c: char)
    requires c !in s
    ensures IndexOf(s, c) == |s|
  {
  }

  function TakeAll(st: Scan, lines: seq<Line>): Scan
    decreases lines
  {
    if lines == [] then st else TakeAll(Taken(st, lines[0]), lines[1..])
  }

  lemma {:induction false} RenderTaken(st: Scan, raws: seq<Raw>, last: Raw)
    requires Proper(last) && forall raw | raw in raws :: Proper(raw)
    ensures Flush(TakeLines(st, ScanLines(Render(raws) + RawText(last))))
         == Flush(TakeAll(st, LinesOf(raws) + [last.line]))
    decreases raws
  {
    hide Proper, RawText, Taken, TakeLine, TakeLines, ScanLines, Flush;
    if raws == [] {
      assert Render(raws) + RawText(last) == RawText(last);
      assert LinesOf(raws) + [last.line] == [last.line] && [last.line][1..] == [];
      LastTaken(st, last);
    } else {
      var raw, more := raws[0], raws[1..];
      assert raw in raws && forall r | r in more :: r in raws;
      FirstTaken(st, raw, Render(more) + RawText(last));
      RenderTaken(Taken(st, raw.line), more, last);
      Assoc(RawText(raw) + "\n", Render(more), RawText(last));
      hide Render;
      var lines := LinesOf(more) + [last.line];
      assert LinesOf(raws) + [last.line] == [raw.line] + lines;
      assert ([raw.line] + lines)[1..] == lines;
    }
  }

  lemma FirstTaken(st: Scan, raw: Raw, rest: string)
    requires Proper(raw)
    ensures TakeLines(st, ScanLines(RawText(raw) + "\n" + rest)) == TakeLines(Taken(st, raw.line), ScanLines(rest))
  {
    ReturnsDropped(raw);
    LineTaken(st, raw);
    hide Proper, RawText, Taken, TakeLine, DropCR;
    ScanFirstLine(RawText(raw), rest);
    TakeFirst(st, DropCR(RawText(raw)), ScanLines(rest));
  }

  lemma TakeFirst(st: Scan, line: string, rest: seq<string>)
    ensures TakeLines(st, [line] + rest) == TakeLines(TakeLine(st, line), rest)
  {
    hide TakeLine;
    assert ([line] + rest)[1..] == rest;
  }

  /** The text after the last newline; when it is empty there is no line, and the end of the text ends the block. */
  lemma LastTaken(st: Scan, last: Raw)
    requires Proper(last)
    ensures Flush(TakeLines(st, ScanLines(RawText(last)))) == Flush(TakeAll(st, [last.line]))
  {
    ReturnsDropped(last);
    LineTaken(st, last);
    hide Proper, Taken, TakeLine;
    var text := RawText(last);
    assert [last.line][1..] == [];
    if text == "" {
      assert LineText(last.line) == "";
      EmptyText(st, last);
    } else {
      NoNewline(text);
      assert [DropCR(text)] + [] == [DropCR(text)];
      TakeFirst(st, DropCR(text), []);
    }
  }

  lemma EmptyText(st: Scan, last: Raw)
    requires Proper(last) && RawText(last) == ""
    ensures Flush(Taken(st, last.line)) == Flush(st)
  {
    SaysSomething(last.line);
  }

  lemma SaysSomething(line: Line)
    ensures LineText(line) == "" ==> !line.Field?
  {
  }

  lemma NoNewline(text: string)
    requires text != "" && '\n' !in text
    ensures ScanLines(text) == [DropCR(text)]
  {
    Missing(text, '\n');
  }

  lemma {:induction false} BlockTaken(done: seq<Event>, block: seq<Line>)
    requires forall line | line in block :: !line.Empty?
    ensures TakeAll(Scan(done, "", []), block) == Scan(done, NameIn(block), RowsIn(block))
    decreases block
  {
    if block != [] {
      var front, last := block[..|block| - 1], block[|block| - 1];
      assert block == front + [last] && last in block && forall line | line in front :: line in block;
      BlockTaken(done, front);
      TakeAllConcat(Scan(done, "", []), front, [last]);
      assert [last][1..] == [];
      assert TakeAll(Scan(done, NameIn(front), RowsIn(front)), [last])
          == Taken(Scan(done, NameIn(front), RowsIn(front)), last);
      assert RowsIn(front) + [] == RowsIn(front);
    }
  }

  lemma {:induction false} TakeAllConcat(st: Scan, a: seq<Line>, b: seq<Line>)
    ensures TakeAll(st, a + b) == TakeAll(TakeAll(st, a), b)
    decreases a
  {
    hide Taken;
    if a == [] {
      assert a + b == b;
    } else {
      assert (a + b)[1..] == a[1..] + b;
      TakeAllConcat(Taken(st, a[0]), a[1..], b);
    }
  }

  lemma {:induction false} JoinAppend(rows: seq<string>, row: string)
    requires rows != []
    ensures Join(rows + [row]) == Join(rows) + "\n" + row
  {
    var all := rows + [row];
    assert all[1..] == rows[1..] + [row];
    if |rows| == 1 {
      assert all[1..] == [row];
    } else {
      JoinAppend(rows[1..], row);
      assert Join(all) == rows[0] + "\n" + Join(all[1..]);
      assert Join(rows) == rows[0] + "\n" + Join(rows[1..]);
    }
  }

  lemma {:induction false} JoinIsLines(rows: seq<string>)
    ensures Join(rows) == Lines(rows)
    decreases rows
  {
    if |rows| > 1 {
      var front, last := rows[..|rows| - 1], rows[|rows| - 1];
      assert rows == front + [last];
      JoinIsLines(front);
      JoinAppend(front, last);
    }
  }

  lemma BlockFlushed(done: seq<Event>, block: seq<Line>)
    requires forall line | line in block :: !line.Empty?
    ensures Flush(TakeAll(Scan(done, "", []), block)) == Scan(done + EventIn(block), "", [])
  {
    BlockTaken(done, block);
    JoinIsLines(RowsIn(block));
    hide TakeAll;
    assert done + [] == done;
  }

  lemma {:induction false} LinesMean(done: seq<Event>, lines: seq<Line>)
    ensures Flush(TakeAll(Scan(done, "", []), lines)).events == done + Meaning(lines)
    decreases |lines|
  {
    hide Flush, EventIn;
    var n := FirstEmpty(lines);
    var block := lines[..n];
    BlockFlushed(done, block);
    if n == |lines| {
      assert block == lines;
      assert EventIn(block) + [] == EventIn(block);
    } else {
      var rest := lines[n + 1..];
      assert lines == block + lines[n..] && lines[n..][1..] == rest;
      TakeAllConcat(Scan(done, "", []), block, lines[n..]);
      var st := TakeAll(Scan(done, "", []), block);
      assert TakeAll(st, lines[n..]) == TakeAll(Flush(st), rest);
      LinesMean(done + EventIn(block), rest);
      Assoc(done, EventIn(block), Meaning(rest));
    }
  }

  /** The parser reads what the lines mean: comments, other fields and lines without a colon say nothing, the last name
      wins, data rows are joined by newlines, and the end of the text ends an event like an empty line. */
  lemma ParseIsMeaning(raws: seq<Raw>, last: Raw)
    requires Proper(last) && forall raw | raw in raws :: Proper(raw)
    ensures Parse(Render(raws) + RawText(last)) == Meaning(LinesOf(raws) + [last.line])
  {
    hide Proper, RawText, TakeLines, TakeAll, Meaning, Flush;
    RenderTaken(START, raws, last);
    LinesMean([], LinesOf(raws) + [last.line]);
    assert [] + Meaning(LinesOf(raws) + [last.line]) == Meaning(LinesOf(raws) + [last.line]);
  }

  // ----- every text is made of such lines -----

  lemma LineOf(text: string) returns (line: Line)
    requires '\n' !in text
    ensures LineText(line) == text && Proper(Raw(line, 2))
  {
    if text == "" {
      line := Empty;
    } else if text[0] == ':' {
      line := Comment(text[1..]);
      assert text == ":" + text[1..];
    } else {
      var n := IndexOf(text, ':');
      if n == |text| {
        line := Bare(text);
      } else {
        line := FieldOf(text, n);
      }
    }
  }

  lemma FieldOf(text: string, n: nat) returns (line: Line)
    requires '\n' !in text && 0 < n < |text| && text[n] == ':' && ':' !in text[..n]
    ensures LineText(line) == text && Proper(Raw(line, 2))
  {
    var key, tail := text[..n], text[n + 1..];
    assert text == key + ":" + tail;
    if tail != "" && tail[0] == ' ' {
      line := Field(key, true, tail[1..]);
      assert key + ":" + " " + tail[1..] == text;
    } else {
      line := Field(key, false, tail);
      assert key + ":" + "" + tail == text;
    }
  }

  lemma RawOf(text: string) returns (raw: Raw)
    requires '\n' !in text
    ensures RawText(raw) == text && Proper(raw)
  {
    ReturnsAre();
    var line, ends;
    line, ends := EndsOf(text);
    raw := Raw(line, ends);
    hide LineText;
  }

  lemma EndsOf(text: string) returns (line: Line, ends: nat)
    requires '\n' !in text
    ensures Proper(Raw(line, 2)) && ends <= 2 && (ends < 2 ==> !EndsInCR(LineText(line)))
    ensures text == LineText(line) + Returns(ends)
  {
    ReturnsAre();
    var once := DropCR(text);
    var twice := DropCR(once);
    DropsOne(text);
    DropsOne(once);
    line := LineOf(twice);
    hide LineText, DropCR, Returns, Proper;
    if |once| == |text| {
      ends := 0;
      assert text + "" == text;
    } else if |twice| == |once| {
      ends := 1;
    } else {
      ends := 2;
      assert twice + "\r" + "\r" == twice + "\r\r";
    }
  }

  lemma DropsOne(text: string)
    ensures |DropCR(text)| <= |text| && ('\n' !in text ==> '\n' !in DropCR(text))
    ensures |DropCR(text)| == |text| ==> DropCR(text) == text && !EndsInCR(text)
    ensures |DropCR(text)| < |text| ==> text == DropCR(text) + "\r"
  {
  }

  /** No text is left out: every one is the rendering of some proper lines. */
  lemma {:induction false} EveryText(text: string) returns (raws: seq<Raw>, last: Raw)
    ensures Proper(last) && forall raw | raw in raws :: Proper(raw)
    ensures text == Render(raws) + RawText(last)
    decreases |text|
  {
    hide Proper, RawText;
    var n := IndexOf(text, '\n');
    if n == |text| {
      raws := [];
      last := RawOf(text);
      assert Render([]) + text == text;
    } else {
      SplitAtNewline(text, n);
      var first := RawOf(text[..n]);
      var more, end := EveryText(text[n + 1..]);
      raws, last := [first] + more, end;
      assert raws[1..] == more;
      Assoc(RawText(first) + "\n", Render(more), RawText(last));
    }
  }

  // ----- the printer writes such lines -----

  function DataLines(rows: seq<string>): (raws: seq<Raw>)
    ensures |raws| == |rows| && forall k | 0 <= k < |raws| :: raws[k] == Raw(Field("data", true, rows[k]), 0)
  {
    if rows == [] then [] else [Raw(Field("data", true, rows[0]), 0)] + DataLines(rows[1..])
  }

  /** The lines of a printed event: its name unless it is blank, a row for every line of its data, and an empty one. */
  function EventLines(e: Event): seq<Raw> {
    (if Blank(e.name) then [] else [Raw(Field("event", true, e.name), 0)])
    + DataLines(Split(e.data)) + [Raw(Empty, 0)]
  }

  lemma {:induction false} RenderConcat(a: seq<Raw>, b: seq<Raw>)
    ensures Render(a + b) == Render(a) + Render(b)
  {
    hide RawText;
    if a == [] {
      assert a + b == b;
    } else {
      assert (a + b)[1..] == a[1..] + b;
      RenderConcat(a[1..], b);
      Assoc(RawText(a[0]) + "\n", Render(a[1..]), Render(b));
    }
  }

  lemma {:induction false} RowsRendered(rows: seq<string>)
    ensures PrintRows(rows) == Render(DataLines(rows))
  {
    ReturnsAre();
    if rows != [] {
      RowsRendered(rows[1..]);
      assert DataLines(rows)[1..] == DataLines(rows[1..]);
      assert LineText(Field("data", true, rows[0])) == "data: " + rows[0];
    }
  }

  lemma RenderOne(raw: Raw)
    ensures Render([raw]) == RawText(raw) + "\n"
  {
    hide RawText;
    assert [raw][1..] == [] && RawText(raw) + "\n" + "" == RawText(raw) + "\n";
  }

  lemma NameRendered(name: string)
    ensures Render([Raw(Field("event", true, name), 0)]) == "event: " + name + "\n"
    ensures Render([Raw(Empty, 0)]) == "\n"
  {
    ReturnsAre();
    RenderOne(Raw(Field("event", true, name), 0));
    RenderOne(Raw(Empty, 0));
    assert LineText(Field("event", true, name)) == "event: " + name;
    assert "event: " + name + "" == "event: " + name;
  }

  /** The printed text of an event is those lines. */
  lemma PrintIsRendered(e: Event)
    ensures PrintEvent(e) == Render(EventLines(e))
  {
    RowsRendered(Split(e.data));
    NameRendered(e.name);
    var head := if Blank(e.name) then [] else [Raw(Field("event", true, e.name), 0)];
    var rows := DataLines(Split(e.data));
    RenderConcat(head + rows, [Raw(Empty, 0)]);
    RenderConcat(head, rows);
    assert Render([]) == "";
    hide Split, DataLines, PrintRows, Blank, Render;
  }
}
