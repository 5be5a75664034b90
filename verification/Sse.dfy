/** Server-sent events: `parseSSEStream` and `marshalSSEStream`. Text is a sequence of code points,
    and the 4 MiB limit on one line is not modelled. */
module Sse {
  import opened Text

  datatype Event = Event(name: string, data: string)

  // ----- lines -----

  function IndexOf(s: string, c: char): (n: nat)
    ensures n <= |s|
    ensures forall k | 0 <= k < n :: s[k] != c
    ensures n < |s| ==> s[n] == c
  {
    if s == "" || s[0] == c then 0 else
      var n := 1 + IndexOf(s[1..], c);
      assert forall k | 1 <= k < n :: s[k] == s[1..][k - 1];
      n
  }

  /** `strings.Split(s, "\n")`. */
  function Split(s: string): (rows: seq<string>)
    ensures rows != []
    ensures forall row | row in rows :: '\n' !in row
    decreases |s|
  {
    var n := IndexOf(s, '\n');
    if n == |s| then
      assert s == s[..n];
      [s]
    else [s[..n]] + Split(s[n + 1..])
  }

  /** `strings.Join(rows, "\n")`. */
  function Join(rows: seq<string>): string {
    if |rows| == 0 then ""
    else if |rows| == 1 then rows[0]
    else rows[0] + "\n" + Join(rows[1..])
  }

  function DropCR(s: string): string {
    if s != "" && s[|s| - 1] == '\r' then s[..|s| - 1] else s
  }

  /** `bufio.ScanLines` over the whole text: a carriage return before the newline is dropped, and a
      last line without a newline counts when it is not empty. */
  function ScanLines(text: string): seq<string>
    decreases |text|
  {
    if text == "" then [] else
      var n := IndexOf(text, '\n');
      if n == |text| then [DropCR(text)] else [DropCR(text[..n])] + ScanLines(text[n + 1..])
  }

  // ----- parsing -----

  /** The parser's variables: finished events, the current event name and its data rows. */
  datatype Scan = Scan(events: seq<Event>, name: string, rows: seq<string>)

  const START := Scan([], "", [])

  function Flush(st: Scan): Scan {
    if st.name == "" && st.rows == [] then st
    else Scan(st.events + [Event(st.name, Join(st.rows))], "", [])
  }

  function TakeField(st: Scan, line: string): Scan {
    var n := IndexOf(line, ':');
    if n == |line| then st else
      var raw := line[n + 1..];
      var value := if raw != "" && raw[0] == ' ' then raw[1..] else raw;
      if line[..n] == "event" then st.(name := value)
      else if line[..n] == "data" then st.(rows := st.rows + [value])
      else st
  }

  function TakeLine(st: Scan, raw: string): Scan {
    var line := DropCR(raw);
    if line == "" then Flush(st)
    else if line[0] == ':' then st
    else TakeField(st, line)
  }

  function TakeLines(st: Scan, lines: seq<string>): Scan
    decreases lines
  {
    if lines == [] then st else TakeLines(TakeLine(st, lines[0]), lines[1..])
  }

  function Parse(text: string): seq<Event> {
    Flush(TakeLines(START, ScanLines(text))).events
  }

  method ParseStream(body: string) returns (events: seq<Event>)
    ensures events == Parse(body)
  {
    var lines := ScanLines(body);
    var name, rows := "", [];
    events := [];
    for i := 0 to |lines|
      invariant TakeLines(Scan(events, name, rows), lines[i..]) == TakeLines(START, lines)
    {
      var line := DropCR(lines[i]);
      assert lines[i..][1..] == lines[i + 1..];
      if line == "" {
        if name != "" || rows != [] {
          events, name, rows := events + [Event(name, Join(rows))], "", [];
        }
      } else if line[0] != ':' {
        var n := IndexOf(line, ':');
        if n < |line| {
          var value := line[n + 1..];
          if value != "" && value[0] == ' ' {
            value := value[1..];
          }
          if line[..n] == "event" {
            name := value;
          } else if line[..n] == "data" {
            rows := rows + [value];
          }
        }
      }
    }
    if name != "" || rows != [] {
      events := events + [Event(name, Join(rows))];
    }
  }

  // ----- printing -----

  function PrintRows(rows: seq<string>): string {
    if rows == [] then "" else "data: " + rows[0] + "\n" + PrintRows(rows[1..])
  }

  function PrintName(name: string): string {
    if Blank(name) then "" else "event: " + name + "\n"
  }

  function PrintEvent(e: Event): string {
    PrintName(e.name) + PrintRows(Split(e.data)) + "\n"
  }

  function Print(events: seq<Event>): string {
    if events == [] then "" else PrintEvent(events[0]) + Print(events[1..])
  }

  method MarshalStream(events: seq<Event>) returns (text: string)
    ensures text == Print(events)
  {
    hide PrintEvent;
    text := "";
    for i := 0 to |events|
      invariant text == Print(events[..i])
    {
      var printed := MarshalEvent(events[i]);
      assert events[..i + 1] == events[..i] + [events[i]];
      PrintAppend(events[..i], events[i]);
      text := text + printed;
    }
    assert events[..|events|] == events;
  }

  method MarshalEvent(e: Event) returns (text: string)
    ensures text == PrintEvent(e)
  {
    var rows := Split(e.data);
    var printed := "";
    for j := 0 to |rows|
      invariant printed == PrintRows(rows[..j])
    {
      assert rows[..j + 1] == rows[..j] + [rows[j]];
      PrintRowsAppend(rows[..j], rows[j]);
      printed := printed + ("data: " + rows[j] + "\n");
    }
    assert rows[..|rows|] == rows;
    text := PrintName(e.name) + printed + "\n";
  }

  lemma {:induction false} PrintRowsAppend(rows: seq<string>, row: string)
    ensures PrintRows(rows + [row]) == PrintRows(rows) + ("data: " + row + "\n")
  {
    if rows == [] {
      assert rows + [row] == [row];
    } else {
      assert (rows + [row])[1..] == rows[1..] + [row];
      PrintRowsAppend(rows[1..], row);
    }
  }

  lemma {:induction false} PrintAppend(events: seq<Event>, e: Event)
    ensures Print(events + [e]) == Print(events) + PrintEvent(e)
  {
    if events == [] {
      assert events + [e] == [e];
      assert Print([e]) == PrintEvent(e) + Print([]);
    } else {
      assert (events + [e])[1..] == events[1..] + [e];
      PrintAppend(events[1..], e);
    }
  }

  // ----- what one line of printed text scans as -----

  lemma IndexOfIs(s: string, c: char, k: nat)
    requires k < |s| && s[k] == c && forall i | 0 <= i < k :: s[i] != c
    ensures IndexOf(s, c) == k
  {
  }

  lemma Assoc<T>(a: seq<T>, b: seq<T>, c: seq<T>)
    ensures a + b + c == a + (b + c)
  {
  }

  lemma SplitAtNewline(s: string, n: nat)
    requires n < |s| && s[n] == '\n'
    ensures s == s[..n] + "\n" + s[n + 1..]
  {
  }

  lemma ScanFirstLine(line: string, rest: string)
    requires '\n' !in line
    ensures ScanLines(line + "\n" + rest) == [DropCR(line)] + ScanLines(rest)
  {
    var text := line + "\n" + rest;
    assert text[..|line|] == line && text[|line| + 1..] == rest;
    IndexOfIs(text, '\n', |line|);
  }

  /** A line loses up to two carriage returns: one to the scanner and one to the parser. */
  function Strip(s: string): string {
    DropCR(DropCR(s))
  }

  lemma StripAfterPrefix(prefix: string, s: string)
    requires prefix != "" && prefix[|prefix| - 1] != '\r'
    ensures Strip(prefix + s) == prefix + Strip(s)
  {
    DropCRAfterPrefix(prefix, s);
    DropCRAfterPrefix(prefix, DropCR(s));
  }

  lemma DropCRAfterPrefix(prefix: string, s: string)
    requires prefix != "" && prefix[|prefix| - 1] != '\r'
    ensures DropCR(prefix + s) == prefix + DropCR(s)
  {
    if s == "" {
      assert prefix + s == prefix;
    } else {
      assert (prefix + s)[..|prefix + s| - 1] == prefix + s[..|s| - 1];
    }
  }

  lemma TakeNameLine(st: Scan, name: string)
    ensures TakeLine(st, DropCR("event: " + name)) == st.(name := Strip(name))
  {
    StripAfterPrefix("event: ", name);
    var line := "event: " + Strip(name);
    assert line[..5] == "event" && line[6..] == " " + Strip(name);
    IndexOfIs(line, ':', 5);
  }

  lemma TakeDataLine(st: Scan, row: string)
    ensures TakeLine(st, DropCR("data: " + row)) == st.(rows := st.rows + [Strip(row)])
  {
    StripAfterPrefix("data: ", row);
    var line := "data: " + Strip(row);
    assert line[..4] == "data" && line[5..] == " " + Strip(row);
    IndexOfIs(line, ':', 4);
  }

  function StripAll(rows: seq<string>): (r: seq<string>)
    ensures |r| == |rows| && forall i | 0 <= i < |r| :: r[i] == Strip(rows[i])
  {
    hide Strip;
    if rows == [] then [] else [Strip(rows[0])] + StripAll(rows[1..])
  }

  lemma TakePrintedRow(st: Scan, row: string, rest: string)
    requires '\n' !in row
    ensures TakeLines(st, ScanLines("data: " + row + "\n" + rest))
         == TakeLines(st.(rows := st.rows + [Strip(row)]), ScanLines(rest))
  {
    var line := "data: " + row;
    assert '\n' !in line;
    ScanFirstLine(line, rest);
    TakeDataLine(st, row);
  }

  lemma {:induction false} TakePrintedRows(st: Scan, rows: seq<string>, rest: string)
    requires forall row | row in rows :: '\n' !in row
    ensures TakeLines(st, ScanLines(PrintRows(rows) + rest))
         == TakeLines(st.(rows := st.rows + StripAll(rows)), ScanLines(rest))
    decreases rows
  {
    if rows == [] {
      assert PrintRows(rows) + rest == rest && st.rows + StripAll(rows) == st.rows;
    } else {
      var row, more := rows[0], rows[1..];
      assert row in rows && forall r | r in more :: r in rows;
      TakePrintedRow(st, row, PrintRows(more) + rest);
      Assoc("data: " + row + "\n", PrintRows(more), rest);
      var st' := st.(rows := st.rows + [Strip(row)]);
      TakePrintedRows(st', more, rest);
      Assoc(st.rows, [Strip(row)], StripAll(more));
    }
  }

  /** What printing and parsing make of one event. */
  function Canon(e: Event): Event {
    Event(if Blank(e.name) then "" else Strip(e.name), Join(StripAll(Split(e.data))))
  }

  function CanonAll(events: seq<Event>): seq<Event> {
    if events == [] then [] else [Canon(events[0])] + CanonAll(events[1..])
  }

  lemma TakePrintedName(done: seq<Event>, name: string, rest: string)
    requires Blank(name) || '\n' !in name
    ensures TakeLines(Scan(done, "", []), ScanLines(PrintName(name) + rest))
         == TakeLines(Scan(done, if Blank(name) then "" else Strip(name), []), ScanLines(rest))
  {
    if Blank(name) {
      assert PrintName(name) + rest == rest;
    } else {
      var line := "event: " + name;
      assert PrintName(name) + rest == line + "\n" + rest;
      assert '\n' !in "event: ";
      ScanFirstLine(line, rest);
      TakeNameLine(Scan(done, "", []), name);
    }
  }

  lemma TakePrintedEvent(done: seq<Event>, e: Event, rest: string)
    requires Blank(e.name) || '\n' !in e.name
    ensures TakeLines(Scan(done, "", []), ScanLines(PrintEvent(e) + rest))
         == TakeLines(Scan(done + [Canon(e)], "", []), ScanLines(rest))
  {
    hide PrintName, PrintRows, Split, ScanLines;
    var rows := Split(e.data);
    var tail := "" + "\n" + rest;
    assert PrintEvent(e) + rest == PrintName(e.name) + (PrintRows(rows) + tail);
    TakePrintedName(done, e.name, PrintRows(rows) + tail);
    var st := Scan(done, Canon(e).name, []);
    TakePrintedRows(st, rows, tail);
    assert st.rows + StripAll(rows) == StripAll(rows);
    ScanFirstLine("", rest);
    assert StripAll(rows) != [];
  }

  lemma TakeNothing(st: Scan)
    ensures TakeLines(st, ScanLines("")) == st
  {
  }

  lemma {:induction false} TakePrinted(done: seq<Event>, events: seq<Event>)
    requires forall e | e in events :: Blank(e.name) || '\n' !in e.name
    ensures TakeLines(Scan(done, "", []), ScanLines(Print(events))) == Scan(done + CanonAll(events), "", [])
    decreases events
  {
    TakeNothing(Scan(done, "", []));
    hide PrintEvent, TakeLines, ScanLines, Canon;
    if events == [] {
      assert done + CanonAll(events) == done;
    } else {
      var e, more := events[0], events[1..];
      assert e in events && forall x | x in more :: x in events;
      TakePrintedEvent(done, e, Print(more));
      TakePrinted(done + [Canon(e)], more);
      assert done + [Canon(e)] + CanonAll(more) == done + ([Canon(e)] + CanonAll(more));
    }
  }

  /** Parsing printed text gives every event in canonical form, whenever no printed name holds a newline. */
  lemma ParsePrint(events: seq<Event>)
    requires forall e | e in events :: Blank(e.name) || '\n' !in e.name
    ensures Parse(Print(events)) == CanonAll(events)
  {
    TakePrinted([], events);
    assert [] + CanonAll(events) == CanonAll(events);
  }

  // ----- when printing and parsing is the identity -----

  predicate EndsInCR(s: string) {
    s != "" && s[|s| - 1] == '\r'
  }

  /** An event that text/event-stream can carry through this printer and parser. */
  predicate Printable(e: Event) {
    && (e.name == "" || (!Blank(e.name) && '\n' !in e.name && !EndsInCR(e.name)))
    && forall row | row in Split(e.data) :: !EndsInCR(row)
  }

  lemma {:induction false} JoinSplit(s: string)
    ensures Join(Split(s)) == s
    decreases |s|
  {
    hide IndexOf;
    var n := IndexOf(s, '\n');
    if n < |s| {
      JoinSplit(s[n + 1..]);
      assert Split(s) == [s[..n]] + Split(s[n + 1..]);
      assert Split(s)[1..] == Split(s[n + 1..]);
      assert s == s[..n] + "\n" + s[n + 1..];
    }
  }

  lemma {:induction false} SplitJoin(rows: seq<string>)
    requires rows != [] && forall row | row in rows :: '\n' !in row
    ensures Split(Join(rows)) == rows
  {
    assert rows[0] in rows;
    if |rows| == 1 {
      assert IndexOf(rows[0], '\n') == |rows[0]|;
    } else {
      SplitJoin(rows[1..]);
      var s := Join(rows);
      assert s[..|rows[0]|] == rows[0] && s[|rows[0]| + 1..] == Join(rows[1..]);
      IndexOfIs(s, '\n', |rows[0]|);
    }
  }

  lemma StripKeeps(s: string)
    ensures Strip(s) <= s
    ensures Strip(s) == s <==> !EndsInCR(s)
  {
  }

  lemma StripAllIsIdentity(rows: seq<string>)
    ensures StripAll(rows) == rows <==> forall row | row in rows :: !EndsInCR(row)
  {
    forall i | 0 <= i < |rows| ensures StripAll(rows)[i] == rows[i] <==> !EndsInCR(rows[i]) {
      StripKeeps(rows[i]);
    }
    if forall i | 0 <= i < |rows| :: !EndsInCR(rows[i]) {
      assert StripAll(rows) == rows;
    } else {
      var i :| 0 <= i < |rows| && EndsInCR(rows[i]);
      assert rows[i] in rows;
    }
  }

  lemma CanonDataIsIdentity(data: string)
    ensures Join(StripAll(Split(data))) == data <==> forall row | row in Split(data) :: !EndsInCR(row)
  {
    var rows := Split(data);
    JoinSplit(data);
    StripAllIsIdentity(rows);
    forall row | row in StripAll(rows) ensures '\n' !in row {
      var k :| 0 <= k < |rows| && row == Strip(rows[k]);
      StripKeeps(rows[k]);
      assert rows[k] in rows;
    }
    SplitJoin(StripAll(rows));
  }

  lemma CanonIsIdentity(e: Event)
    requires Blank(e.name) || '\n' !in e.name
    ensures Canon(e) == e <==> Printable(e)
  {
    CanonDataIsIdentity(e.data);
    StripKeeps(e.name);
  }

  ghost predicate PlainNames(st: Scan) {
    '\n' !in st.name && forall e | e in st.events :: '\n' !in e.name
  }

  lemma {:induction false} TakeLinesPlainNames(st: Scan, lines: seq<string>)
    requires PlainNames(st) && forall line | line in lines :: '\n' !in line
    ensures PlainNames(TakeLines(st, lines))
    decreases lines
  {
    if lines != [] {
      assert lines[0] in lines;
      TakeLinesPlainNames(TakeLine(st, lines[0]), lines[1..]);
    }
  }

  lemma DropCRPlain(s: string)
    requires '\n' !in s
    ensures '\n' !in DropCR(s)
  {
  }

  lemma {:induction false} ScanLinesPlain(text: string)
    ensures forall line | line in ScanLines(text) :: '\n' !in line
    decreases |text|
  {
    hide IndexOf, DropCR;
    if text != "" {
      var n := IndexOf(text, '\n');
      DropCRPlain(text[..n]);
      if n < |text| {
        ScanLinesPlain(text[n + 1..]);
        assert text[..n] != text;
      } else {
        assert text[..n] == text;
      }
    }
  }

  predicate NoNewlineNames(events: seq<Event>) {
    forall e | e in events :: Blank(e.name) || '\n' !in e.name
  }

  lemma {:induction false} CanonAllEach(events: seq<Event>)
    ensures |CanonAll(events)| == |events|
    ensures forall i | 0 <= i < |events| :: CanonAll(events)[i] == Canon(events[i])
  {
    hide Canon;
    if events != [] {
      CanonAllEach(events[1..]);
    }
  }

  lemma CanonAllIsIdentity(events: seq<Event>)
    requires NoNewlineNames(events)
    ensures CanonAll(events) == events <==> forall e | e in events :: Printable(e)
  {
    hide Canon, Printable;
    CanonAllEach(events);
    forall i | 0 <= i < |events| ensures CanonAll(events)[i] == events[i] <==> Printable(events[i]) {
      assert events[i] in events;
      CanonIsIdentity(events[i]);
    }
    assert (forall i | 0 <= i < |events| :: Printable(events[i])) <==> forall e | e in events :: Printable(e);
    assert CanonAll(events) == events <==> forall i | 0 <= i < |events| :: CanonAll(events)[i] == events[i];
  }

  /** A name with a newline never comes out of the parser. */
  lemma NewlineNameIsLost(events: seq<Event>, e: Event)
    requires e in events && !Blank(e.name) && '\n' in e.name
    ensures Parse(Print(events)) != events && !Printable(e)
  {
    var lines := ScanLines(Print(events));
    ScanLinesPlain(Print(events));
    TakeLinesPlainNames(START, lines);
    hide Print, ScanLines, TakeLines;
    assert PlainNames(Flush(TakeLines(START, lines)));
  }

  /** The exact domain of the round trip: parsing undoes printing just for lists of printable events. */
  lemma PrintParseRoundTrip(events: seq<Event>)
    ensures Parse(Print(events)) == events <==> forall e | e in events :: Printable(e)
  {
    hide Parse, Print, Printable, CanonAll, Blank;
    if NoNewlineNames(events) {
      ParsePrint(events);
      CanonAllIsIdentity(events);
    } else {
      var e :| e in events && !Blank(e.name) && '\n' in e.name;
      NewlineNameIsLost(events, e);
    }
  }

  // ----- concatenation -----

  lemma {:induction false} ScanLinesConcat(a: string, b: string)
    requires a == "" || a[|a| - 1] == '\n'
    ensures ScanLines(a + b) == ScanLines(a) + ScanLines(b)
    decreases |a|
  {
    if a == "" {
      assert a + b == b;
    } else {
      var n := IndexOf(a, '\n');
      var line, rest := a[..n], a[n + 1..];
      SplitAtNewline(a, n);
      Assoc(line + "\n", rest, b);
      ScanFirstLine(line, rest);
      ScanFirstLine(line, rest + b);
      assert rest == "" || rest[|rest| - 1] == a[|a| - 1];
      ScanLinesConcat(rest, b);
      Assoc([DropCR(line)], ScanLines(rest), ScanLines(b));
    }
  }

  lemma {:induction false} TakeLinesConcat(st: Scan, a: seq<string>, b: seq<string>)
    ensures TakeLines(st, a + b) == TakeLines(TakeLines(st, a), b)
    decreases a
  {
    if a == [] {
      assert a + b == b;
    } else {
      assert (a + b)[1..] == a[1..] + b;
      TakeLinesConcat(TakeLine(st, a[0]), a[1..], b);
    }
  }

  /** Earlier events never influence later ones. */
  lemma {:induction false} TakeLinesFrame(done: seq<Event>, st: Scan, lines: seq<string>)
    ensures var r := TakeLines(st, lines);
            TakeLines(st.(events := done + st.events), lines) == r.(events := done + r.events)
    decreases lines
  {
    if lines != [] {
      var next := TakeLine(st, lines[0]);
      assert TakeLine(st.(events := done + st.events), lines[0]).events == done + next.events;
      TakeLinesFrame(done, next, lines[1..]);
    }
  }

  lemma BlankLine()
    ensures ScanLines("\n") == [""]
  {
    assert "" + "\n" + "" == "\n";
    ScanFirstLine("", "");
  }

  /** A blank line leaves the parser with nothing pending. */
  lemma ParseBlankLine(a: string)
    requires a == "" || a[|a| - 1] == '\n'
    ensures TakeLines(START, ScanLines(a + "\n")) == Scan(Parse(a + "\n"), "", [])
  {
    ScanLinesConcat(a, "\n");
    BlankLine();
    TakeLinesConcat(START, ScanLines(a), [""]);
    var first := TakeLines(START, ScanLines(a));
    assert TakeLines(first, [""]) == Flush(first);
  }

  /** Parsing distributes over concatenation at a blank line. */
  lemma ParseConcat(a: string, b: string)
    requires a == "" || a[|a| - 1] == '\n'
    ensures Parse(a + "\n" + b) == Parse(a + "\n") + Parse(b)
  {
    hide ScanLines, TakeLines;
    var head, tail := a + "\n", ScanLines(b);
    ScanLinesConcat(head, b);
    TakeLinesConcat(START, ScanLines(head), tail);
    ParseBlankLine(a);
    TakeLinesFrame(Parse(head), START, tail);
    assert START.(events := Parse(head) + START.events) == Scan(Parse(head), "", []);
  }
}
