/** A Messages stream sent through both stream converters: what comes back, exactly, and when it is
    the stream that was sent. */
module RoundTrip {
  import opened Text
  import opened Json
  import opened Frames
  import opened Blocks
  import M = MessagesEvents
  import R = ResponsesEvents
  import There = ToResponses
  import Back = ToMessages
  import Sse

  /** The state of the second converter after it has read everything the first one wrote. */
  ghost function Returned(s: There.State): Back.State {
    Back.Run(Back.INIT, R.EchoAll(s.out))
  }

  // ----- what comes back for the events between message_start and message_delta -----

  /** Which blocks have been started, and which of them are open. */
  type Status = map<int, bool>

  function BeginStatus(st: Status, index: int): Status {
    if index in st then st else st[index := true]
  }

  function NextStatus(st: Status, e: M.In): Status {
    match e
    case TextStart(index) => BeginStatus(st, index)
    case TextDelta(index, _) => BeginStatus(st, index)
    case BlockStop(index) => BeginStatus(st, index)[index := false]
    case _ => st
  }

  function StatusAfter(st: Status, body: seq<M.In>): Status
    decreases body
  {
    if body == [] then st else StatusAfter(NextStatus(st, body[0]), body[1..])
  }

  /** A block that is used before it was started is started on the way. */
  function Begin(st: Status, index: int): seq<M.Out> {
    if index in st then [] else [M.BlockStart(index)]
  }

  function Emitted(st: Status, e: M.In): seq<M.Out> {
    match e
    case TextStart(index) => Begin(st, index)
    case TextDelta(index, text) => Begin(st, index) + [M.BlockDelta(index, text)]
    case BlockStop(index) =>
      Begin(st, index) + if BeginStatus(st, index)[index] then [M.BlockEnd(index)] else []
    case _ => []
  }

  function Repaired(st: Status, body: seq<M.In>): seq<M.Out>
    decreases body
  {
    if body == [] then [] else Emitted(st, body[0]) + Repaired(NextStatus(st, body[0]), body[1..])
  }

  /** The stops of the blocks that are still open. */
  function Ends(st: Status, indexes: seq<int>): seq<M.Out> {
    if indexes == [] then []
    else (if indexes[0] in st && st[indexes[0]] then [M.BlockEnd(indexes[0])] else []) + Ends(st, indexes[1..])
  }

  ghost function RepairedToEnd(st: Status, body: seq<M.In>): seq<M.Out> {
    var after := StatusAfter(st, body);
    Repaired(st, body) + Ends(after, Sorted(after.Keys))
  }

  /** A block event, or a frame the converter passes over. */
  predicate IsBody(e: M.In) {
    e.Skip? || e.TextStart? || (e.TextDelta? && e.text != "") || e.BlockStop?
  }

  // ----- the two converters in step -----

  predicate Agrees(a: Block, st: Status, index: int) {
    && (a.started <==> index in st)
    && (a.open <==> index in st && st[index])
  }

  ghost predicate InStep(m: There.State, st: Status) {
    var r := Returned(m);
    && m.created && m.itemAdded && r.started
    && (forall i :: Agrees(BlockAt(m.blocks, i), st, i))
    && (forall i :: Agrees(BlockAt(r.blocks, i), st, i))
    && m.blocks.Keys == st.Keys
  }

  lemma {:induction false} EchoAllAppend(a: seq<R.Out>, b: seq<R.Out>)
    ensures R.EchoAll(a + b) == R.EchoAll(a) + R.EchoAll(b)
  {
    if a == [] {
      assert a + b == b;
    } else {
      assert (a + b)[1..] == a[1..] + b;
      EchoAllAppend(a[1..], b);
    }
  }

  /** The second converter reads one more event. */
  lemma ReturnOne(s: There.State, e: R.Out)
    ensures Returned(s.(out := s.out + [e])) == Back.Step(Returned(s), R.Echo(e))
  {
    hide R.Echo, Back.Step;
    EchoAllAppend(s.out, [e]);
    assert [e][0] == e && [e][1..] == [];
    assert R.EchoAll([e]) == [R.Echo(e)];
    assert [R.Echo(e)][1..] == [];
    Back.RunAppend(Back.INIT, R.EchoAll(s.out), [R.Echo(e)]);
    assert Back.Run(Returned(s), [R.Echo(e)]) == Back.Step(Returned(s), R.Echo(e));
  }

  lemma ReturnedFromOut(a: There.State, b: There.State)
    requires a.out == b.out
    ensures Returned(a) == Returned(b)
  {
  }

  lemma BeginInStep(m: There.State, st: Status, index: int)
    requires InStep(m, st)
    ensures var m' := There.EnsurePartAdded(m, index);
            var r' := Returned(m');
            && InStep(m', BeginStatus(st, index))
            && r'.out == Returned(m).out + Begin(st, index)
  {
    var r := Returned(m);
    assert Agrees(BlockAt(m.blocks, index), st, index) && Agrees(BlockAt(r.blocks, index), st, index);
    var m' := There.EnsurePartAdded(m, index);
    if index in st {
      assert m' == m;
    } else {
      var e := R.OutPartAdded(m.itemId, index);
      ReturnOne(m, e);
      var r' := Back.Ready(r, index);
      assert Returned(m') == r';
      forall i ensures Agrees(BlockAt(m'.blocks, i), BeginStatus(st, index), i)
      {
        assert Agrees(BlockAt(m.blocks, i), st, i);
      }
      forall i ensures Agrees(BlockAt(r'.blocks, i), BeginStatus(st, index), i)
      {
        assert Agrees(BlockAt(r.blocks, i), st, i);
      }
    }
  }

  lemma DeltaInStep(m: There.State, st: Status, index: int, text: string)
    requires InStep(m, st) && index in st && text != ""
    ensures var m' := There.AddText(m, index, text);
            var r' := Returned(m');
            && InStep(m', st)
            && r'.out == Returned(m).out + [M.BlockDelta(index, text)]
  {
    var r := Returned(m);
    assert Agrees(BlockAt(m.blocks, index), st, index) && Agrees(BlockAt(r.blocks, index), st, index);
    var e := R.OutDelta(m.itemId, index, text);
    var m' := There.AddText(m, index, text);
    ReturnOne(m, e);
    ReturnedFromOut(m', m.(out := m.out + [e]));
    hide Returned;
    var r' := Back.AddText(r, index, text);
    assert Returned(m') == r';
    forall i ensures Agrees(BlockAt(m'.blocks, i), st, i) {
      assert Agrees(BlockAt(m.blocks, i), st, i);
    }
    forall i ensures Agrees(BlockAt(r'.blocks, i), st, i) {
      assert Agrees(BlockAt(r.blocks, i), st, i);
    }
  }

  lemma CloseInStep(m: There.State, st: Status, index: int)
    requires InStep(m, st) && index in st
    ensures var m' := There.CloseBlock(m, index);
            var r' := Returned(m');
            && InStep(m', st[index := false])
            && r'.out == Returned(m).out + if st[index] then [M.BlockEnd(index)] else []
  {
    var r := Returned(m);
    assert Agrees(BlockAt(m.blocks, index), st, index) && Agrees(BlockAt(r.blocks, index), st, index);
    var m' := There.CloseBlock(m, index);
    if st[index] {
      CloseReturns(m, index);
      hide Returned;
      forall i ensures Agrees(BlockAt(m'.blocks, i), st[index := false], i) {
        assert Agrees(BlockAt(m.blocks, i), st, i);
      }
      forall i ensures Agrees(BlockAt(Returned(m').blocks, i), st[index := false], i) {
        assert Agrees(BlockAt(r.blocks, i), st, i);
      }
    } else {
      assert m' == m && st[index := false] == st;
    }
  }

  /** The second converter reads the two events that close a block. */
  lemma CloseReturns(m: There.State, index: int)
    requires BlockAt(m.blocks, index).open && Returned(m).started
    requires BlockAt(Returned(m).blocks, index).started && BlockAt(Returned(m).blocks, index).open
    ensures var r, r' := Returned(m), Returned(There.CloseBlock(m, index));
            && r'.started && r'.out == r.out + [M.BlockEnd(index)]
            && BlockAt(r'.blocks, index).started && !BlockAt(r'.blocks, index).open
            && forall i :: i != index ==> BlockAt(r'.blocks, i) == BlockAt(r.blocks, i)
  {
    hide Returned, Back.Step;
    var r, text := Returned(m), BlockAt(m.blocks, index).text;
    var d := R.OutTextDone(m.itemId, index, text);
    var e := R.OutPartDone(m.itemId, index, text);
    var mid := m.(out := m.out + [d]);
    ReturnOne(m, d);
    ReturnOne(mid, e);
    assert mid.out + [e] == m.out + [d, e];
    ReturnedFromOut(There.CloseBlock(m, index), mid.(out := mid.out + [e]));
    CloseRead(r, d, e);
  }

  lemma CloseRead(r: Back.State, d: R.Out, e: R.Out)
    requires d.OutTextDone? && e.OutPartDone? && d.index == e.index && d.text == e.text
    requires BlockAt(r.blocks, d.index).started && BlockAt(r.blocks, d.index).open
    ensures var r' := Back.Step(Back.Step(r, R.Echo(d)), R.Echo(e));
            && r'.started == r.started && r'.out == r.out + [M.BlockEnd(d.index)]
            && BlockAt(r'.blocks, d.index).started && !BlockAt(r'.blocks, d.index).open
            && forall i :: i != d.index ==> BlockAt(r'.blocks, i) == BlockAt(r.blocks, i)
  {
    var t := Back.Step(Back.Step(r, R.Echo(d)), R.Echo(e));
    assert t == Back.CloseBlock(Back.SetText(Back.SetText(r, d.index, d.text), d.index, d.text), d.index);
  }

  lemma StepInStep(m: There.State, st: Status, e: M.In)
    requires InStep(m, st) && IsBody(e)
    ensures var m' := There.Step(m, e);
            var r' := Returned(m');
            && InStep(m', NextStatus(st, e))
            && r'.out == Returned(m).out + Emitted(st, e)
            && m' == m.(blocks := m'.blocks, out := m'.out)
  {
    assert There.Opened(m) == m;
    if !e.Skip? {
      BeginInStep(m, st, e.index);
      var m1 := There.EnsurePartAdded(m, e.index);
      var st1 := BeginStatus(st, e.index);
      hide InStep;
      if e.TextDelta? {
        DeltaInStep(m1, st1, e.index, e.text);
      } else if e.BlockStop? {
        CloseInStep(m1, st1, e.index);
      }
    }
  }

  lemma {:induction false} BodyInStep(m: There.State, st: Status, body: seq<M.In>)
    requires InStep(m, st) && forall e | e in body :: IsBody(e)
    ensures var m' := There.Run(m, body);
            var r' := Returned(m');
            && InStep(m', StatusAfter(st, body))
            && r'.out == Returned(m).out + Repaired(st, body)
            && m' == m.(blocks := m'.blocks, out := m'.out)
    decreases body
  {
    hide InStep, There.Step, NextStatus, Emitted, IsBody;
    if body != [] {
      var e := body[0];
      assert IsBody(e);
      StepInStep(m, st, e);
      var m1 := There.Step(m, e);
      BodyInStep(m1, NextStatus(st, e), body[1..]);
      Sse.Assoc(Returned(m).out, Emitted(st, e), Repaired(NextStatus(st, e), body[1..]));
    }
  }

  lemma NothingLeftOpen(m: There.State, st: Status)
    requires InStep(m, st)
    ensures Returned(m).started && forall i :: BlockAt(Returned(m).blocks, i).open <==> i in st && st[i]
  {
    assert forall i :: Agrees(BlockAt(Returned(m).blocks, i), st, i);
  }

  lemma {:induction false} EndsInStep(m: There.State, st: Status, indexes: seq<int>)
    requires InStep(m, st) && Ascending(indexes) && forall i | i in indexes :: i in st
    ensures var m' := There.CloseBlocks(m, indexes);
            var r' := Returned(m');
            && r'.started
            && (forall i :: BlockAt(r'.blocks, i).open ==> i in st && st[i] && i !in indexes)
            && r'.out == Returned(m).out + Ends(st, indexes)
            && m' == m.(blocks := m'.blocks, out := m'.out)
    decreases indexes
  {
    hide There.CloseBlock, InStep, Returned;
    if indexes == [] {
      NothingLeftOpen(m, st);
    } else {
      var i, rest := indexes[0], indexes[1..];
      Sse.Assoc(Returned(m).out, if st[i] then [M.BlockEnd(i)] else [], Ends(st, rest));
      assert i in indexes && forall k | k in rest :: k in indexes;
      CloseInStep(m, st, i);
      var m1 := There.CloseBlock(m, i);
      CloseKeeps(m, i);
      EndsInStep(m1, st[i := false], rest);
      EndsIgnores(st, i, rest);
    }
  }

  lemma CloseKeeps(m: There.State, index: int)
    ensures var m' := There.CloseBlock(m, index); m' == m.(blocks := m'.blocks, out := m'.out)
  {
  }

  lemma {:induction false} EndsIgnores(st: Status, index: int, indexes: seq<int>)
    requires index !in indexes
    ensures Ends(st[index := false], indexes) == Ends(st, indexes)
  {
    if indexes != [] {
      EndsIgnores(st, index, indexes[1..]);
    }
  }

  // ----- the whole stream -----

  /** The events of one message: its start, its blocks and its end. */
  function Message(start: M.In, body: seq<M.In>, end: M.In): seq<M.In> {
    [start] + body + [end, M.Stop]
  }

  function StartOut(start: M.In): M.Out
    requires start.Start?
  {
    M.MessageStart(FirstNonEmpty([start.id]), FirstNonEmpty([start.model]), "assistant", start.usage)
  }

  function EndOut(start: M.In, end: M.In): M.Out
    requires start.Start? && end.Delta?
  {
    M.MessageDelta(FirstNonEmpty([end.stopReason, "end_turn"]), end.stopSequence,
                   if end.usage.Some? then end.usage else start.usage)
  }

  /** What comes back for a message. */
  ghost function Expected(start: M.In, body: seq<M.In>, end: M.In): seq<M.Out>
    requires start.Start? && end.Delta?
  {
    [StartOut(start)] + RepairedToEnd(map[], body) + [EndOut(start, end), M.MessageStop]
  }

  lemma FirstNonEmptyTwice(v: string, rest: seq<string>)
    ensures FirstNonEmpty([v, ""]) == FirstNonEmpty([v])
    ensures FirstNonEmpty([FirstNonEmpty([v]), ""]) == FirstNonEmpty([v])
    ensures FirstNonEmpty([FirstNonEmpty([v])] + rest) == FirstNonEmpty([v] + rest)
  {
    FirstNonEmptyStep(v, [""]);
    FirstNonEmptyStep(v, []);
    FirstNonEmptyStep("", []);
    FirstNonEmptyStep(v, rest);
    FirstNonEmptyStep(FirstNonEmpty([v]), rest);
    FirstNonEmptyStep(FirstNonEmpty([v]), [""]);
    assert [v] == [v] + [] && [""] == [""] + [] && [v, ""] == [v] + [""];
    assert [FirstNonEmpty([v]), ""] == [FirstNonEmpty([v])] + [""];
  }

  lemma StartInStep(start: M.In)
    requires start.Start?
    ensures var m := There.Step(There.INIT, start);
            && InStep(m, map[])
            && Returned(m).out == [StartOut(start)]
            && m.id == FirstNonEmpty([start.id]) && m.model == FirstNonEmpty([start.model])
            && m.usage == start.usage && m.stopReason == "" && m.stopSequence == Null
  {
    FirstNonEmptyTwice(start.id, []);
    FirstNonEmptyTwice(start.model, []);
    StartReturned(start);
    StartState(start);
    hide Returned, FirstNonEmpty, There.Step;
    var m := There.Step(There.INIT, start);
    assert m.blocks == map[] && Returned(m).blocks == map[];
  }

  lemma StartState(start: M.In)
    requires start.Start?
    ensures var m := There.Step(There.INIT, start);
            && m.created && m.itemAdded && m.blocks == map[]
            && m.id == FirstNonEmpty([start.id, ""]) && m.model == FirstNonEmpty([start.model, ""])
            && m.usage == start.usage && m.stopReason == "" && m.stopSequence == Null
  {
    hide FirstNonEmpty;
  }

  lemma StartReturned(start: M.In)
    requires start.Start?
    ensures var r := Returned(There.Step(There.INIT, start));
            r.out == [StartOut(start)] && r.started && r.blocks == map[]
  {
    hide Returned, FirstNonEmpty, There.Step, Back.Step;
    FirstNonEmptyTwice(start.id, []);
    FirstNonEmptyTwice(start.model, []);
    StartWrites(start);
    var m := There.Step(There.INIT, start);
    var created, added := m.out[0], m.out[1];
    var none := There.INIT;
    ReturnOne(none, created);
    ReturnOne(none.(out := [] + [created]), added);
    assert none.out + [created] == [] + [created] && m.out == [] + [created] + [added];
    ReturnedFromOut(m, none.(out := [] + [created] + [added]));
    NothingReturned();
    StartRead(created, added);
  }

  lemma NothingReturned()
    ensures Returned(There.INIT) == Back.INIT
  {
  }

  /** The second converter reads the two events that open a response. */
  lemma StartRead(created: R.Out, added: R.Out)
    requires created.OutCreated? && added.OutItemAdded?
    ensures var r := Back.Step(Back.Step(Back.INIT, R.Echo(created)), R.Echo(added));
            && r.started && r.blocks == map[]
            && r.out == [M.MessageStart(FirstNonEmpty([created.id, ""]), FirstNonEmpty([created.model, ""]),
                                        "assistant", created.usage)]
  {
    AssistantTwice();
    hide FirstNonEmpty;
  }

  lemma AssistantTwice()
    ensures FirstNonEmpty(["assistant", "assistant"]) == "assistant"
  {
    NotBlank("assistant");
  }

  lemma StartWrites(start: M.In)
    requires start.Start?
    ensures var out := There.Step(There.INIT, start).out;
            && |out| == 2 && out[1].OutItemAdded?
            && out[0] == R.OutCreated(FirstNonEmpty([start.id, ""]), FirstNonEmpty([start.model, ""]), start.usage)
  {
    hide FirstNonEmpty;
  }

  lemma CompletedRead(r: Back.State, e: R.In)
    requires e.Completed? && r.started && forall i :: !BlockAt(r.blocks, i).open
    ensures Back.Step(r, e).out
         == r.out + [M.MessageDelta(FirstNonEmpty([e.stopReason, "end_turn"]), e.stopSequence, e.usage),
                     M.MessageStop]
  {
    var t := Back.TakeCompleted(r, e.id, e.model, e.usage);
    assert t.out == r.out && t.blocks == r.blocks;
    NothingToClose(t, Sorted(t.blocks.Keys));
  }

  lemma ItemDoneIsSkipped(r: Back.State, item: R.Item)
    ensures Back.Step(r, R.Echo(R.OutItemDone(item))) == r
  {
  }

  lemma CompletedInStep(m: There.State)
    requires Returned(m).started && forall i :: !BlockAt(Returned(m).blocks, i).open
    ensures Returned(There.Finish(m)).out
         == Returned(m).out + [M.MessageDelta(FirstNonEmpty([m.stopReason, "end_turn"]), m.stopSequence, m.usage),
                               M.MessageStop]
  {
    hide There.BuildItem, Back.Step, Returned, FirstNonEmpty;
    var item := There.BuildItem(m);
    var d := R.OutItemDone(item);
    var e := R.OutCompleted(m.id, m.model, m.usage, m.stopReason, m.stopSequence, item);
    var mid := m.(out := m.out + [d]);
    ReturnOne(m, d);
    ReturnOne(mid, e);
    ItemDoneIsSkipped(Returned(m), item);
    assert Returned(mid) == Returned(m);
    CompletedRead(Returned(m), R.Echo(e));
    assert m.out + [d] + [e] == m.out + [d, e];
    assert There.Finish(m) == mid.(out := mid.out + [e]);
  }

  lemma {:induction false} NothingToClose(s: Back.State, indexes: seq<int>)
    requires forall i :: !BlockAt(s.blocks, i).open
    ensures Back.CloseBlocks(s, indexes) == s
    decreases indexes
  {
    if indexes != [] {
      NothingToClose(s, indexes[1..]);
    }
  }

  lemma EndInStep(m: There.State, st: Status, end: M.In)
    requires InStep(m, st) && end.Delta? && m.stopReason == "" && m.stopSequence == Null
    ensures Returned(There.Step(There.Step(m, end), M.Stop)).out
         == Returned(m).out + Ends(st, Sorted(st.Keys))
            + [M.MessageDelta(FirstNonEmpty([end.stopReason, "end_turn"]), end.stopSequence,
                              if end.usage.Some? then end.usage else m.usage),
               M.MessageStop]
  {
    StopReasonTwice(end.stopReason);
    EndDelta(m, st, end);
    EndRemembered(m, end);
    hide FirstNonEmpty, InStep, Returned, There.Finish, There.CloseBlocks, There.Opened, There.Step;
    var n := There.Step(m, end);
    var indexes := Sorted(st.Keys);
    EndsInStep(n, st, indexes);
    var c := There.CloseBlocks(n, indexes);
    CompletedInStep(c);
    StopFinishes(n, indexes);
  }

  lemma EndRemembered(m: There.State, end: M.In)
    requires end.Delta? && m.stopReason == ""
    ensures var n := There.Step(m, end);
            && n.stopReason == FirstNonEmpty([end.stopReason, ""]) && n.stopSequence == end.stopSequence
            && n.usage == if end.usage.Some? then end.usage else m.usage
  {
    hide FirstNonEmpty;
  }

  lemma StopFinishes(n: There.State, indexes: seq<int>)
    requires There.Opened(n) == n && indexes == Sorted(n.blocks.Keys)
    ensures There.Step(n, M.Stop) == There.Finish(There.CloseBlocks(n, indexes))
  {
    hide There.Opened, There.CloseBlocks, There.Finish;
  }

  lemma EndDelta(m: There.State, st: Status, end: M.In)
    requires InStep(m, st) && end.Delta?
    ensures var n := There.Step(m, end);
            InStep(n, st) && Returned(n) == Returned(m) && There.Opened(n) == n && n.blocks.Keys == st.Keys
  {
    hide FirstNonEmpty, Returned;
    ReturnedFromOut(There.Step(m, end), m);
  }

  lemma StopReasonTwice(v: string)
    ensures FirstNonEmpty([FirstNonEmpty([v, ""]), "end_turn"]) == FirstNonEmpty([v, "end_turn"])
  {
    FirstNonEmptyTwice(v, ["end_turn"]);
    assert [v] + ["end_turn"] == [v, "end_turn"];
    assert [FirstNonEmpty([v])] + ["end_turn"] == [FirstNonEmpty([v]), "end_turn"];
  }

  lemma MessageReturns(start: M.In, body: seq<M.In>, end: M.In)
    requires start.Start? && end.Delta? && forall e | e in body :: IsBody(e)
    ensures Returned(There.Run(There.INIT, Message(start, body, end))).out == Expected(start, body, end)
  {
    var m := There.Step(There.INIT, start);
    StartInStep(start);
    BodyInStep(m, map[], body);
    var n := There.Run(m, body);
    var after := StatusAfter(map[], body);
    EndInStep(n, after, end);
    hide There.Step, InStep, IsBody, Returned;
    There.RunAppend(There.INIT, [start] + body, [end, M.Stop]);
    There.RunAppend(There.INIT, [start], body);
    assert There.Run(There.INIT, [start]) == m;
    var last := [end, M.Stop];
    assert last[1..] == [M.Stop] && [M.Stop][1..] == [];
    assert There.Run(n, last) == There.Step(There.Step(n, end), M.Stop);
    Sse.Assoc([StartOut(start)], Repaired(map[], body), Ends(after, Sorted(after.Keys)));
  }

  // ----- events that are passed over -----

  function DropSkips(es: seq<M.In>): seq<M.In> {
    if es == [] then [] else (if es[0].Skip? then [] else [es[0]]) + DropSkips(es[1..])
  }

  lemma {:induction false} RunWithoutSkips(s: There.State, es: seq<M.In>)
    ensures There.Run(s, es) == There.Run(s, DropSkips(es))
    decreases es
  {
    if es != [] {
      var rest := DropSkips(es[1..]);
      RunWithoutSkips(There.Step(s, es[0]), es[1..]);
      if es[0].Skip? {
        assert There.Step(s, es[0]) == s && DropSkips(es) == rest;
      } else {
        assert DropSkips(es)[1..] == rest;
      }
      hide There.Step;
    }
  }

  /** The round trip of a message with passed-over frames anywhere: everything that comes back is predicted. */
  lemma RoundTripExact(es: seq<M.In>, start: M.In, body: seq<M.In>, end: M.In)
    requires start.Start? && end.Delta? && forall e | e in body :: IsBody(e)
    requires DropSkips(es) == DropSkips(Message(start, body, end))
    ensures Returned(There.Run(There.INIT, es)).out == Expected(start, body, end)
  {
    hide Returned, There.Run, Expected, Message, IsBody;
    RunWithoutSkips(There.INIT, es);
    RunWithoutSkips(There.INIT, Message(start, body, end));
    MessageReturns(start, body, end);
  }

  // ----- when the stream that comes back is the one that was sent -----

  /** The same events written out again; frames that were passed over are gone. */
  function Same(body: seq<M.In>): seq<M.Out>
    decreases body
  {
    if body == [] then [] else SameOne(body[0]) + Same(body[1..])
  }

  function SameOne(e: M.In): seq<M.Out> {
    match e
    case TextStart(index) => [M.BlockStart(index)]
    case TextDelta(index, text) => [M.BlockDelta(index, text)]
    case BlockStop(index) => [M.BlockEnd(index)]
    case _ => []
  }

  /** The event may come next: a block starts once, and is used and stopped while it is open. */
  predicate Fits(st: Status, e: M.In) {
    match e
    case TextStart(index) => index !in st
    case TextDelta(index, _) => index in st
    case BlockStop(index) => index in st && st[index]
    case _ => true
  }

  /** Every block is started once, before it is used, stopped once, and stopped by the end. */
  predicate Bracketed(st: Status, body: seq<M.In>)
    decreases body
  {
    if body == [] then forall index | index in st :: !st[index]
    else Fits(st, body[0]) && Bracketed(NextStatus(st, body[0]), body[1..])
  }

  lemma {:induction false} EndsMeaning(st: Status, indexes: seq<int>)
    ensures forall e | e in Ends(st, indexes) :: e.BlockEnd? && e.index in st && st[e.index]
    ensures Ends(st, indexes) == [] <==> forall i | i in indexes && i in st :: !st[i]
  {
    if indexes != [] {
      EndsMeaning(st, indexes[1..]);
      assert forall i :: i in indexes <==> i == indexes[0] || i in indexes[1..];
    }
  }

  lemma {:induction false} StatusGrows(st: Status, body: seq<M.In>, index: int)
    requires index in st
    ensures index in StatusAfter(st, body)
    ensures !st[index] ==> !StatusAfter(st, body)[index]
    decreases body
  {
    if body != [] {
      StatusGrows(NextStatus(st, body[0]), body[1..], index);
    }
  }

  /** A started block is not started again, and a stopped one is not stopped again. */
  lemma {:induction false} NeverAgain(st: Status, body: seq<M.In>, index: int)
    requires index in st
    ensures M.BlockStart(index) !in Repaired(st, body)
    ensures !st[index] ==> M.BlockEnd(index) !in Repaired(st, body)
    decreases body
  {
    if body != [] {
      EmittedKeeps(st, body[0], index);
      hide Emitted, NextStatus;
      NeverAgain(NextStatus(st, body[0]), body[1..], index);
    }
  }

  lemma EmittedKeeps(st: Status, e: M.In, index: int)
    requires index in st
    ensures M.BlockStart(index) !in Emitted(st, e) && index in NextStatus(st, e)
    ensures !st[index] ==> M.BlockEnd(index) !in Emitted(st, e) && !NextStatus(st, e)[index]
  {
  }

  lemma NeverAgainToEnd(st: Status, body: seq<M.In>, index: int)
    requires index in st
    ensures M.BlockStart(index) !in RepairedToEnd(st, body)
    ensures !st[index] ==> M.BlockEnd(index) !in RepairedToEnd(st, body)
  {
    NeverAgain(st, body, index);
    StatusGrows(st, body, index);
    var after := StatusAfter(st, body);
    EndsMeaning(after, Sorted(after.Keys));
  }

  lemma RepairedStep(st: Status, body: seq<M.In>)
    requires body != []
    ensures RepairedToEnd(st, body) == Emitted(st, body[0]) + RepairedToEnd(NextStatus(st, body[0]), body[1..])
  {
    var after := StatusAfter(st, body);
    Sse.Assoc(Emitted(st, body[0]), Repaired(NextStatus(st, body[0]), body[1..]), Ends(after, Sorted(after.Keys)));
  }

  lemma FittingHead(st: Status, e: M.In)
    requires IsBody(e) && Fits(st, e)
    ensures Emitted(st, e) == SameOne(e)
  {
  }

  /** An event out of place changes the output from that event on. */
  lemma MisfitHead(st: Status, e: M.In, rest: seq<M.In>)
    requires IsBody(e) && !Fits(st, e)
    ensures Emitted(st, e) + RepairedToEnd(NextStatus(st, e), rest) != SameOne(e) + Same(rest)
  {
    hide RepairedToEnd, Same;
    var next := NextStatus(st, e);
    if e.index in st {
      NeverAgainToEnd(next, rest, e.index);
      assert SameOne(e)[0] in SameOne(e) + Same(rest);
      assert Emitted(st, e) + RepairedToEnd(next, rest) == RepairedToEnd(next, rest);
    } else {
      assert (Emitted(st, e) + RepairedToEnd(next, rest))[0] == M.BlockStart(e.index);
      assert (SameOne(e) + Same(rest))[0] != M.BlockStart(e.index);
    }
  }

  /** The repaired events are the ones sent just when the blocks are properly bracketed. */
  lemma {:induction false} RepairedIsSame(st: Status, body: seq<M.In>)
    requires forall e | e in body :: IsBody(e)
    ensures RepairedToEnd(st, body) == Same(body) <==> Bracketed(st, body)
    decreases body
  {
    if body == [] {
      EndsMeaning(st, Sorted(st.Keys));
    } else {
      hide RepairedToEnd, Emitted, NextStatus, SameOne, Fits, IsBody;
      var e, next, rest := body[0], NextStatus(st, body[0]), body[1..];
      assert e in body && forall x | x in rest :: x in body;
      RepairedIsSame(next, rest);
      RepairedStep(st, body);
      if Fits(st, e) {
        FittingHead(st, e);
        SameHead(SameOne(e), RepairedToEnd(next, rest), Same(rest));
      } else {
        MisfitHead(st, e, rest);
      }
    }
  }

  lemma SameHead<T>(head: seq<T>, a: seq<T>, b: seq<T>)
    ensures head + a == head + b <==> a == b
  {
    assert (head + a)[|head|..] == a && (head + b)[|head|..] == b;
  }

  /** The message that was sent, with its passed-over frames gone and a missing final usage defaulting
      to the usage of the start. */
  function Sent(start: M.In, body: seq<M.In>, end: M.In): seq<M.Out>
    requires start.Start? && end.Delta?
  {
    [M.MessageStart(start.id, start.model, start.role, start.usage)] + Same(body)
    + [M.MessageDelta(end.stopReason, end.stopSequence, if end.usage.Some? then end.usage else start.usage),
       M.MessageStop]
  }

  /** A value that survives `firstNonEmpty`. */
  predicate Kept(v: string) {
    v == "" || !Blank(v)
  }

  lemma KeptMeaning(v: string)
    ensures FirstNonEmpty([v]) == v <==> Kept(v)
    ensures FirstNonEmpty([v, "end_turn"]) == v <==> !Blank(v)
  {
    FirstNonEmptyStep(v, []);
    FirstNonEmptyStep(v, ["end_turn"]);
    FirstNonEmptyStep("end_turn", []);
    NotBlank("end_turn");
    assert [v] == [v] + [] && [v, "end_turn"] == [v] + ["end_turn"] && ["end_turn"] == ["end_turn"] + [];
  }

  /** The round trip is the identity exactly for assistant messages with non-blank (or absent) id and
      model, a non-blank stop reason and properly bracketed blocks. */
  lemma RoundTripIdentityIff(es: seq<M.In>, start: M.In, body: seq<M.In>, end: M.In)
    requires start.Start? && end.Delta? && forall e | e in body :: IsBody(e)
    requires DropSkips(es) == DropSkips(Message(start, body, end))
    ensures Returned(There.Run(There.INIT, es)).out == Sent(start, body, end)
       <==> && start.role == "assistant" && Kept(start.id) && Kept(start.model)
            && !Blank(end.stopReason) && Bracketed(map[], body)
  {
    RoundTripExact(es, start, body, end);
    RepairedIsSame(map[], body);
    KeptMeaning(start.id);
    KeptMeaning(start.model);
    KeptMeaning(end.stopReason);
    hide Returned, There.Run, RepairedToEnd, Same, FirstNonEmpty, Blank, Kept, Bracketed;
    var a := RepairedToEnd(map[], body);
    SplitMessage(StartOut(start), a, EndOut(start, end),
                 M.MessageStart(start.id, start.model, start.role, start.usage), Same(body),
                 M.MessageDelta(end.stopReason, end.stopSequence,
                                if end.usage.Some? then end.usage else start.usage));
  }

  lemma SplitMessage(s: M.Out, a: seq<M.Out>, e: M.Out, t: M.Out, b: seq<M.Out>, f: M.Out)
    ensures [s] + a + [e, M.MessageStop] == [t] + b + [f, M.MessageStop] <==> s == t && a == b && e == f
  {
    var x, y := [s] + a + [e, M.MessageStop], [t] + b + [f, M.MessageStop];
    if x == y {
      assert x[0] == s && y[0] == t;
      assert x[|x| - 2] == e && y[|y| - 2] == f;
      assert x[1..|x| - 2] == a && y[1..|y| - 2] == b;
    }
  }

  // ----- frames and text -----

  /** The exact round trip of any frames that read as a message. */
  lemma FramesRoundTrip(frames: seq<Frame>, start: M.In, body: seq<M.In>, end: M.In)
    requires start.Start? && end.Delta? && forall e | e in body :: IsBody(e)
    requires M.ReadAll(frames).Ok? && DropSkips(M.ReadAll(frames).value) == DropSkips(Message(start, body, end))
    ensures There.Convert(frames).Ok?
    ensures Back.Convert(There.Convert(frames).value) == Ok(M.WriteAll(Expected(start, body, end)))
  {
    var es := M.ReadAll(frames).value;
    RoundTripExact(es, start, body, end);
    R.ReadWriteAll(There.Run(There.INIT, es).out);
  }

  /** The exact round trip of event-stream text that reads as a message. */
  lemma TextRoundTripExact(c: Codec, text: string, start: M.In, body: seq<M.In>, end: M.In)
    requires Lawful(c)
    requires start.Start? && end.Delta? && forall e | e in body :: IsBody(e)
    requires M.ReadAll(ReadFrames(c, Sse.Parse(text))).Ok?
    requires DropSkips(M.ReadAll(ReadFrames(c, Sse.Parse(text))).value) == DropSkips(Message(start, body, end))
    ensures There.ConvertText(c, text).Ok?
    ensures Back.ConvertText(c, There.ConvertText(c, text).value) == Ok(M.Printed(c, Expected(start, body, end)))
  {
    var es := M.ReadAll(ReadFrames(c, Sse.Parse(text))).value;
    RoundTripExact(es, start, body, end);
    var out := There.Run(There.INIT, es).out;
    R.ReadWriteAll(out);
    TextRoundTrip(c, R.WriteAll(out));
  }

  // ----- streams in the form the API documents -----

  /** The events of a text block; deltas are not empty. */
  predicate IsBodyOut(e: M.Out) {
    e.BlockStart? || (e.BlockDelta? && e.text != "") || e.BlockEnd?
  }

  /** Frames a stream may hold anywhere: pings, whatever they carry, and frames without data or with the end marker. */
  predicate IsFiller(f: Frame) {
    IsPing(f.name) || f.data == Nothing
  }

  function WithoutFillers(frames: seq<Frame>): seq<Frame> {
    if frames == [] then [] else (if IsFiller(frames[0]) then [] else [frames[0]]) + WithoutFillers(frames[1..])
  }

  /** Fillers are passed over wherever they stand. */
  lemma {:induction false} FillersAreSkipped(frames: seq<Frame>)
    requires M.ReadAll(WithoutFillers(frames)).Ok?
    ensures M.ReadAll(frames).Ok?
    ensures DropSkips(M.ReadAll(frames).value) == DropSkips(M.ReadAll(WithoutFillers(frames)).value)
  {
    if frames != [] {
      var f, rest := frames[0], frames[1..];
      ReadFiller(f);
      hide M.Read, IsFiller;
      if IsFiller(f) {
        assert WithoutFillers(frames) == WithoutFillers(rest);
        FillersAreSkipped(rest);
      } else {
        assert WithoutFillers(frames)[0] == f && WithoutFillers(frames)[1..] == WithoutFillers(rest);
        FillersAreSkipped(rest);
      }
    }
  }

  lemma ReadFiller(f: Frame)
    ensures IsFiller(f) ==> M.Read(f) == Ok(M.Skip)
  {
  }

  lemma {:induction false} EchoBody(body: seq<M.Out>)
    requires forall e | e in body :: IsBodyOut(e)
    ensures forall e | e in M.EchoAll(body) :: IsBody(e)
    ensures Same(M.EchoAll(body)) == body
  {
    hide M.Echo, SameOne, IsBody, IsBodyOut;
    if body != [] {
      assert body[0] in body && forall e | e in body[1..] :: e in body;
      EchoBody(body[1..]);
      EchoOne(body[0]);
      var all := M.EchoAll(body);
      assert all[0] == M.Echo(body[0]) && all[1..] == M.EchoAll(body[1..]);
      assert body == [body[0]] + body[1..];
      assert forall e :: e in all <==> e == all[0] || e in all[1..];
    }
  }

  lemma EchoOne(e: M.Out)
    requires IsBodyOut(e)
    ensures IsBody(M.Echo(e)) && SameOne(M.Echo(e)) == [e]
  {
  }

  lemma {:induction false} EchoAllConcat(a: seq<M.Out>, b: seq<M.Out>)
    ensures M.EchoAll(a + b) == M.EchoAll(a) + M.EchoAll(b)
  {
    if a == [] {
      assert a + b == b;
    } else {
      assert (a + b)[1..] == a[1..] + b;
      EchoAllConcat(a[1..], b);
    }
  }

  lemma EchoMessage(start: M.Out, body: seq<M.Out>, end: M.Out)
    ensures M.EchoAll([start] + body + [end, M.MessageStop])
         == Message(M.Echo(start), M.EchoAll(body), M.Echo(end))
  {
    EchoAllConcat([start] + body, [end, M.MessageStop]);
    EchoAllConcat([start], body);
    var last := [end, M.MessageStop];
    assert last[1..] == [M.MessageStop] && [M.MessageStop][1..] == [] && [start][1..] == [];
    hide M.Echo;
    assert M.EchoAll([start]) == [M.Echo(start)];
    assert M.EchoAll(last) == [M.Echo(end)] + ([M.Echo(M.MessageStop)] + []);
  }

  /** The documented round trip: a complete, properly bracketed assistant text stream, with pings and end markers
      anywhere, returns unchanged without them and with its start usage where the end has none. */
  lemma DocumentedRoundTrip(frames: seq<Frame>, id: string, model: string, startUsage: Option<Fields>,
                            body: seq<M.Out>, stopReason: string, stopSequence: Json, endUsage: Option<Fields>)
    requires !Blank(id) && !Blank(model) && !Blank(stopReason)
    requires (forall e | e in body :: IsBodyOut(e)) && Bracketed(map[], M.EchoAll(body))
    requires WithoutFillers(frames)
          == M.WriteAll([M.MessageStart(id, model, "assistant", startUsage)] + body
                        + [M.MessageDelta(stopReason, stopSequence, endUsage), M.MessageStop])
    ensures There.Convert(frames).Ok?
    ensures Back.Convert(There.Convert(frames).value)
         == Ok(M.WriteAll([M.MessageStart(id, model, "assistant", startUsage)] + body
                          + [M.MessageDelta(stopReason, stopSequence, if endUsage.Some? then endUsage else startUsage),
                             M.MessageStop]))
  {
    var start := M.MessageStart(id, model, "assistant", startUsage);
    var end := M.MessageDelta(stopReason, stopSequence, endUsage);
    var sent := [start] + body + [end, M.MessageStop];
    hide M.ReadAll, M.WriteAll, M.EchoAll, There.Convert, Back.Convert, Expected, Bracketed, IsBody, IsBodyOut, Blank,
         Same, DropSkips, WithoutFillers, Message;
    M.ReadWriteAll(sent);
    EchoMessage(start, body, end);
    EchoBody(body);
    FillersAreSkipped(frames);
    FramesRoundTrip(frames, M.Echo(start), M.EchoAll(body), M.Echo(end));
    ExpectedIsSent(M.Echo(start), M.EchoAll(body), M.Echo(end));
  }

  lemma ExpectedIsSent(start: M.In, body: seq<M.In>, end: M.In)
    requires start.Start? && end.Delta? && forall e | e in body :: IsBody(e)
    requires start.role == "assistant" && !Blank(start.id) && !Blank(start.model) && !Blank(end.stopReason)
    requires Bracketed(map[], body)
    ensures Expected(start, body, end) == Sent(start, body, end)
  {
    hide Expected, Sent, Returned, There.Run, Message, Blank, Bracketed;
    MessageReturns(start, body, end);
    RoundTripIdentityIff(Message(start, body, end), start, body, end);
  }

  /** A tool_use block is not carried over: its start and deltas are passed over, and its stop comes
      back as an empty text block. */
  lemma ToolBlockBecomesEmptyText(index: int)
    ensures RepairedToEnd(map[], [M.Skip, M.BlockStop(index)]) == [M.BlockStart(index), M.BlockEnd(index)]
  {
    hide RepairedToEnd;
    var body := [M.Skip, M.BlockStop(index)];
    assert body[1..] == [M.BlockStop(index)];
    RepairedStep(map[], body);
    StopAlone(index);
    assert Emitted(map[], M.Skip) == [] && NextStatus(map[], M.Skip) == map[];
  }

  lemma StopAlone(index: int)
    ensures RepairedToEnd(map[], [M.BlockStop(index)]) == [M.BlockStart(index), M.BlockEnd(index)]
  {
    hide RepairedToEnd, Emitted, NextStatus;
    var tail := [M.BlockStop(index)];
    assert tail[1..] == [] && tail[0] == M.BlockStop(index);
    RepairedStep(map[], tail);
    StopEmits(index);
    NothingLeft(index);
  }

  lemma StopEmits(index: int)
    ensures Emitted(map[], M.BlockStop(index)) == [M.BlockStart(index), M.BlockEnd(index)]
    ensures NextStatus(map[], M.BlockStop(index)) == map[index := false]
  {
    assert BeginStatus(map[], index) == map[index := true];
  }

  lemma NothingLeft(index: int)
    ensures RepairedToEnd(map[index := false], []) == []
  {
    var st: Status := map[index := false];
    EndsMeaning(st, Sorted(st.Keys));
  }
}
