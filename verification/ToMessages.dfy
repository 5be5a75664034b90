/** `ConvertResponsesStreamToMessagesStream`: an OpenAI Responses stream becomes an Anthropic
    Messages stream. Blocks are kept by `content_index` alone, as in the source. */
module ToMessages {
  import opened Text
  import opened Json
  import opened Frames
  import opened Blocks
  import M = MessagesEvents
  import R = ResponsesEvents
  import Sse

  /** The variables of the converter and the events written so far. */
  datatype State = State(
    id: string, model: string, role: string, startUsage: Option<Fields>, started: bool, blocks: BlockMap,
    out: seq<M.Out>)

  const INIT := State("", "", "assistant", None, false, map[], [])

  // ----- what the converter does, as functions -----

  function EnsureStarted(s: State): State {
    if s.started then s else
      s.(started := true,
         out := s.out + [M.MessageStart(s.id, s.model, FirstNonEmpty([s.role, "assistant"]), s.startUsage)])
  }

  function EnsureBlockStart(s: State, index: int): State {
    var block := BlockAt(s.blocks, index);
    if block.started then s else
      s.(blocks := s.blocks[index := block.(started := true, open := true)], out := s.out + [M.BlockStart(index)])
  }

  function AddText(s: State, index: int, text: string): State {
    var block := BlockAt(s.blocks, index);
    s.(blocks := s.blocks[index := block.(text := block.text + text)], out := s.out + [M.BlockDelta(index, text)])
  }

  /** The finished text replaces the collected one unless it is empty. */
  function SetText(s: State, index: int, text: string): State {
    var block := BlockAt(s.blocks, index);
    s.(blocks := s.blocks[index := if text != "" then block.(text := text) else block])
  }

  function CloseBlock(s: State, index: int): State {
    var block := BlockAt(s.blocks, index);
    if !block.open then s else
      s.(blocks := s.blocks[index := block.(open := false)], out := s.out + [M.BlockEnd(index)])
  }

  function CloseBlocks(s: State, indexes: seq<int>): State
    decreases indexes
  {
    if indexes == [] then s else CloseBlocks(CloseBlock(s, indexes[0]), indexes[1..])
  }

  function TakeIdentity(s: State, id: string, model: string): State {
    s.(id := FirstNonEmpty([id, s.id]), model := FirstNonEmpty([model, s.model]))
  }

  function Finish(s: State, usage: Option<Fields>, stopReason: string, stopSequence: Json): State {
    s.(out := s.out + [M.MessageDelta(FirstNonEmpty([stopReason, "end_turn"]), stopSequence, usage), M.MessageStop])
  }

  function Ready(s: State, index: int): State {
    EnsureBlockStart(EnsureStarted(s), index)
  }

  /** What `response.completed` does before it closes the open blocks. */
  function TakeCompleted(s: State, id: string, model: string, usage: Option<Fields>): State {
    var t := TakeIdentity(s, id, model);
    EnsureStarted(if usage.Some? then t.(startUsage := usage) else t)
  }

  ghost function Step(s: State, e: R.In): State {
    match e
    case Skip => s
    case Ping => s.(out := s.out + [M.Ping])
    case Created(id, model, usage) => EnsureStarted(TakeIdentity(s, id, model).(startUsage := usage))
    case ItemAdded(id, role) =>
      s.(role := FirstNonEmpty([role, s.role, "assistant"]), id := if s.id == "" then id else s.id)
    case PartAdded(index) => Ready(s, index)
    case TextDelta(index, text) => AddText(Ready(s, index), index, text)
    case TextDone(index, text) => SetText(s, index, text)
    case PartDone(index, text) => CloseBlock(SetText(s, index, text), index)
    case Completed(id, model, usage, stopReason, stopSequence) =>
      var t := TakeCompleted(s, id, model, usage);
      Finish(CloseBlocks(t, Sorted(t.blocks.Keys)), usage, stopReason, stopSequence)
    case Failure(message) => s.(out := s.out + [M.Error(message)])
  }

  ghost function Run(s: State, es: seq<R.In>): State
    decreases es
  {
    if es == [] then s else Run(Step(s, es[0]), es[1..])
  }

  /** The whole conversion on decoded frames: it fails when some frame is malformed. */
  ghost function Convert(frames: seq<Frame>): Result<seq<Frame>> {
    match R.ReadAll(frames)
    case Err(m) => Err(m)
    case Ok(es) => Ok(M.WriteAll(Run(INIT, es).out))
  }

  /** The conversion of event-stream text. */
  ghost function ConvertText(c: Codec, body: string): Result<string> {
    match R.ReadAll(ReadFrames(c, Sse.Parse(body)))
    case Err(m) => Err(m)
    case Ok(es) => Ok(M.Printed(c, Run(INIT, es).out))
  }

  // ----- the converter itself -----

  lemma CloseFrom(s: State, indexes: seq<int>, i: nat)
    requires i <= |indexes|
    ensures indexes[0..] == indexes
    ensures CloseBlocks(s, indexes[i..])
         == if i == |indexes| then s else CloseBlocks(CloseBlock(s, indexes[i]), indexes[i + 1..])
  {
    if i < |indexes| {
      assert indexes[i..][1..] == indexes[i + 1..];
    }
  }

  class Converter {
    var id: string
    var model: string
    var role: string
    var startUsage: Option<Fields>
    var started: bool
    var blocks: BlockMap
    var out: seq<M.Out>

    ghost function View(): State
      reads this
    {
      State(id, model, role, startUsage, started, blocks, out)
    }

    constructor ()
      ensures View() == INIT
    {
      id, model, role, startUsage, started, blocks, out := "", "", "assistant", None, false, map[], [];
    }

    method EnsureAnthropicMessageStart()
      modifies this
      ensures View() == EnsureStarted(old(View()))
    {
      if started { return; }
      out := out + [M.MessageStart(id, model, FirstNonEmpty([role, "assistant"]), startUsage)];
      started := true;
    }

    method EnsureAnthropicContentBlockStart(index: int)
      modifies this
      ensures View() == EnsureBlockStart(old(View()), index)
    {
      var block := BlockAt(blocks, index);
      if block.started { return; }
      out := out + [M.BlockStart(index)];
      blocks := blocks[index := block.(started := true, open := true)];
    }

    method CloseOne(index: int)
      modifies this
      ensures View() == CloseBlock(old(View()), index)
    {
      var block := BlockAt(blocks, index);
      if block.open {
        out := out + [M.BlockEnd(index)];
        blocks := blocks[index := block.(open := false)];
      }
    }

    method CloseOpenAnthropicBlocks()
      modifies this
      ensures View() == CloseBlocks(old(View()), Sorted(old(blocks).Keys))
    {
      hide CloseBlock, CloseBlocks;
      var indexes := OrderedIndexes(blocks);
      CloseFrom(View(), indexes, 0);
      for i := 0 to |indexes|
        invariant CloseBlocks(View(), indexes[i..]) == CloseBlocks(old(View()), indexes)
      {
        CloseFrom(View(), indexes, i);
        CloseOne(indexes[i]);
      }
      CloseFrom(View(), indexes, |indexes|);
    }

    method TextDelta(index: int, text: string)
      modifies this
      ensures View() == AddText(Ready(old(View()), index), index, text)
    {
      EnsureAnthropicMessageStart();
      EnsureAnthropicContentBlockStart(index);
      var block := BlockAt(blocks, index);
      blocks := blocks[index := block.(text := block.text + text)];
      out := out + [M.BlockDelta(index, text)];
    }

    method TextDone(index: int, text: string)
      modifies this
      ensures View() == SetText(old(View()), index, text)
    {
      var block := BlockAt(blocks, index);
      if text != "" {
        block := block.(text := text);
      }
      blocks := blocks[index := block];
    }

    method Created(newId: string, newModel: string, newUsage: Option<Fields>)
      modifies this
      ensures View() == Step(old(View()), R.Created(newId, newModel, newUsage))
    {
      id := FirstNonEmpty([newId, id]);
      model := FirstNonEmpty([newModel, model]);
      startUsage := newUsage;
      EnsureAnthropicMessageStart();
    }

    method BeginCompleted(newId: string, newModel: string, newUsage: Option<Fields>)
      modifies this
      ensures View() == TakeCompleted(old(View()), newId, newModel, newUsage)
    {
      id := FirstNonEmpty([newId, id]);
      model := FirstNonEmpty([newModel, model]);
      if newUsage.Some? {
        startUsage := newUsage;
      }
      EnsureAnthropicMessageStart();
    }

    method Completed(newId: string, newModel: string, newUsage: Option<Fields>, stopReason: string, stopSequence: Json)
      modifies this
      ensures View() == Step(old(View()), R.Completed(newId, newModel, newUsage, stopReason, stopSequence))
    {
      hide TakeCompleted, CloseBlocks;
      BeginCompleted(newId, newModel, newUsage);
      CloseOpenAnthropicBlocks();
      out := out + [M.MessageDelta(FirstNonEmpty([stopReason, "end_turn"]), stopSequence, newUsage), M.MessageStop];
    }

    method Handle(e: R.In)
      modifies this
      ensures View() == Step(old(View()), e)
    {
      hide EnsureStarted, EnsureBlockStart, AddText, SetText, CloseBlock, TakeCompleted, TakeIdentity, Finish;
      match e
      case Skip =>
      case Ping => out := out + [M.Ping];
      case Created(newId, newModel, usage) => Created(newId, newModel, usage);
      case ItemAdded(newId, newRole) =>
        role := FirstNonEmpty([newRole, role, "assistant"]);
        if id == "" {
          id := newId;
        }
      case PartAdded(index) =>
        EnsureAnthropicMessageStart();
        EnsureAnthropicContentBlockStart(index);
      case TextDelta(index, text) => TextDelta(index, text);
      case TextDone(index, text) => TextDone(index, text);
      case PartDone(index, text) =>
        TextDone(index, text);
        CloseOne(index);
      case Completed(newId, newModel, usage, stopReason, stopSequence) =>
        Completed(newId, newModel, usage, stopReason, stopSequence);
      case Failure(message) => out := out + [M.Error(message)];
    }
  }

  method ConvertFrames(frames: seq<Frame>) returns (r: Result<seq<Frame>>)
    ensures r == Convert(frames)
  {
    var converter := new Converter();
    ghost var es := [];
    for i := 0 to |frames|
      invariant R.ReadAll(frames[..i]) == Ok(es)
      invariant converter.View() == Run(INIT, es)
    {
      var e := R.Read(frames[i]);
      R.ReadNext(frames, i);
      if e.Err? {
        return Err(e.message);
      }
      converter.Handle(e.value);
      RunAppend(INIT, es, [e.value]);
      es := es + [e.value];
    }
    assert frames[..|frames|] == frames;
    r := Ok(M.WriteAll(converter.out));
  }

  method ConvertStream(c: Codec, body: string) returns (r: Result<string>)
    ensures r == ConvertText(c, body)
  {
    var events := Sse.ParseStream(body);
    var frames := ReadFrames(c, events);
    var converted := ConvertFrames(frames);
    match converted
    case Err(m) => r := Err(m);
    case Ok(written) =>
      ghost var es := R.ReadAll(frames).value;
      M.ReadWriteAll(Run(INIT, es).out);
      var text := Sse.MarshalStream(WriteFrames(c, written));
      r := Ok(text);
  }

  lemma {:induction false} RunAppend(s: State, a: seq<R.In>, b: seq<R.In>)
    ensures Run(s, a + b) == Run(Run(s, a), b)
    decreases a
  {
    if a == [] {
      assert a + b == b;
    } else {
      assert (a + b)[1..] == a[1..] + b;
      RunAppend(Step(s, a[0]), a[1..], b);
    }
  }
}
