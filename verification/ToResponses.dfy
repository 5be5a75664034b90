/** `ConvertMessagesStreamToResponsesStream`: an Anthropic Messages stream becomes an OpenAI
    Responses stream with one output item. */
module ToResponses {
  import opened Text
  import opened Json
  import opened Frames
  import opened Blocks
  import M = MessagesEvents
  import R = ResponsesEvents
  import Sse

  /** The variables of the converter and the events written so far. */
  datatype State = State(
    id: string, itemId: string, model: string, role: string, usage: Option<Fields>, stopReason: string,
    stopSequence: Json, created: bool, itemAdded: bool, blocks: BlockMap, out: seq<R.Out>)

  const INIT := State("", "", "", "assistant", None, "", Null, false, false, map[], [])

  // ----- what the converter does, as functions -----

  function EnsureCreated(s: State): State {
    if s.created then s else s.(created := true, out := s.out + [R.OutCreated(s.id, s.model, s.usage)])
  }

  function EnsureItemAdded(s: State): State {
    if s.itemAdded then s else
      var itemId := if s.itemId == "" then s.id else s.itemId;
      s.(itemAdded := true, itemId := itemId,
         out := s.out + [R.OutItemAdded(itemId, FirstNonEmpty([s.role, "assistant"]))])
  }

  function Opened(s: State): State {
    EnsureItemAdded(EnsureCreated(s))
  }

  function EnsurePartAdded(s: State, index: int): State {
    var block := BlockAt(s.blocks, index);
    if block.started then s else
      s.(blocks := s.blocks[index := block.(started := true, open := true)],
         out := s.out + [R.OutPartAdded(s.itemId, index)])
  }

  function AddText(s: State, index: int, text: string): State {
    var block := BlockAt(s.blocks, index);
    s.(blocks := s.blocks[index := block.(text := block.text + text)],
       out := s.out + [R.OutDelta(s.itemId, index, text)])
  }

  function CloseBlock(s: State, index: int): State {
    var block := BlockAt(s.blocks, index);
    if !block.open then s else
      s.(blocks := s.blocks[index := block.(open := false)],
         out := s.out + [R.OutTextDone(s.itemId, index, block.text), R.OutPartDone(s.itemId, index, block.text)])
  }

  function CloseBlocks(s: State, indexes: seq<int>): State
    decreases indexes
  {
    if indexes == [] then s else CloseBlocks(CloseBlock(s, indexes[0]), indexes[1..])
  }

  lemma CloseFrom(s: State, indexes: seq<int>, i: nat)
    requires i <= |indexes|
    ensures indexes[0..] == indexes
    ensures CloseBlocks(s, indexes[i..])
         == if i == |indexes| then s else CloseBlocks(CloseBlock(s, indexes[i]), indexes[i + 1..])
  {
    if i < |indexes| {
      assert indexes[i..][1..] == indexes[i + 1..];
    }
  }

  function Texts(blocks: BlockMap, indexes: seq<int>): (texts: seq<string>)
    ensures |texts| == |indexes|
    ensures forall i | 0 <= i < |indexes| :: texts[i] == BlockAt(blocks, indexes[i]).text
  {
    if indexes == [] then [] else [BlockAt(blocks, indexes[0]).text] + Texts(blocks, indexes[1..])
  }

  ghost function BuildItem(s: State): R.Item {
    R.Item(s.itemId, FirstNonEmpty([s.role, "assistant"]), Texts(s.blocks, Sorted(s.blocks.Keys)))
  }

  ghost function Finish(s: State): State {
    var item := BuildItem(s);
    s.(out := s.out + [R.OutItemDone(item),
                       R.OutCompleted(s.id, s.model, s.usage, s.stopReason, s.stopSequence, item)])
  }

  function TakeStart(s: State, id: string, model: string, role: string, usage: Option<Fields>): State {
    var newId := FirstNonEmpty([id, s.id]);
    s.(id := newId, itemId := FirstNonEmpty([id, s.itemId, newId]), model := FirstNonEmpty([model, s.model]),
       role := FirstNonEmpty([role, s.role, "assistant"]), usage := usage)
  }

  ghost function Step(s: State, e: M.In): State {
    match e
    case Skip => s
    case Start(id, model, role, usage) => Opened(TakeStart(s, id, model, role, usage))
    case TextStart(index) => EnsurePartAdded(Opened(s), index)
    case TextDelta(index, text) => AddText(EnsurePartAdded(Opened(s), index), index, text)
    case BlockStop(index) => CloseBlock(EnsurePartAdded(Opened(s), index), index)
    case Delta(stopReason, stopSequence, usage) =>
      s.(stopReason := FirstNonEmpty([stopReason, s.stopReason]), stopSequence := stopSequence,
         usage := if usage.Some? then usage else s.usage)
    case Stop =>
      var o := Opened(s);
      Finish(CloseBlocks(o, Sorted(o.blocks.Keys)))
    case Failure(message, code) => s.(out := s.out + [R.OutError(message, code)])
  }

  ghost function Run(s: State, es: seq<M.In>): State
    decreases es
  {
    if es == [] then s else Run(Step(s, es[0]), es[1..])
  }

  /** The whole conversion on decoded frames: it fails when some frame is malformed. */
  ghost function Convert(frames: seq<Frame>): Result<seq<Frame>> {
    match M.ReadAll(frames)
    case Err(m) => Err(m)
    case Ok(es) => Ok(R.WriteAll(Run(INIT, es).out))
  }

  /** The conversion of event-stream text. */
  ghost function ConvertText(c: Codec, body: string): Result<string> {
    match M.ReadAll(ReadFrames(c, Sse.Parse(body)))
    case Err(m) => Err(m)
    case Ok(es) => Ok(R.Printed(c, Run(INIT, es).out))
  }

  // ----- the converter itself -----

  method CollectTexts(blocks: BlockMap, indexes: seq<int>) returns (content: seq<string>)
    ensures content == Texts(blocks, indexes)
  {
    content := [];
    for i := 0 to |indexes|
      invariant |content| == i
      invariant forall k | 0 <= k < i :: content[k] == BlockAt(blocks, indexes[k]).text
    {
      content := content + [BlockAt(blocks, indexes[i]).text];
    }
  }

  class Converter {
    var id: string
    var itemId: string
    var model: string
    var role: string
    var usage: Option<Fields>
    var stopReason: string
    var stopSequence: Json
    var created: bool
    var itemAdded: bool
    var blocks: BlockMap
    var out: seq<R.Out>

    ghost function View(): State
      reads this
    {
      State(id, itemId, model, role, usage, stopReason, stopSequence, created, itemAdded, blocks, out)
    }

    constructor ()
      ensures View() == INIT
    {
      id, itemId, model, role, stopReason := "", "", "", "assistant", "";
      usage, stopSequence, created, itemAdded, blocks, out := None, Null, false, false, map[], [];
    }

    method EnsureResponsesCreated()
      modifies this
      ensures View() == EnsureCreated(old(View()))
    {
      if created { return; }
      out := out + [R.OutCreated(id, model, usage)];
      created := true;
    }

    method EnsureResponsesOutputItemAdded()
      modifies this
      ensures View() == EnsureItemAdded(old(View()))
    {
      if itemAdded { return; }
      if itemId == "" {
        itemId := id;
      }
      out := out + [R.OutItemAdded(itemId, FirstNonEmpty([role, "assistant"]))];
      itemAdded := true;
    }

    method EnsureResponsesContentPartAdded(index: int)
      modifies this
      ensures View() == EnsurePartAdded(old(View()), index)
    {
      var block := BlockAt(blocks, index);
      if block.started { return; }
      out := out + [R.OutPartAdded(itemId, index)];
      blocks := blocks[index := block.(started := true, open := true)];
    }

    method CloseOne(index: int)
      modifies this
      ensures View() == CloseBlock(old(View()), index)
    {
      var block := BlockAt(blocks, index);
      if block.open {
        out := out + [R.OutTextDone(itemId, index, block.text), R.OutPartDone(itemId, index, block.text)];
        blocks := blocks[index := block.(open := false)];
      }
    }

    method CloseOpenResponsesBlocks()
      modifies this
      ensures View() == CloseBlocks(old(View()), Sorted(old(blocks).Keys))
    {
      hide CloseBlock, CloseBlocks;
      var indexes := OrderedIndexes(blocks);
      CloseFrom(View(), indexes, 0);
      for i := 0 to |indexes|
        invariant CloseBlocks(View(), indexes[i..]) == CloseBlocks(old(View()), indexes)
      {
        CloseFrom(View(), indexes, i);
        CloseOne(indexes[i]);
      }
      CloseFrom(View(), indexes, |indexes|);
    }

    method BuildResponsesOutputItem() returns (item: R.Item)
      ensures item == BuildItem(View())
    {
      var indexes := OrderedIndexes(blocks);
      var content := CollectTexts(blocks, indexes);
      item := R.Item(itemId, FirstNonEmpty([role, "assistant"]), content);
    }

    method Open()
      modifies this
      ensures View() == Opened(old(View()))
    {
      EnsureResponsesCreated();
      EnsureResponsesOutputItemAdded();
    }

    method MessageStart(newId: string, newModel: string, newRole: string, newUsage: Option<Fields>)
      modifies this
      ensures View() == Opened(TakeStart(old(View()), newId, newModel, newRole, newUsage))
    {
      id := FirstNonEmpty([newId, id]);
      itemId := FirstNonEmpty([newId, itemId, id]);
      model := FirstNonEmpty([newModel, model]);
      role := FirstNonEmpty([newRole, role, "assistant"]);
      usage := newUsage;
      assert View() == TakeStart(old(View()), newId, newModel, newRole, newUsage);
      Open();
    }

    method TextDelta(index: int, text: string)
      modifies this
      ensures View() == AddText(EnsurePartAdded(Opened(old(View())), index), index, text)
    {
      Open();
      EnsureResponsesContentPartAdded(index);
      var block := BlockAt(blocks, index);
      blocks := blocks[index := block.(text := block.text + text)];
      out := out + [R.OutDelta(itemId, index, text)];
    }

    method MessageStop()
      modifies this
      ensures View() == Step(old(View()), M.Stop)
    {
      Open();
      CloseOpenResponsesBlocks();
      var item := BuildResponsesOutputItem();
      out := out + [R.OutItemDone(item), R.OutCompleted(id, model, usage, stopReason, stopSequence, item)];
    }

    method Handle(e: M.In)
      modifies this
      ensures View() == Step(old(View()), e)
    {
      hide Opened, TakeStart, EnsurePartAdded, AddText, CloseBlock;
      match e
      case Skip =>
      case Start(newId, newModel, newRole, newUsage) => MessageStart(newId, newModel, newRole, newUsage);
      case TextStart(index) =>
        Open();
        EnsureResponsesContentPartAdded(index);
      case TextDelta(index, text) => TextDelta(index, text);
      case BlockStop(index) =>
        Open();
        EnsureResponsesContentPartAdded(index);
        CloseOne(index);
      case Delta(newReason, newSequence, newUsage) =>
        stopReason := FirstNonEmpty([newReason, stopReason]);
        stopSequence := newSequence;
        if newUsage.Some? {
          usage := newUsage;
        }
      case Stop => MessageStop();
      case Failure(message, code) => out := out + [R.OutError(message, code)];
    }
  }

  method ConvertFrames(frames: seq<Frame>) returns (r: Result<seq<Frame>>)
    ensures r == Convert(frames)
  {
    var converter := new Converter();
    ghost var es := [];
    for i := 0 to |frames|
      invariant M.ReadAll(frames[..i]) == Ok(es)
      invariant converter.View() == Run(INIT, es)
    {
      var e := M.Read(frames[i]);
      M.ReadNext(frames, i);
      if e.Err? {
        return Err(e.message);
      }
      converter.Handle(e.value);
      RunAppend(INIT, es, [e.value]);
      es := es + [e.value];
    }
    assert frames[..|frames|] == frames;
    r := Ok(R.WriteAll(converter.out));
  }

  method ConvertStream(c: Codec, body: string) returns (r: Result<string>)
    ensures r == ConvertText(c, body)
  {
    var events := Sse.ParseStream(body);
    var frames := ReadFrames(c, events);
    var converted := ConvertFrames(frames);
    match converted
    case Err(m) => r := Err(m);
    case Ok(written) =>
      ghost var es := M.ReadAll(frames).value;
      R.ReadWriteAll(Run(INIT, es).out);
      var text := Sse.MarshalStream(WriteFrames(c, written));
      r := Ok(text);
  }

  lemma {:induction false} RunAppend(s: State, a: seq<M.In>, b: seq<M.In>)
    ensures Run(s, a + b) == Run(Run(s, a), b)
    decreases a
  {
    if a == [] {
      assert a + b == b;
    } else {
      assert (a + b)[1..] == a[1..] + b;
      RunAppend(Step(s, a[0]), a[1..], b);
    }
  }
}
