/** The events of an Anthropic Messages stream: how the gateway reads them and how it writes them. */
module MessagesEvents {
  import opened Text
  import opened Json
  import opened Frames
  import Sse

  const UPSTREAM_ERROR := "upstream streaming error"

  /** What one frame tells the converter; `Skip` stands for every frame it passes over. */
  datatype In =
    | Skip
    | Start(id: string, model: string, role: string, usage: Option<Fields>)
    | TextStart(index: int)
    | TextDelta(index: int, text: string)
    | BlockStop(index: int)
    | Delta(stopReason: string, stopSequence: Json, usage: Option<Fields>)
    | Stop
    | Failure(message: string, code: string)

  /** The event types the gateway knows. */
  datatype Tag = StartTag | BlockStartTag | BlockDeltaTag | BlockStopTag | DeltaTag | StopTag | ErrorTag | PingTag

  function NameOf(tag: Tag): string {
    match tag
    case StartTag => "message_start"
    case BlockStartTag => "content_block_start"
    case BlockDeltaTag => "content_block_delta"
    case BlockStopTag => "content_block_stop"
    case DeltaTag => "message_delta"
    case StopTag => "message_stop"
    case ErrorTag => "error"
    case PingTag => "ping"
  }

  function TagOf(kind: string): Option<Tag> {
    if kind == "message_start" then Some(StartTag)
    else if kind == "content_block_start" then Some(BlockStartTag)
    else if kind == "content_block_delta" then Some(BlockDeltaTag)
    else if kind == "content_block_stop" then Some(BlockStopTag)
    else if kind == "message_delta" then Some(DeltaTag)
    else if kind == "message_stop" then Some(StopTag)
    else if kind == "error" then Some(ErrorTag)
    else None
  }

  function Read(f: Frame): Result<In> {
    if IsPing(f.name) then Ok(Skip) else
      match f.data
      case Nothing => Ok(Skip)
      case Malformed => Err("invalid JSON data")
      case Doc(p) =>
        var tag := TagOf(Kind(f));
        Ok(if tag.Some? then ReadDoc(tag.value, p) else Skip)
  }

  function ReadDoc(tag: Tag, p: Fields): In {
    var index := IntValue(Get(p, "index"));
    var delta := AsObject(Get(p, "delta"));
    match tag
    case StartTag =>
      var message := AsObject(Get(p, "message"));
      Start(AsString(Get(message, "id")), AsString(Get(message, "model")), AsString(Get(message, "role")),
            UsageOf(Get(message, "usage")))
    case BlockStartTag =>
      var block := AsObject(Get(p, "content_block"));
      if TrimSpace(AsString(Get(block, "type"))) == "text" then TextStart(index) else Skip
    case BlockDeltaTag =>
      var text := AsString(Get(delta, "text"));
      if TrimSpace(AsString(Get(delta, "type"))) == "text_delta" && text != "" then TextDelta(index, text) else Skip
    case BlockStopTag => BlockStop(index)
    case DeltaTag =>
      Delta(AsString(Get(delta, "stop_reason")), Get(delta, "stop_sequence"), UsageOf(Get(p, "usage")))
    case StopTag => Stop
    case ErrorTag =>
      var e := AsObject(Get(p, "error"));
      Failure(FirstNonEmpty([AsString(Get(e, "message")), AsString(Get(p, "message")), UPSTREAM_ERROR]),
              FirstNonEmpty([AsString(Get(e, "type")), AsString(Get(e, "code"))]))
    case PingTag => Skip
  }

  /** Reading stops at the first frame whose data is not JSON. */
  function ReadAll(frames: seq<Frame>): Result<seq<In>> {
    if frames == [] then Ok([]) else
      match Read(frames[0])
      case Err(m) => Err(m)
      case Ok(e) =>
        match ReadAll(frames[1..])
        case Err(m) => Err(m)
        case Ok(es) => Ok([e] + es)
  }

  lemma {:induction false} ReadAllConcat(a: seq<Frame>, b: seq<Frame>)
    ensures ReadAll(a + b) == if ReadAll(a).Err? then ReadAll(a)
                              else if ReadAll(b).Err? then ReadAll(b)
                              else Ok(ReadAll(a).value + ReadAll(b).value)
  {
    hide Read;
    if a == [] {
      assert a + b == b;
      assert ReadAll(b).Ok? ==> [] + ReadAll(b).value == ReadAll(b).value;
    } else {
      assert (a + b)[1..] == a[1..] + b && (a + b)[0] == a[0];
      ReadAllConcat(a[1..], b);
      if ReadAll(a).Ok? && ReadAll(b).Ok? {
        Sse.Assoc([Read(a[0]).value], ReadAll(a[1..]).value, ReadAll(b).value);
      }
    }
  }

  lemma ReadOne(f: Frame)
    ensures ReadAll([f]) == if Read(f).Err? then Err(Read(f).message) else Ok([Read(f).value])
  {
    hide Read;
    assert ReadAll([]) == Ok([]) && [f][1..] == [] && [f][0] == f;
    assert Read(f).Ok? ==> [Read(f).value] + [] == [Read(f).value];
  }

  /** Reading one more frame. */
  lemma ReadNext(frames: seq<Frame>, i: nat)
    requires i < |frames| && ReadAll(frames[..i]).Ok?
    ensures var e := Read(frames[i]);
            if e.Err? then ReadAll(frames) == Err(e.message)
            else ReadAll(frames[..i + 1]) == Ok(ReadAll(frames[..i]).value + [e.value])
  {
    hide Read;
    var f := frames[i];
    ReadOne(f);
    assert frames[..i + 1] == frames[..i] + [f];
    ReadAllConcat(frames[..i], [f]);
    assert frames == frames[..i + 1] + frames[i + 1..];
    ReadAllConcat(frames[..i + 1], frames[i + 1..]);
  }

  /** The events the gateway writes. An empty id or model is left out of `message_start`. */
  datatype Out =
    | Ping
    | MessageStart(id: string, model: string, role: string, usage: Option<Fields>)
    | BlockStart(index: int)
    | BlockDelta(index: int, text: string)
    | BlockEnd(index: int)
    | MessageDelta(stopReason: string, stopSequence: Json, usage: Option<Fields>)
    | MessageStop
    | Error(message: string)

  function Typed(kind: string): Fields {
    map["type" := Str(kind)]
  }

  function Tagged(tag: Tag, fields: Fields): Frame {
    Named(NameOf(tag), fields)
  }

  function StartMessage(id: string, model: string, role: string, usage: Option<Fields>): Fields {
    var base := Typed("message")
        ["role" := Str(role)]["content" := Arr([])]["stop_reason" := Null]["stop_sequence" := Null];
    WithUsage(WithText(WithText(base, "id", id), "model", model), usage)
  }

  function Write(e: Out): Frame {
    match e
    case Ping => Tagged(PingTag, map[])
    case MessageStart(id, model, role, usage) =>
      Tagged(StartTag, map["message" := Obj(StartMessage(id, model, role, usage))])
    case BlockStart(index) =>
      Tagged(BlockStartTag,
            map["index" := Int(index), "content_block" := Obj(Typed("text")["text" := Str("")])])
    case BlockDelta(index, text) =>
      Tagged(BlockDeltaTag,
            map["index" := Int(index), "delta" := Obj(Typed("text_delta")["text" := Str(text)])])
    case BlockEnd(index) => Tagged(BlockStopTag, map["index" := Int(index)])
    case MessageDelta(stopReason, stopSequence, usage) =>
      Tagged(DeltaTag,
            WithUsage(map["delta" := Obj(map["stop_reason" := Str(stopReason), "stop_sequence" := stopSequence])],
                      usage))
    case MessageStop => Tagged(StopTag, map[])
    case Error(message) =>
      Tagged(ErrorTag, map["error" := Obj(Typed("api_error")["message" := Str(message)])])
  }

  function WriteAll(es: seq<Out>): (frames: seq<Frame>)
    ensures |frames| == |es|
    ensures forall i | 0 <= i < |es| :: frames[i] == Write(es[i])
  {
    if es == [] then [] else [Write(es[0])] + WriteAll(es[1..])
  }

  /** How a written event reads back. */
  function Echo(e: Out): In {
    match e
    case Ping => Skip
    case MessageStart(id, model, role, usage) => Start(id, model, role, usage)
    case BlockStart(index) => TextStart(index)
    case BlockDelta(index, text) => if text == "" then Skip else TextDelta(index, text)
    case BlockEnd(index) => BlockStop(index)
    case MessageDelta(stopReason, stopSequence, usage) => Delta(stopReason, stopSequence, usage)
    case MessageStop => Stop
    case Error(message) => Failure(FirstNonEmpty([message, UPSTREAM_ERROR]), "api_error")
  }

  function EchoAll(es: seq<Out>): seq<In> {
    if es == [] then [] else [Echo(es[0])] + EchoAll(es[1..])
  }

  lemma NamesOfTags(tag: Tag)
    ensures var name := NameOf(tag); name != "" && !IsSpace(name[0]) && '\n' !in name && !Sse.EndsInCR(name)
    ensures tag != PingTag ==> !IsPing(NameOf(tag)) && TagOf(NameOf(tag)) == Some(tag)
    ensures IsPing(NameOf(PingTag))
  {
  }

  lemma ReadTagged(tag: Tag, fields: Fields)
    ensures PlainName(Tagged(tag, fields).name)
    ensures Read(Tagged(tag, fields)) == Ok(ReadDoc(tag, fields["type" := Str(NameOf(tag))]))
  {
    NamesOfTags(tag);
    NamedFrame(NameOf(tag), fields);
  }

  lemma ReadStart(id: string, model: string, role: string, usage: Option<Fields>)
    ensures Read(Write(MessageStart(id, model, role, usage))) == Ok(Start(id, model, role, usage))
  {
    hide Read, TagOf, NameOf, Tagged;
    var message := StartMessage(id, model, role, usage);
    assert AsString(Get(message, "id")) == id;
    assert AsString(Get(message, "model")) == model;
    assert AsString(Get(message, "role")) == role;
    assert UsageOf(Get(message, "usage")) == usage;
    ReadTagged(StartTag, map["message" := Obj(message)]);
  }

  lemma ReadBlockStart(index: int)
    ensures Read(Write(BlockStart(index))) == Ok(TextStart(index))
  {
    hide Read, TagOf, NameOf, Tagged;
    var block := Typed("text")["text" := Str("")];
    assert AsString(Get(block, "type")) == "text";
    ReadTagged(BlockStartTag, map["index" := Int(index), "content_block" := Obj(block)]);
  }

  lemma ReadBlockDelta(index: int, text: string)
    ensures Read(Write(BlockDelta(index, text))) == Ok(Echo(BlockDelta(index, text)))
  {
    hide Read, TagOf, NameOf, Tagged;
    var delta := Typed("text_delta")["text" := Str(text)];
    assert AsString(Get(delta, "type")) == "text_delta" && AsString(Get(delta, "text")) == text;
    ReadTagged(BlockDeltaTag, map["index" := Int(index), "delta" := Obj(delta)]);
  }

  lemma ReadMessageDelta(stopReason: string, stopSequence: Json, usage: Option<Fields>)
    ensures Read(Write(MessageDelta(stopReason, stopSequence, usage))) == Ok(Delta(stopReason, stopSequence, usage))
  {
    hide Read, TagOf, NameOf, Tagged;
    var delta := map["stop_reason" := Str(stopReason), "stop_sequence" := stopSequence];
    ReadTagged(DeltaTag, WithUsage(map["delta" := Obj(delta)], usage));
  }

  lemma ReadErrorMessages(message: string)
    ensures FirstNonEmpty([message, "", UPSTREAM_ERROR]) == FirstNonEmpty([message, UPSTREAM_ERROR])
    ensures FirstNonEmpty(["api_error", ""]) == "api_error"
  {
    NotBlank("api_error");
    FirstNonEmptyStep("api_error", [""]);
    FirstNonEmptyStep(message, ["", UPSTREAM_ERROR]);
    FirstNonEmptyStep("", [UPSTREAM_ERROR]);
    FirstNonEmptyStep(message, [UPSTREAM_ERROR]);
  }

  lemma ReadErrorFields(message: string, kind: Json)
    ensures ReadDoc(ErrorTag, map["error" := Obj(Typed("api_error")["message" := Str(message)])]["type" := kind])
         == Failure(FirstNonEmpty([message, "", UPSTREAM_ERROR]), FirstNonEmpty(["api_error", ""]))
  {
    hide FirstNonEmpty;
    var e := Typed("api_error")["message" := Str(message)];
    assert AsString(Get(e, "type")) == "api_error" && AsString(Get(e, "message")) == message;
    assert AsString(Get(e, "code")) == "";
    var p := map["error" := Obj(e)]["type" := kind];
    assert AsObject(Get(p, "error")) == e && AsString(Get(p, "message")) == "";
  }

  lemma ReadError(message: string)
    ensures Read(Write(Error(message))) == Ok(Echo(Error(message)))
  {
    hide Read, TagOf, NameOf, Tagged, ReadDoc, FirstNonEmpty, Typed;
    ReadErrorMessages(message);
    ReadErrorFields(message, Str(NameOf(ErrorTag)));
    ReadTagged(ErrorTag, map["error" := Obj(Typed("api_error")["message" := Str(message)])]);
  }

  lemma ReadBare(e: Out)
    requires e.Ping? || e.BlockEnd? || e.MessageStop?
    ensures Read(Write(e)) == Ok(Echo(e))
  {
    hide Read, TagOf, NameOf, Tagged;
    match e
    case Ping => ReadTagged(PingTag, map[]);
    case BlockEnd(index) => ReadTagged(BlockStopTag, map["index" := Int(index)]);
    case MessageStop => ReadTagged(StopTag, map[]);
  }

  /** Every event the gateway writes reads back as itself. */
  lemma ReadWrite(e: Out)
    ensures Read(Write(e)) == Ok(Echo(e))
  {
    hide Read, Write;
    match e
    case Ping => ReadBare(e);
    case MessageStart(id, model, role, usage) => ReadStart(id, model, role, usage);
    case BlockStart(index) => ReadBlockStart(index);
    case BlockDelta(index, text) => ReadBlockDelta(index, text);
    case BlockEnd(_) => ReadBare(e);
    case MessageDelta(stopReason, stopSequence, usage) => ReadMessageDelta(stopReason, stopSequence, usage);
    case MessageStop => ReadBare(e);
    case Error(message) => ReadError(message);
  }

  lemma WritePlain(e: Out)
    ensures Write(e).data.Doc? && PlainName(Write(e).name)
  {
    var tag :| Write(e).name == NameOf(tag);
    NamesOfTags(tag);
    NotBlank(NameOf(tag));
  }

  lemma {:induction false} ReadWriteAll(es: seq<Out>)
    ensures ReadAll(WriteAll(es)) == Ok(EchoAll(es))
    ensures forall f | f in WriteAll(es) :: f.data.Doc? && PlainName(f.name)
  {
    if es != [] {
      ReadWrite(es[0]);
      WritePlain(es[0]);
      ReadWriteAll(es[1..]);
    }
  }

  /** A list of written events as event-stream text. */
  function Printed(c: Codec, es: seq<Out>): string {
    ReadWriteAll(es);
    Sse.Print(WriteFrames(c, WriteAll(es)))
  }
}
