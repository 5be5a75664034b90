/** The events of an OpenAI Responses stream: how the gateway reads them and how it writes them. */
module ResponsesEvents {
  import opened Text
  import opened Json
  import opened Frames
  import Sse

  const UPSTREAM_ERROR := "upstream streaming error"

  /** What one frame tells the converter; `Skip` stands for every frame it passes over. */
  datatype In =
    | Skip
    | Ping
    | Created(id: string, model: string, usage: Option<Fields>)
    | ItemAdded(id: string, role: string)
    | PartAdded(index: int)
    | TextDelta(index: int, text: string)
    | TextDone(index: int, text: string)
    | PartDone(index: int, text: string)
    | Completed(id: string, model: string, usage: Option<Fields>, stopReason: string, stopSequence: Json)
    | Failure(message: string)

  /** The event types the gateway knows. */
  datatype Tag =
    | CreatedTag | ItemAddedTag | PartAddedTag | DeltaTag | TextDoneTag | PartDoneTag | ItemDoneTag | CompletedTag
    | FailedTag | ErrorTag

  function NameOf(tag: Tag): string {
    match tag
    case CreatedTag => "response.created"
    case ItemAddedTag => "response.output_item.added"
    case PartAddedTag => "response.content_part.added"
    case DeltaTag => "response.output_text.delta"
    case TextDoneTag => "response.output_text.done"
    case PartDoneTag => "response.content_part.done"
    case ItemDoneTag => "response.output_item.done"
    case CompletedTag => "response.completed"
    case FailedTag => "response.failed"
    case ErrorTag => "error"
  }

  function TagOf(kind: string): Option<Tag> {
    if kind == "response.created" then Some(CreatedTag)
    else if kind == "response.output_item.added" then Some(ItemAddedTag)
    else if kind == "response.content_part.added" then Some(PartAddedTag)
    else if kind == "response.output_text.delta" then Some(DeltaTag)
    else if kind == "response.output_text.done" then Some(TextDoneTag)
    else if kind == "response.content_part.done" then Some(PartDoneTag)
    else if kind == "response.completed" then Some(CompletedTag)
    else if kind == "response.failed" then Some(FailedTag)
    else if kind == "error" then Some(ErrorTag)
    else None
  }

  function Read(f: Frame): Result<In> {
    if IsPing(f.name) then Ok(Ping) else
      match f.data
      case Nothing => Ok(Skip)
      case Malformed => Err("invalid JSON data")
      case Doc(p) =>
        var tag := TagOf(Kind(f));
        Ok(if tag.Some? then ReadDoc(tag.value, p) else Skip)
  }

  predicate IsTextPart(part: Fields) {
    var kind := TrimSpace(AsString(Get(part, "type")));
    kind == "output_text" || kind == "text"
  }

  function ReadDoc(tag: Tag, p: Fields): In {
    var response := AsObject(Get(p, "response"));
    var part := AsObject(Get(p, "part"));
    var index := IntValue(Get(p, "content_index"));
    match tag
    case CreatedTag =>
      Created(AsString(Get(response, "id")), AsString(Get(response, "model")), UsageOf(Get(response, "usage")))
    case ItemAddedTag =>
      var item := AsObject(Get(p, "item"));
      ItemAdded(AsString(Get(item, "id")), AsString(Get(item, "role")))
    case PartAddedTag => if IsTextPart(part) then PartAdded(index) else Skip
    case DeltaTag =>
      var delta := AsString(Get(p, "delta"));
      if delta == "" then Skip else TextDelta(index, delta)
    case TextDoneTag => TextDone(index, AsString(Get(p, "text")))
    case PartDoneTag => PartDone(index, if IsTextPart(part) then AsString(Get(part, "text")) else "")
    case ItemDoneTag => Skip
    case CompletedTag =>
      Completed(AsString(Get(response, "id")), AsString(Get(response, "model")), UsageOf(Get(response, "usage")),
                AsString(Get(response, "stop_reason")), Get(response, "stop_sequence"))
    case _ =>
      Failure(FirstNonEmpty([
        AsString(Get(AsObject(Get(p, "error")), "message")),
        AsString(Get(AsObject(Get(response, "error")), "message")),
        AsString(Get(p, "message")),
        UPSTREAM_ERROR]))
  }

  /** Reading stops at the first frame whose data is not JSON. */
  function ReadAll(frames: seq<Frame>): Result<seq<In>> {
    if frames == [] then Ok([]) else
      match Read(frames[0])
      case Err(m) => Err(m)
      case Ok(e) =>
        match ReadAll(frames[1..])
        case Err(m) => Err(m)
        case Ok(es) => Ok([e] + es)
  }

  lemma {:induction false} ReadAllConcat(a: seq<Frame>, b: seq<Frame>)
    ensures ReadAll(a + b) == if ReadAll(a).Err? then ReadAll(a)
                              else if ReadAll(b).Err? then ReadAll(b)
                              else Ok(ReadAll(a).value + ReadAll(b).value)
  {
    hide Read;
    if a == [] {
      assert a + b == b;
      assert ReadAll(b).Ok? ==> [] + ReadAll(b).value == ReadAll(b).value;
    } else {
      assert (a + b)[1..] == a[1..] + b && (a + b)[0] == a[0];
      ReadAllConcat(a[1..], b);
      if ReadAll(a).Ok? && ReadAll(b).Ok? {
        Sse.Assoc([Read(a[0]).value], ReadAll(a[1..]).value, ReadAll(b).value);
      }
    }
  }

  lemma ReadOne(f: Frame)
    ensures ReadAll([f]) == if Read(f).Err? then Err(Read(f).message) else Ok([Read(f).value])
  {
    hide Read;
    assert ReadAll([]) == Ok([]) && [f][1..] == [] && [f][0] == f;
    assert Read(f).Ok? ==> [Read(f).value] + [] == [Read(f).value];
  }

  /** Reading one more frame. */
  lemma ReadNext(frames: seq<Frame>, i: nat)
    requires i < |frames| && ReadAll(frames[..i]).Ok?
    ensures var e := Read(frames[i]);
            if e.Err? then ReadAll(frames) == Err(e.message)
            else ReadAll(frames[..i + 1]) == Ok(ReadAll(frames[..i]).value + [e.value])
  {
    hide Read;
    var f := frames[i];
    ReadOne(f);
    assert frames[..i + 1] == frames[..i] + [f];
    ReadAllConcat(frames[..i], [f]);
    assert frames == frames[..i + 1] + frames[i + 1..];
    ReadAllConcat(frames[..i + 1], frames[i + 1..]);
  }

  /** The single output item of a translated response, with the text of its parts in order. */
  datatype Item = Item(id: string, role: string, texts: seq<string>)

  /** The events the gateway writes. */
  datatype Out =
    | OutCreated(id: string, model: string, usage: Option<Fields>)
    | OutItemAdded(itemId: string, role: string)
    | OutPartAdded(itemId: string, index: int)
    | OutDelta(itemId: string, index: int, text: string)
    | OutTextDone(itemId: string, index: int, text: string)
    | OutPartDone(itemId: string, index: int, text: string)
    | OutItemDone(item: Item)
    | OutCompleted(id: string, model: string, usage: Option<Fields>, stopReason: string, stopSequence: Json, item: Item)
    | OutError(message: string, code: string)

  function Tagged(tag: Tag, fields: Fields): Frame {
    Named(NameOf(tag), fields)
  }

  function TextPart(text: string): Json {
    Obj(map["type" := Str("output_text"), "text" := Str(text), "annotations" := Arr([])])
  }

  function TextParts(texts: seq<string>): (parts: seq<Json>)
    ensures |parts| == |texts| && forall i | 0 <= i < |texts| :: parts[i] == TextPart(texts[i])
  {
    if texts == [] then [] else [TextPart(texts[0])] + TextParts(texts[1..])
  }

  function ItemJson(id: string, status: string, role: string, content: seq<Json>): Json {
    Obj(map["id" := Str(id), "status" := Str(status), "type" := Str("message"), "role" := Str(role),
            "content" := Arr(content)])
  }

  function DoneItem(item: Item): Json {
    ItemJson(item.id, "completed", item.role, TextParts(item.texts))
  }

  function ResponseJson(id: string, model: string, status: string, output: seq<Json>, usage: Option<Fields>): Fields {
    WithUsage(map["id" := Str(id), "object" := Str("response"), "model" := Str(model), "status" := Str(status),
                  "output" := Arr(output)], usage)
  }

  function CompletedResponse(id: string, model: string, usage: Option<Fields>, stopReason: string,
                             stopSequence: Json, item: Item): Fields
  {
    var base := WithText(ResponseJson(id, model, "completed", [DoneItem(item)], usage), "stop_reason", stopReason);
    if stopSequence == Null then base else base["stop_sequence" := stopSequence]
  }

  function OnPart(itemId: string, index: int): Fields {
    map["item_id" := Str(itemId), "output_index" := Int(0), "content_index" := Int(index)]
  }

  function Write(e: Out): Frame {
    match e
    case OutCreated(id, model, usage) =>
      Tagged(CreatedTag, map["response" := Obj(ResponseJson(id, model, "in_progress", [], usage))])
    case OutItemAdded(itemId, role) =>
      Tagged(ItemAddedTag,
            map["output_index" := Int(0), "item" := ItemJson(itemId, "in_progress", role, [])])
    case OutPartAdded(itemId, index) =>
      Tagged(PartAddedTag, OnPart(itemId, index)["part" := TextPart("")])
    case OutDelta(itemId, index, text) =>
      Tagged(DeltaTag, OnPart(itemId, index)["delta" := Str(text)])
    case OutTextDone(itemId, index, text) =>
      Tagged(TextDoneTag, OnPart(itemId, index)["text" := Str(text)])
    case OutPartDone(itemId, index, text) =>
      Tagged(PartDoneTag, OnPart(itemId, index)["part" := TextPart(text)])
    case OutItemDone(item) =>
      Tagged(ItemDoneTag, map["output_index" := Int(0), "item" := DoneItem(item)])
    case OutCompleted(id, model, usage, stopReason, stopSequence, item) =>
      Tagged(CompletedTag,
             map["response" := Obj(CompletedResponse(id, model, usage, stopReason, stopSequence, item))])
    case OutError(message, code) =>
      Tagged(ErrorTag, WithText(map["message" := Str(message)], "code", code))
  }

  function WriteAll(es: seq<Out>): (frames: seq<Frame>)
    ensures |frames| == |es|
    ensures forall i | 0 <= i < |es| :: frames[i] == Write(es[i])
  {
    if es == [] then [] else [Write(es[0])] + WriteAll(es[1..])
  }

  /** How a written event reads back. */
  function Echo(e: Out): In {
    match e
    case OutCreated(id, model, usage) => Created(id, model, usage)
    case OutItemAdded(itemId, role) => ItemAdded(itemId, role)
    case OutPartAdded(_, index) => PartAdded(index)
    case OutDelta(_, index, text) => if text == "" then Skip else TextDelta(index, text)
    case OutTextDone(_, index, text) => TextDone(index, text)
    case OutPartDone(_, index, text) => PartDone(index, text)
    case OutItemDone(_) => Skip
    case OutCompleted(id, model, usage, stopReason, stopSequence, _) =>
      Completed(id, model, usage, stopReason, stopSequence)
    case OutError(message, _) => Failure(FirstNonEmpty([message, UPSTREAM_ERROR]))
  }

  function EchoAll(es: seq<Out>): (r: seq<In>)
  {
    if es == [] then [] else [Echo(es[0])] + EchoAll(es[1..])
  }

  lemma NamesOfTags(tag: Tag)
    ensures var name := NameOf(tag); name != "" && !IsSpace(name[0]) && '\n' !in name && !Sse.EndsInCR(name)
    ensures !IsPing(NameOf(tag))
    ensures TagOf(NameOf(tag)) == if tag == ItemDoneTag then None else Some(tag)
  {
    TagOfName(tag);
    hide TagOf;
  }

  lemma TagOfName(tag: Tag)
    ensures TagOf(NameOf(tag)) == if tag == ItemDoneTag then None else Some(tag)
  {
  }

  lemma ReadTagged(tag: Tag, fields: Fields)
    ensures PlainName(Tagged(tag, fields).name)
    ensures Read(Tagged(tag, fields)) == Ok(ReadDoc(tag, fields["type" := Str(NameOf(tag))]))
  {
    NamesOfTags(tag);
    NamedFrame(NameOf(tag), fields);
  }

  lemma ReadCreated(id: string, model: string, usage: Option<Fields>)
    ensures Read(Write(OutCreated(id, model, usage))) == Ok(Created(id, model, usage))
  {
    hide Read, TagOf, NameOf, Tagged;
    var response := ResponseJson(id, model, "in_progress", [], usage);
    assert AsString(Get(response, "id")) == id;
    assert AsString(Get(response, "model")) == model;
    assert UsageOf(Get(response, "usage")) == usage;
    ReadTagged(CreatedTag, map["response" := Obj(response)]);
  }

  lemma ReadItemAdded(itemId: string, role: string)
    ensures Read(Write(OutItemAdded(itemId, role))) == Ok(ItemAdded(itemId, role))
  {
    hide Read, TagOf, NameOf, Tagged;
    var item := ItemJson(itemId, "in_progress", role, []);
    assert AsString(Get(item.fields, "id")) == itemId && AsString(Get(item.fields, "role")) == role;
    ReadTagged(ItemAddedTag, map["output_index" := Int(0), "item" := item]);
  }

  lemma ReadTextPart(text: string)
    ensures IsTextPart(TextPart(text).fields) && AsString(Get(TextPart(text).fields, "text")) == text
  {
    assert AsString(Get(TextPart(text).fields, "type")) == "output_text";
  }

  lemma ReadOnPart(itemId: string, index: int, key: string, value: Json, kind: Json)
    requires key in {"part", "delta", "text"}
    ensures var p := OnPart(itemId, index)[key := value]["type" := kind];
            Get(p, key) == value && IntValue(Get(p, "content_index")) == index
  {
  }

  lemma ReadPartAdded(itemId: string, index: int)
    ensures Read(Write(OutPartAdded(itemId, index))) == Ok(PartAdded(index))
  {
    hide Read, TagOf, NameOf, Tagged;
    ReadTextPart("");
    ReadOnPart(itemId, index, "part", TextPart(""), Str(NameOf(PartAddedTag)));
    hide IsTextPart, TextPart, OnPart;
    ReadTagged(PartAddedTag, OnPart(itemId, index)["part" := TextPart("")]);
  }

  lemma ReadPartDone(itemId: string, index: int, text: string)
    ensures Read(Write(OutPartDone(itemId, index, text))) == Ok(PartDone(index, text))
  {
    hide Read, TagOf, NameOf, Tagged;
    ReadTextPart(text);
    ReadOnPart(itemId, index, "part", TextPart(text), Str(NameOf(PartDoneTag)));
    hide IsTextPart, TextPart, OnPart;
    ReadTagged(PartDoneTag, OnPart(itemId, index)["part" := TextPart(text)]);
  }

  lemma ReadDelta(itemId: string, index: int, text: string)
    ensures Read(Write(OutDelta(itemId, index, text))) == Ok(Echo(OutDelta(itemId, index, text)))
  {
    hide Read, TagOf, NameOf, Tagged;
    ReadOnPart(itemId, index, "delta", Str(text), Str(NameOf(DeltaTag)));
    hide OnPart;
    ReadTagged(DeltaTag, OnPart(itemId, index)["delta" := Str(text)]);
  }

  lemma ReadTextDone(itemId: string, index: int, text: string)
    ensures Read(Write(OutTextDone(itemId, index, text))) == Ok(TextDone(index, text))
  {
    hide Read, TagOf, NameOf, Tagged;
    ReadOnPart(itemId, index, "text", Str(text), Str(NameOf(TextDoneTag)));
    hide OnPart;
    ReadTagged(TextDoneTag, OnPart(itemId, index)["text" := Str(text)]);
  }

  lemma ReadCompletedFields(id: string, model: string, usage: Option<Fields>, stopReason: string,
                            stopSequence: Json, item: Item)
    ensures var r := CompletedResponse(id, model, usage, stopReason, stopSequence, item);
            && AsString(Get(r, "id")) == id
            && AsString(Get(r, "model")) == model
            && UsageOf(Get(r, "usage")) == usage
            && AsString(Get(r, "stop_reason")) == stopReason
            && Get(r, "stop_sequence") == stopSequence
  {
  }

  lemma ReadCompleted(id: string, model: string, usage: Option<Fields>, stopReason: string, stopSequence: Json,
                      item: Item)
    ensures Read(Write(OutCompleted(id, model, usage, stopReason, stopSequence, item)))
         == Ok(Completed(id, model, usage, stopReason, stopSequence))
  {
    hide Read, TagOf, NameOf, Tagged;
    ReadCompletedFields(id, model, usage, stopReason, stopSequence, item);
    hide CompletedResponse;
    ReadTagged(CompletedTag,
               map["response" := Obj(CompletedResponse(id, model, usage, stopReason, stopSequence, item))]);
  }

  lemma ReadErrorFields(message: string, code: string)
    ensures var p := WithText(map["message" := Str(message)], "code", code)["type" := Str("error")];
            ReadDoc(ErrorTag, p) == Failure(FirstNonEmpty(["", "", message, UPSTREAM_ERROR]))
  {
    hide FirstNonEmpty;
    var p := WithText(map["message" := Str(message)], "code", code)["type" := Str("error")];
    assert AsString(Get(p, "message")) == message;
    assert AsObject(Get(p, "error")) == map[] && AsObject(Get(p, "response")) == map[];
  }

  lemma ErrorName()
    ensures NameOf(ErrorTag) == "error"
  {
  }

  lemma SkipTwoBlanks(a: string, b: string)
    ensures FirstNonEmpty(["", "", a, b]) == FirstNonEmpty([a, b])
  {
    FirstNonEmptyStep("", ["", a, b]);
    FirstNonEmptyStep("", [a, b]);
    assert ["", "", a, b] == [""] + ["", a, b] && ["", a, b] == [""] + [a, b];
  }

  lemma WriteError(message: string, code: string)
    ensures Write(OutError(message, code)) == Tagged(ErrorTag, WithText(map["message" := Str(message)], "code", code))
  {
    hide Tagged, WithText;
  }

  lemma ReadError(message: string, code: string)
    ensures Read(Write(OutError(message, code))) == Ok(Echo(OutError(message, code)))
  {
    hide Read, TagOf, NameOf, Tagged, FirstNonEmpty, WithText, ReadDoc, Write;
    ErrorName();
    WriteError(message, code);
    ReadErrorFields(message, code);
    SkipTwoBlanks(message, UPSTREAM_ERROR);
    ReadTagged(ErrorTag, WithText(map["message" := Str(message)], "code", code));
  }

  lemma ReadItemDone(item: Item)
    ensures Read(Write(OutItemDone(item))) == Ok(Skip)
  {
    hide Read, TagOf, NameOf, Tagged;
    ReadTagged(ItemDoneTag, map["output_index" := Int(0), "item" := DoneItem(item)]);
  }

  /** Every event the gateway writes reads back as itself. */
  lemma ReadWrite(e: Out)
    ensures Read(Write(e)) == Ok(Echo(e))
  {
    hide Read, Write;
    match e
    case OutCreated(id, model, usage) => ReadCreated(id, model, usage);
    case OutItemAdded(itemId, role) => ReadItemAdded(itemId, role);
    case OutPartAdded(itemId, index) => ReadPartAdded(itemId, index);
    case OutDelta(itemId, index, text) => ReadDelta(itemId, index, text);
    case OutTextDone(itemId, index, text) => ReadTextDone(itemId, index, text);
    case OutPartDone(itemId, index, text) => ReadPartDone(itemId, index, text);
    case OutItemDone(item) => ReadItemDone(item);
    case OutCompleted(id, model, usage, stopReason, stopSequence, item) =>
      ReadCompleted(id, model, usage, stopReason, stopSequence, item);
    case OutError(message, code) => ReadError(message, code);
  }

  lemma WritePlain(e: Out)
    ensures Write(e).data.Doc? && PlainName(Write(e).name)
  {
    var tag :| Write(e).name == NameOf(tag);
    NamesOfTags(tag);
    NotBlank(NameOf(tag));
  }

  lemma {:induction false} ReadWriteAll(es: seq<Out>)
    ensures ReadAll(WriteAll(es)) == Ok(EchoAll(es))
    ensures forall f | f in WriteAll(es) :: f.data.Doc? && PlainName(f.name)
  {
    if es != [] {
      ReadWrite(es[0]);
      WritePlain(es[0]);
      ReadWriteAll(es[1..]);
    }
  }

  /** A list of written events as event-stream text. */
  function Printed(c: Codec, es: seq<Out>): string {
    ReadWriteAll(es);
    Sse.Print(WriteFrames(c, WriteAll(es)))
  }
}
