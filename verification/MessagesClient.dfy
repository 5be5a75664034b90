/** What a client reads from the Messages events the gateway writes, by a reader of its own that insists on every
    documented field, and what it therefore finds in a translated stream. */
module MessagesClient {
  import opened Text
  import opened Json
  import opened Frames
  import opened ResponsesClient
  import Back = ToMessages
  import History = MessagesHistory
  import M = MessagesEvents
  import R = ResponsesEvents

  /** A field that must be there and null. */
  predicate NullField(o: Fields, key: string) {
    key in o && o[key] == Null
  }

  /** The message a message_start announces: empty and not stopped. */
  function ReadMessage(o: Fields): Option<M.Out> {
    var id, model, role, usage :=
      OptionalText(o, "id"), OptionalText(o, "model"), TextField(o, "role"), OptionalObject(o, "usage");
    if TextField(o, "type") == Some("message") && ListField(o, "content") == Some([])
       && NullField(o, "stop_reason") && NullField(o, "stop_sequence")
       && id.Some? && model.Some? && role.Some? && usage.Some?
    then Some(M.MessageStart(id.value, model.value, role.value, usage.value))
    else None
  }

  function ReadStart(p: Fields): Option<M.Out> {
    var o := ObjectField(p, "message");
    if o.Some? then ReadMessage(o.value) else None
  }

  function ReadBlockStart(p: Fields): Option<M.Out> {
    var index, block := IndexField(p, "index"), ObjectField(p, "content_block");
    if index.Some? && block.Some? && TextField(block.value, "type") == Some("text")
       && TextField(block.value, "text") == Some("")
    then Some(M.BlockStart(index.value))
    else None
  }

  function ReadBlockDelta(p: Fields): Option<M.Out> {
    var index, delta := IndexField(p, "index"), ObjectField(p, "delta");
    if index.Some? && delta.Some? && TextField(delta.value, "type") == Some("text_delta")
       && TextField(delta.value, "text").Some?
    then Some(M.BlockDelta(index.value, TextField(delta.value, "text").value))
    else None
  }

  function ReadBlockEnd(p: Fields): Option<M.Out> {
    var index := IndexField(p, "index");
    if index.Some? then Some(M.BlockEnd(index.value)) else None
  }

  function ReadMessageDelta(p: Fields): Option<M.Out> {
    var delta, usage := ObjectField(p, "delta"), OptionalObject(p, "usage");
    if delta.Some? && usage.Some? && TextField(delta.value, "stop_reason").Some? && "stop_sequence" in delta.value
    then Some(M.MessageDelta(TextField(delta.value, "stop_reason").value, delta.value["stop_sequence"], usage.value))
    else None
  }

  function ReadError(p: Fields): Option<M.Out> {
    var error := ObjectField(p, "error");
    if error.Some? && TextField(error.value, "type") == Some("api_error") && TextField(error.value, "message").Some?
    then Some(M.Error(TextField(error.value, "message").value))
    else None
  }

  function ReadPayload(kind: string, p: Fields): Option<M.Out> {
    if kind == "ping" then Some(M.Ping)
    else if kind == "message_start" then ReadStart(p)
    else if kind == "content_block_start" then ReadBlockStart(p)
    else if kind == "content_block_delta" then ReadBlockDelta(p)
    else if kind == "content_block_stop" then ReadBlockEnd(p)
    else if kind == "message_delta" then ReadMessageDelta(p)
    else if kind == "message_stop" then Some(M.MessageStop)
    else if kind == "error" then ReadError(p)
    else None
  }

  /** The event a frame shows to a client; its name and its `type` must agree. */
  function ReadBack(f: Frame): Option<M.Out> {
    if f.data.Doc? && TextField(f.data.fields, "type") == Some(f.name) then ReadPayload(f.name, f.data.fields)
    else None
  }

  // ----- every written event is read back as it was -----

  lemma Typed(name: string, fields: Fields)
    ensures ReadBack(Named(name, fields)) == ReadPayload(name, fields["type" := Str(name)])
  {
    hide ReadPayload;
  }

  lemma MessageReadsBack(id: string, model: string, role: string, usage: Option<Fields>)
    ensures ReadMessage(M.StartMessage(id, model, role, usage)) == Some(M.MessageStart(id, model, role, usage))
  {
    var o := M.StartMessage(id, model, role, usage);
    assert OptionalText(o, "id") == Some(id) && OptionalText(o, "model") == Some(model);
    assert TextField(o, "role") == Some(role) && OptionalObject(o, "usage") == Some(usage);
    assert TextField(o, "type") == Some("message") && ListField(o, "content") == Some([]);
    assert NullField(o, "stop_reason") && NullField(o, "stop_sequence");
  }

  lemma StartEvent(e: M.Out)
    requires e.MessageStart?
    ensures ReadBack(M.Write(e)) == Some(e)
  {
    hide ReadBack;
    MessageReadsBack(e.id, e.model, e.role, e.usage);
    hide ReadMessage, M.StartMessage;
    var o := M.StartMessage(e.id, e.model, e.role, e.usage);
    var p := map["message" := Obj(o)];
    Typed("message_start", p);
    assert ObjectField(p["type" := Str("message_start")], "message") == Some(o);
  }

  lemma BlockStartEvent(index: int)
    ensures ReadBack(M.Write(M.BlockStart(index))) == Some(M.BlockStart(index))
  {
    hide ReadBack;
    var block := M.Typed("text")["text" := Str("")];
    assert TextField(block, "type") == Some("text") && TextField(block, "text") == Some("");
    var p := map["index" := Int(index), "content_block" := Obj(block)];
    var q := p["type" := Str("content_block_start")];
    assert IndexField(q, "index") == Some(index) && ObjectField(q, "content_block") == Some(block);
    hide TextField, IndexField, ObjectField;
    Typed("content_block_start", p);
  }

  lemma BlockDeltaEvent(index: int, text: string)
    ensures ReadBack(M.Write(M.BlockDelta(index, text))) == Some(M.BlockDelta(index, text))
  {
    hide ReadBack;
    var delta := M.Typed("text_delta")["text" := Str(text)];
    assert TextField(delta, "type") == Some("text_delta") && TextField(delta, "text") == Some(text);
    var p := map["index" := Int(index), "delta" := Obj(delta)];
    var q := p["type" := Str("content_block_delta")];
    assert IndexField(q, "index") == Some(index) && ObjectField(q, "delta") == Some(delta);
    hide TextField, IndexField, ObjectField;
    Typed("content_block_delta", p);
  }

  lemma BlockEndEvent(index: int)
    ensures ReadBack(M.Write(M.BlockEnd(index))) == Some(M.BlockEnd(index))
  {
    hide ReadBack;
    var p := map["index" := Int(index)];
    assert IndexField(p["type" := Str("content_block_stop")], "index") == Some(index);
    hide IndexField;
    Typed("content_block_stop", p);
  }

  lemma MessageDeltaEvent(e: M.Out)
    requires e.MessageDelta?
    ensures ReadBack(M.Write(e)) == Some(e)
  {
    hide ReadBack;
    var delta := map["stop_reason" := Str(e.stopReason), "stop_sequence" := e.stopSequence];
    assert TextField(delta, "stop_reason") == Some(e.stopReason);
    assert "stop_sequence" in delta && delta["stop_sequence"] == e.stopSequence;
    var p := WithUsage(map["delta" := Obj(delta)], e.usage);
    var q := p["type" := Str("message_delta")];
    assert ObjectField(q, "delta") == Some(delta) && OptionalObject(q, "usage") == Some(e.usage);
    hide TextField, ObjectField, OptionalObject, WithUsage;
    Typed("message_delta", p);
  }

  lemma ErrorEvent(message: string)
    ensures ReadBack(M.Write(M.Error(message))) == Some(M.Error(message))
  {
    hide ReadBack;
    var error := M.Typed("api_error")["message" := Str(message)];
    assert TextField(error, "type") == Some("api_error") && TextField(error, "message") == Some(message);
    var p := map["error" := Obj(error)];
    assert ObjectField(p["type" := Str("error")], "error") == Some(error);
    hide TextField, ObjectField;
    Typed("error", p);
  }

  lemma BareEvents(e: M.Out)
    requires e.Ping? || e.MessageStop?
    ensures ReadBack(M.Write(e)) == Some(e)
  {
    hide ReadBack;
    Typed(if e.Ping? then "ping" else "message_stop", map[]);
  }

  /** Every documented field of every written event says what the event says. */
  lemma WrittenReadsBack(e: M.Out)
    ensures ReadBack(M.Write(e)) == Some(e)
  {
    hide ReadBack, M.Write;
    match e
    case Ping => BareEvents(e);
    case MessageStart(_, _, _, _) => StartEvent(e);
    case BlockStart(index) => BlockStartEvent(index);
    case BlockDelta(index, text) => BlockDeltaEvent(index, text);
    case BlockEnd(index) => BlockEndEvent(index);
    case MessageDelta(_, _, _) => MessageDeltaEvent(e);
    case MessageStop => BareEvents(e);
    case Error(message) => ErrorEvent(message);
  }

  // ----- translated streams -----

  /** What a client reads from a translated stream is, frame by frame, what the events sent amount to. */
  lemma StreamReadsBack(frames: seq<Frame>, es: seq<R.In>)
    requires R.ReadAll(frames) == Ok(es)
    ensures Back.Convert(frames).Ok? && |Back.Convert(frames).value| == |History.Replies(es)|
    ensures forall n | 0 <= n < |History.Replies(es)| ::
              ReadBack(Back.Convert(frames).value[n]) == Some(History.Replies(es)[n])
  {
    hide ReadBack, M.Write, Back.Run, Back.Step, History.Reply;
    History.OutputIsReplies(es);
    var out := Back.Run(Back.INIT, es).out;
    forall n | 0 <= n < |out| ensures ReadBack(M.WriteAll(out)[n]) == Some(out[n]) {
      WrittenReadsBack(out[n]);
    }
  }

  lemma RepliesToCompleted(es: seq<R.In>, end: R.In)
    requires end.Completed?
    ensures var r := History.Replies(es + [end]);
            && |r| >= 2 && r[|r| - 1] == M.MessageStop
            && r[|r| - 2]
            == M.MessageDelta(if Blank(end.stopReason) then "end_turn" else end.stopReason, end.stopSequence, end.usage)
  {
    hide History.StillOpen, History.Begun, Blank;
    var all := es + [end];
    assert History.Front(all) == es && History.Last(all) == end;
  }

  /** Whatever came before, `response.completed` ends the stream with its stop reason, `end_turn` when it has none,
      its stop sequence and its usage. */
  lemma EndOnTheWire(frames: seq<Frame>, es: seq<R.In>, end: R.In)
    requires R.ReadAll(frames) == Ok(es + [end]) && end.Completed?
    ensures Back.Convert(frames).Ok?
    ensures var w := Back.Convert(frames).value;
            && |w| >= 2 && ReadBack(w[|w| - 1]) == Some(M.MessageStop)
            && ReadBack(w[|w| - 2])
            == Some(M.MessageDelta(if Blank(end.stopReason) then "end_turn" else end.stopReason, end.stopSequence,
                                   end.usage))
  {
    hide ReadBack, Back.Convert, History.Replies, Blank;
    StreamReadsBack(frames, es + [end]);
    RepliesToCompleted(es, end);
    var r := History.Replies(es + [end]);
    assert ReadBack(Back.Convert(frames).value[|r| - 1]) == Some(r[|r| - 1]);
    assert ReadBack(Back.Convert(frames).value[|r| - 2]) == Some(r[|r| - 2]);
  }
}
