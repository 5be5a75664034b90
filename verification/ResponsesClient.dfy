/** What a client reads from the Responses events the gateway writes, by a reader of its own that insists on every
    documented field, and what it therefore finds in a translated stream. */
module ResponsesClient {
  import opened Text
  import opened Json
  import opened Frames
  import Batch
  import History = ResponsesHistory
  import Order = ResponsesOrder
  import There = ToResponses
  import M = MessagesEvents
  import R = ResponsesEvents

  // ----- fields of a JSON object, present and of the right kind -----

  function TextField(o: Fields, key: string): Option<string> {
    if key in o && o[key].Str? then Some(o[key].s) else None
  }

  function ObjectField(o: Fields, key: string): Option<Fields> {
    if key in o && o[key].Obj? then Some(o[key].fields) else None
  }

  function ListField(o: Fields, key: string): Option<seq<Json>> {
    if key in o && o[key].Arr? then Some(o[key].items) else None
  }

  function IndexField(o: Fields, key: string): Option<int> {
    if key in o && o[key].Num? && o[key].frac == 0 then Some(o[key].whole) else None
  }

  /** A field that is left out when it has nothing to say. */
  function OptionalText(o: Fields, key: string): Option<string> {
    if key !in o then Some("") else if o[key].Str? && o[key].s != "" then Some(o[key].s) else None
  }

  function OptionalObject(o: Fields, key: string): Option<Option<Fields>> {
    if key !in o then Some(None) else if o[key].Obj? then Some(Some(o[key].fields)) else None
  }

  function OptionalValue(o: Fields, key: string): Option<Json> {
    if key !in o then Some(Null) else if o[key] != Null then Some(o[key]) else None
  }

  // ----- the reader -----

  /** The text of an output_text part without annotations. */
  function ReadPart(v: Json): Option<string> {
    if v.Obj? && TextField(v.fields, "type") == Some("output_text") && ListField(v.fields, "annotations") == Some([])
    then TextField(v.fields, "text")
    else None
  }

  function ReadParts(content: seq<Json>): Option<seq<string>> {
    if content == [] then Some([]) else
      var first, rest := ReadPart(content[0]), ReadParts(content[1..]);
      if first.Some? && rest.Some? then Some([first.value] + rest.value) else None
  }

  /** A message item that has the given status. */
  function ReadItem(o: Fields, status: string): Option<R.Item> {
    var id, role, content := TextField(o, "id"), TextField(o, "role"), ListField(o, "content");
    if TextField(o, "type") == Some("message") && TextField(o, "status") == Some(status)
       && id.Some? && role.Some? && content.Some?
    then
      var texts := ReadParts(content.value);
      if texts.Some? then Some(R.Item(id.value, role.value, texts.value)) else None
    else None
  }

  datatype Header = Header(id: string, model: string, usage: Option<Fields>, output: seq<Json>)

  /** The fields every response object has. */
  function ReadResponse(o: Fields, status: string): Option<Header> {
    var id, model, output, usage :=
      TextField(o, "id"), TextField(o, "model"), ListField(o, "output"), OptionalObject(o, "usage");
    if TextField(o, "object") == Some("response") && TextField(o, "status") == Some(status)
       && id.Some? && model.Some? && output.Some? && usage.Some?
    then Some(Header(id.value, model.value, usage.value, output.value))
    else None
  }

  datatype Place = Place(itemId: string, index: int)

  /** Which part an event is about: the gateway only ever has output item 0. */
  function ReadPlace(p: Fields): Option<Place> {
    var itemId, index := TextField(p, "item_id"), IndexField(p, "content_index");
    if IndexField(p, "output_index") == Some(0) && itemId.Some? && index.Some?
    then Some(Place(itemId.value, index.value))
    else None
  }

  function ReadCreated(p: Fields): Option<R.Out> {
    var o := ObjectField(p, "response");
    var h := if o.Some? then ReadResponse(o.value, "in_progress") else None;
    if h.Some? && h.value.output == [] then Some(R.OutCreated(h.value.id, h.value.model, h.value.usage)) else None
  }

  function ReadItemEvent(p: Fields, status: string): Option<R.Item> {
    var o := ObjectField(p, "item");
    if IndexField(p, "output_index") == Some(0) && o.Some? then ReadItem(o.value, status) else None
  }

  function ReadItemAdded(p: Fields): Option<R.Out> {
    var item := ReadItemEvent(p, "in_progress");
    if item.Some? && item.value.texts == [] then Some(R.OutItemAdded(item.value.id, item.value.role)) else None
  }

  function ReadItemDone(p: Fields): Option<R.Out> {
    var item := ReadItemEvent(p, "completed");
    if item.Some? then Some(R.OutItemDone(item.value)) else None
  }

  function ReadPartEvent(p: Fields): Option<string> {
    if "part" in p then ReadPart(p["part"]) else None
  }

  function ReadPartAdded(p: Fields): Option<R.Out> {
    var place := ReadPlace(p);
    if place.Some? && ReadPartEvent(p) == Some("") then Some(R.OutPartAdded(place.value.itemId, place.value.index))
    else None
  }

  function ReadPartDone(p: Fields): Option<R.Out> {
    var place, text := ReadPlace(p), ReadPartEvent(p);
    if place.Some? && text.Some? then Some(R.OutPartDone(place.value.itemId, place.value.index, text.value))
    else None
  }

  function ReadDelta(p: Fields): Option<R.Out> {
    var place, text := ReadPlace(p), TextField(p, "delta");
    if place.Some? && text.Some? then Some(R.OutDelta(place.value.itemId, place.value.index, text.value)) else None
  }

  function ReadTextDone(p: Fields): Option<R.Out> {
    var place, text := ReadPlace(p), TextField(p, "text");
    if place.Some? && text.Some? then Some(R.OutTextDone(place.value.itemId, place.value.index, text.value))
    else None
  }

  /** The one output item of a finished response. */
  function ReadOutput(h: Header): Option<R.Item> {
    if |h.output| == 1 && h.output[0].Obj? then ReadItem(h.output[0].fields, "completed") else None
  }

  function ReadCompletedResponse(o: Fields): Option<R.Out> {
    var h := ReadResponse(o, "completed");
    var item := if h.Some? then ReadOutput(h.value) else None;
    var reason, sequence := OptionalText(o, "stop_reason"), OptionalValue(o, "stop_sequence");
    if h.Some? && item.Some? && reason.Some? && sequence.Some?
    then Some(R.OutCompleted(h.value.id, h.value.model, h.value.usage, reason.value, sequence.value, item.value))
    else None
  }

  function ReadCompleted(p: Fields): Option<R.Out> {
    var o := ObjectField(p, "response");
    if o.Some? then ReadCompletedResponse(o.value) else None
  }

  function ReadError(p: Fields): Option<R.Out> {
    var message, code := TextField(p, "message"), OptionalText(p, "code");
    if message.Some? && code.Some? then Some(R.OutError(message.value, code.value)) else None
  }

  function ReadPayload(kind: string, p: Fields): Option<R.Out> {
    if kind == "response.created" then ReadCreated(p)
    else if kind == "response.output_item.added" then ReadItemAdded(p)
    else if kind == "response.content_part.added" then ReadPartAdded(p)
    else if kind == "response.output_text.delta" then ReadDelta(p)
    else if kind == "response.output_text.done" then ReadTextDone(p)
    else if kind == "response.content_part.done" then ReadPartDone(p)
    else if kind == "response.output_item.done" then ReadItemDone(p)
    else if kind == "response.completed" then ReadCompleted(p)
    else if kind == "error" then ReadError(p)
    else None
  }

  /** The event a frame shows to a client; its name and its `type` must agree. */
  function ReadBack(f: Frame): Option<R.Out> {
    if f.data.Doc? && TextField(f.data.fields, "type") == Some(f.name) then ReadPayload(f.name, f.data.fields)
    else None
  }

  // ----- every written event is read back as it was -----

  lemma Typed(name: string, fields: Fields)
    ensures ReadBack(Named(name, fields)) == ReadPayload(name, fields["type" := Str(name)])
  {
    hide ReadPayload;
  }

  lemma PartReadsBack(text: string)
    ensures ReadPart(R.TextPart(text)) == Some(text)
  {
    var o := R.TextPart(text).fields;
    assert TextField(o, "type") == Some("output_text");
    assert ListField(o, "annotations") == Some([]);
  }

  lemma {:induction false} PartsReadBack(texts: seq<string>)
    ensures ReadParts(R.TextParts(texts)) == Some(texts)
  {
    hide ReadPart, R.TextPart;
    if texts != [] {
      var first, rest := R.TextPart(texts[0]), R.TextParts(texts[1..]);
      PartReadsBack(texts[0]);
      PartsReadBack(texts[1..]);
      assert R.TextParts(texts) == [first] + rest;
      hide R.TextParts;
      assert ([first] + rest)[1..] == rest && ([first] + rest)[0] == first;
      assert texts == [texts[0]] + texts[1..];
    }
  }

  lemma ItemFields(id: string, status: string, role: string, content: seq<Json>)
    ensures var o := R.ItemJson(id, status, role, content).fields;
            && TextField(o, "id") == Some(id) && TextField(o, "status") == Some(status)
            && TextField(o, "type") == Some("message") && TextField(o, "role") == Some(role)
            && ListField(o, "content") == Some(content)
  {
  }

  lemma ItemReadsBack(id: string, status: string, role: string, texts: seq<string>)
    ensures var v := R.ItemJson(id, status, role, R.TextParts(texts));
            v.Obj? && ReadItem(v.fields, status) == Some(R.Item(id, role, texts))
  {
    ItemFields(id, status, role, R.TextParts(texts));
    PartsReadBack(texts);
    hide TextField, ListField, ReadParts, R.TextParts;
  }

  lemma ResponseFields(id: string, model: string, status: string, output: seq<Json>, usage: Option<Fields>)
    ensures var o := R.ResponseJson(id, model, status, output, usage);
            && TextField(o, "id") == Some(id) && TextField(o, "object") == Some("response")
            && TextField(o, "model") == Some(model) && TextField(o, "status") == Some(status)
            && ListField(o, "output") == Some(output) && OptionalObject(o, "usage") == Some(usage)
            && "stop_reason" !in o && "stop_sequence" !in o
  {
  }

  lemma ResponseReadsBack(id: string, model: string, status: string, output: seq<Json>, usage: Option<Fields>)
    ensures ReadResponse(R.ResponseJson(id, model, status, output, usage), status)
         == Some(Header(id, model, usage, output))
  {
    ResponseFields(id, model, status, output, usage);
    hide TextField, ListField, OptionalObject, R.ResponseJson;
  }

  /** A response object is read by six fields; others do not matter. */
  lemma OtherFields(a: Fields, b: Fields, status: string)
    requires forall key | key in {"id", "object", "model", "status", "output", "usage"} ::
               (key in a <==> key in b) && (key in a ==> a[key] == b[key])
    ensures ReadResponse(a, status) == ReadResponse(b, status)
  {
    assert TextField(a, "id") == TextField(b, "id") && TextField(a, "object") == TextField(b, "object");
    assert TextField(a, "model") == TextField(b, "model") && TextField(a, "status") == TextField(b, "status");
    assert ListField(a, "output") == ListField(b, "output");
    assert OptionalObject(a, "usage") == OptionalObject(b, "usage");
    hide TextField, ListField, OptionalObject;
  }

  lemma CompletedFields(base: Fields, stopReason: string, stopSequence: Json)
    requires "stop_reason" !in base && "stop_sequence" !in base
    ensures var b := WithText(base, "stop_reason", stopReason);
            var o := if stopSequence == Null then b else b["stop_sequence" := stopSequence];
            && OptionalText(o, "stop_reason") == Some(stopReason)
            && OptionalValue(o, "stop_sequence") == Some(stopSequence)
            && forall key | key in {"id", "object", "model", "status", "output", "usage"} ::
                 (key in o <==> key in base) && (key in o ==> o[key] == base[key])
  {
  }

  lemma CompletedReadsBack(e: R.Out)
    requires e.OutCompleted?
    ensures ReadCompletedResponse(
              R.CompletedResponse(e.id, e.model, e.usage, e.stopReason, e.stopSequence, e.item)) == Some(e)
  {
    ItemReadsBack(e.item.id, "completed", e.item.role, e.item.texts);
    var base := R.ResponseJson(e.id, e.model, "completed", [R.DoneItem(e.item)], e.usage);
    ResponseFields(e.id, e.model, "completed", [R.DoneItem(e.item)], e.usage);
    ResponseReadsBack(e.id, e.model, "completed", [R.DoneItem(e.item)], e.usage);
    CompletedFields(base, e.stopReason, e.stopSequence);
    var o := R.CompletedResponse(e.id, e.model, e.usage, e.stopReason, e.stopSequence, e.item);
    hide ReadItem, ReadResponse, R.ResponseJson, TextField, ListField, OptionalText, OptionalValue, R.ItemJson;
    OtherFields(o, base, "completed");
  }

  lemma PlaceReadsBack(itemId: string, index: int, key: string, value: Json, kind: Json)
    requires key in {"part", "delta", "text"}
    ensures var p := R.OnPart(itemId, index)[key := value]["type" := kind];
            ReadPlace(p) == Some(Place(itemId, index)) && key in p && p[key] == value
  {
    var p := R.OnPart(itemId, index)[key := value]["type" := kind];
    assert TextField(p, "item_id") == Some(itemId);
    assert IndexField(p, "content_index") == Some(index);
    assert IndexField(p, "output_index") == Some(0);
  }

  lemma CreatedEvent(e: R.Out)
    requires e.OutCreated?
    ensures ReadBack(R.Write(e)) == Some(e)
  {
    var o := R.ResponseJson(e.id, e.model, "in_progress", [], e.usage);
    ResponseReadsBack(e.id, e.model, "in_progress", [], e.usage);
    hide ReadResponse, R.ResponseJson, ReadBack;
    var p := map["response" := Obj(o)];
    Typed("response.created", p);
    assert ObjectField(p["type" := Str("response.created")], "response") == Some(o);
  }

  lemma ItemPayload(v: Json, kind: string)
    requires v.Obj?
    ensures var p := map["output_index" := Int(0), "item" := v]["type" := Str(kind)];
            ObjectField(p, "item") == Some(v.fields) && IndexField(p, "output_index") == Some(0)
  {
  }

  lemma ItemEvents(e: R.Out)
    requires e.OutItemAdded? || e.OutItemDone?
    ensures ReadBack(R.Write(e)) == Some(e)
  {
    hide ReadBack;
    if e.OutItemAdded? {
      var v := R.ItemJson(e.itemId, "in_progress", e.role, []);
      ItemReadsBack(e.itemId, "in_progress", e.role, []);
      ItemPayload(v, "response.output_item.added");
      hide ReadItem, R.ItemJson, ObjectField, IndexField;
      Typed("response.output_item.added", map["output_index" := Int(0), "item" := v]);
    } else {
      var v := R.DoneItem(e.item);
      ItemReadsBack(e.item.id, "completed", e.item.role, e.item.texts);
      ItemPayload(v, "response.output_item.done");
      hide ReadItem, R.ItemJson, R.DoneItem, ObjectField, IndexField;
      Typed("response.output_item.done", map["output_index" := Int(0), "item" := v]);
    }
  }

  lemma PartEvents(e: R.Out)
    requires e.OutPartAdded? || e.OutPartDone?
    ensures ReadBack(R.Write(e)) == Some(e)
  {
    hide ReadBack;
    var text := if e.OutPartAdded? then "" else e.text;
    var kind := if e.OutPartAdded? then "response.content_part.added" else "response.content_part.done";
    PartReadsBack(text);
    PlaceReadsBack(e.itemId, e.index, "part", R.TextPart(text), Str(kind));
    hide ReadPlace, ReadPart, R.TextPart, R.OnPart;
    Typed(kind, R.OnPart(e.itemId, e.index)["part" := R.TextPart(text)]);
  }

  lemma DeltaEvent(e: R.Out)
    requires e.OutDelta?
    ensures ReadBack(R.Write(e)) == Some(e)
  {
    hide ReadBack;
    PlaceReadsBack(e.itemId, e.index, "delta", Str(e.text), Str("response.output_text.delta"));
    hide ReadPlace, R.OnPart;
    Typed("response.output_text.delta", R.OnPart(e.itemId, e.index)["delta" := Str(e.text)]);
  }

  lemma TextDoneEvent(e: R.Out)
    requires e.OutTextDone?
    ensures ReadBack(R.Write(e)) == Some(e)
  {
    hide ReadBack;
    PlaceReadsBack(e.itemId, e.index, "text", Str(e.text), Str("response.output_text.done"));
    hide ReadPlace, R.OnPart;
    Typed("response.output_text.done", R.OnPart(e.itemId, e.index)["text" := Str(e.text)]);
  }

  lemma CompletedEvent(e: R.Out)
    requires e.OutCompleted?
    ensures ReadBack(R.Write(e)) == Some(e)
  {
    hide ReadBack;
    CompletedReadsBack(e);
    var o := R.CompletedResponse(e.id, e.model, e.usage, e.stopReason, e.stopSequence, e.item);
    hide ReadCompletedResponse, R.CompletedResponse;
    UnderResponse(o, "response.completed");
    hide ObjectField;
    Typed("response.completed", map["response" := Obj(o)]);
  }

  lemma UnderResponse(o: Fields, kind: string)
    ensures ObjectField(map["response" := Obj(o)]["type" := Str(kind)], "response") == Some(o)
  {
  }

  lemma ErrorEvent(e: R.Out)
    requires e.OutError?
    ensures ReadBack(R.Write(e)) == Some(e)
  {
    hide ReadBack;
    var p := WithText(map["message" := Str(e.message)], "code", e.code);
    var q := p["type" := Str("error")];
    assert TextField(q, "message") == Some(e.message) && OptionalText(q, "code") == Some(e.code);
    hide WithText, TextField, OptionalText;
    Typed("error", p);
  }

  /** Every documented field of every written event says what the event says. */
  lemma WrittenReadsBack(e: R.Out)
    ensures ReadBack(R.Write(e)) == Some(e)
  {
    hide ReadBack, R.Write;
    match e
    case OutCreated(_, _, _) => CreatedEvent(e);
    case OutItemAdded(_, _) => ItemEvents(e);
    case OutPartAdded(_, _) => PartEvents(e);
    case OutDelta(_, _, _) => DeltaEvent(e);
    case OutTextDone(_, _, _) => TextDoneEvent(e);
    case OutPartDone(_, _, _) => PartEvents(e);
    case OutItemDone(_) => ItemEvents(e);
    case OutCompleted(_, _, _, _, _, _) => CompletedEvent(e);
    case OutError(_, _) => ErrorEvent(e);
  }

  // ----- translated streams -----

  /** What a client reads from a translated stream is, frame by frame, what the events sent amount to. */
  lemma StreamReadsBack(frames: seq<Frame>, es: seq<M.In>)
    requires M.ReadAll(frames) == Ok(es)
    ensures There.Convert(frames).Ok? && |There.Convert(frames).value| == |History.Replies(es)|
    ensures forall n | 0 <= n < |History.Replies(es)| ::
              ReadBack(There.Convert(frames).value[n]) == Some(History.Replies(es)[n])
  {
    hide ReadBack, R.Write, There.Run, There.Step, History.Reply;
    History.OutputIsReplies(es);
    var out := There.Run(There.INIT, es).out;
    forall n | 0 <= n < |out| ensures ReadBack(R.WriteAll(out)[n]) == Some(out[n]) {
      WrittenReadsBack(out[n]);
    }
  }

  lemma RepliesToStop(es: seq<M.In>)
    ensures var r := History.Replies(es + [M.Stop]);
            && |r| >= 2 && r[|r| - 2] == R.OutItemDone(History.ItemOf(es))
            && r[|r| - 1]
            == R.OutCompleted(History.IdOf(es), History.ModelOf(es), History.UsageOf(es), History.StopReasonOf(es),
                              History.StopSequenceOf(es), History.ItemOf(es))
  {
    hide History.Endings, History.Begun, History.ItemOf, History.IndexesOf;
    var all := es + [M.Stop];
    assert History.Front(all) == es && History.Last(all) == M.Stop;
  }

  lemma TextsOfOutput(e: R.Out)
    requires e.OutCompleted?
    ensures var response := AsObject(Get(R.Write(e).data.fields, "response"));
            Batch.ResponseTexts(response) == e.item.texts && Batch.ResponseRole(response) == e.item.role
  {
    var o := R.CompletedResponse(e.id, e.model, e.usage, e.stopReason, e.stopSequence, e.item);
    CompletedOutput(e);
    ItemFields(e.item.id, "completed", e.item.role, R.TextParts(e.item.texts));
    WrittenResponse(e, o);
    hide R.Write, R.CompletedResponse, R.ResponseJson, R.ItemJson;
    var content := R.TextParts(e.item.texts);
    forall k | 0 <= k < |content| ensures AsString(Get(AsObject(content[k]), "text")) == e.item.texts[k] {
      R.ReadTextPart(e.item.texts[k]);
    }
    assert Batch.ItemTexts(content) == e.item.texts;
  }

  lemma CompletedOutput(e: R.Out)
    requires e.OutCompleted?
    ensures Get(R.CompletedResponse(e.id, e.model, e.usage, e.stopReason, e.stopSequence, e.item), "output")
         == Arr([R.DoneItem(e.item)])
  {
    hide R.DoneItem;
    var base := R.ResponseJson(e.id, e.model, "completed", [R.DoneItem(e.item)], e.usage);
    ResponseFields(e.id, e.model, "completed", [R.DoneItem(e.item)], e.usage);
    CompletedFields(base, e.stopReason, e.stopSequence);
  }

  lemma WrittenResponse(e: R.Out, o: Fields)
    requires e.OutCompleted?
    requires o == R.CompletedResponse(e.id, e.model, e.usage, e.stopReason, e.stopSequence, e.item)
    ensures AsObject(Get(R.Write(e).data.fields, "response")) == o
  {
    hide R.CompletedResponse;
  }

  /** Whatever came before, a message_stop ends the stream with the finished item and the completed response: both
      hold the text read for every named part in ascending order of index, under the last id, role and model that
      were not blank. */
  lemma CompletedOnTheWire(frames: seq<Frame>, es: seq<M.In>)
    requires M.ReadAll(frames) == Ok(es + [M.Stop])
    ensures There.Convert(frames).Ok?
    ensures var w := There.Convert(frames).value;
            && |w| >= 2
            && ReadBack(w[|w| - 2]) == Some(R.OutItemDone(History.ItemOf(es)))
            && ReadBack(w[|w| - 1])
            == Some(R.OutCompleted(History.IdOf(es), History.ModelOf(es), History.UsageOf(es),
                                   History.StopReasonOf(es), History.StopSequenceOf(es), History.ItemOf(es)))
  {
    hide ReadBack, There.Convert, History.Replies, History.ItemOf, History.IdOf, History.ModelOf, History.UsageOf,
         History.StopReasonOf, History.StopSequenceOf;
    var all := es + [M.Stop];
    StreamReadsBack(frames, all);
    RepliesToStop(es);
    var r := History.Replies(all);
    assert ReadBack(There.Convert(frames).value[|r| - 1]) == Some(r[|r| - 1]);
    assert ReadBack(There.Convert(frames).value[|r| - 2]) == Some(r[|r| - 2]);
  }

  lemma LastWritten(frames: seq<Frame>, es: seq<M.In>)
    requires M.ReadAll(frames) == Ok(es + [M.Stop])
    ensures There.Convert(frames).Ok? && There.Convert(frames).value != []
    ensures var w := There.Convert(frames).value;
            && w[|w| - 1].data.Doc?
            && Batch.ResponseTexts(AsObject(Get(w[|w| - 1].data.fields, "response"))) == History.ItemOf(es).texts
            && Batch.ResponseRole(AsObject(Get(w[|w| - 1].data.fields, "response"))) == History.RoleOf(es)
  {
    hide R.Write, There.Run, There.Step, History.Replies, History.IndexesOf, Batch.ResponseTexts, Batch.ResponseRole;
    var all := es + [M.Stop];
    RepliesToStop(es);
    History.OutputIsReplies(all);
    var out := There.Run(There.INIT, all).out;
    TextsOfOutput(out[|out| - 1]);
    R.WritePlain(out[|out| - 1]);
  }

  /** The texts under `response.output` of the last frame, as a client of complete responses reads them. */
  lemma OutputTexts(frames: seq<Frame>, es: seq<M.In>)
    requires M.ReadAll(frames) == Ok(es + [M.Stop])
    ensures There.Convert(frames).Ok? && There.Convert(frames).value != []
    ensures var w := There.Convert(frames).value;
            var indexes := History.IndexesOf(es);
            && w[|w| - 1].data.Doc?
            && var texts := Batch.ResponseTexts(AsObject(Get(w[|w| - 1].data.fields, "response")));
            |texts| == |indexes| && forall k | 0 <= k < |indexes| :: texts[k] == Order.InputText(es, indexes[k])
  {
    hide There.Convert, History.IndexesOf, Batch.ResponseTexts;
    LastWritten(frames, es);
    assert |History.ItemOf(es).texts| == |History.IndexesOf(es)|;
  }
}
