/** What an arbitrary upstream frame tells the gateway: for every event the exact frames that read as it, on payloads
    that may lack any field or hold a value of another kind. */
module EventReading {
  import opened Text
  import opened Json
  import opened Frames
  import M = MessagesEvents
  import R = ResponsesEvents
  import Sse

  // ----- fields as the gateway takes them -----

  /** The field holds this text; one that is missing or not a string holds the empty text. */
  predicate HoldsText(o: Fields, key: string, text: string) {
    if key in o && o[key].Str? then o[key].s == text else text == ""
  }

  /** The field holds this integer, digits after the point dropped; one that is not a number holds zero. */
  predicate HoldsIndex(o: Fields, key: string, index: int) {
    if key in o && o[key].Num? then o[key].whole == index else index == 0
  }

  predicate HoldsUsage(o: Fields, usage: Option<Fields>) {
    if "usage" in o && o["usage"].Obj? then usage == Some(o["usage"].fields) else usage == None
  }

  predicate HoldsValue(o: Fields, key: string, value: Json) {
    if key in o then o[key] == value else value == Null
  }

  /** The object under a key; a missing one, or a value of another kind, counts as empty. */
  function Inner(o: Fields, key: string): Fields {
    if key in o && o[key].Obj? then o[key].fields else map[]
  }

  /** The field is one of these words once white space around it is dropped. */
  predicate IsWord(o: Fields, key: string, words: set<string>) {
    key in o && o[key].Str? && TrimSpace(o[key].s) in words
  }

  /** The first text that is not blank, or the empty text. */
  ghost predicate First(texts: seq<string>, text: string) {
    || (text == "" && forall k | 0 <= k < |texts| :: Blank(texts[k]))
    || exists k ::
         0 <= k < |texts| && texts[k] == text && !Blank(text) && forall j | 0 <= j < k :: Blank(texts[j])
  }

  function TextOr(o: Fields, key: string): string {
    if key in o && o[key].Str? then o[key].s else ""
  }

  lemma {:induction false} FirstIff(texts: seq<string>, text: string)
    ensures First(texts, text) <==> text == FirstNonEmpty(texts)
  {
    hide Blank;
    if texts != [] {
      FirstIff(texts[1..], text);
      if Blank(texts[0]) {
        FirstSkips(texts, text);
      } else {
        BlankIsBlank();
      }
    }
  }

  lemma BlankIsBlank()
    ensures Blank("")
  {
  }

  lemma FirstSkips(texts: seq<string>, text: string)
    requires texts != [] && Blank(texts[0])
    ensures First(texts, text) <==> First(texts[1..], text)
  {
    hide Blank;
    var rest := texts[1..];
    if First(texts, text) {
      if !(text == "" && forall k | 0 <= k < |texts| :: Blank(texts[k])) {
        var k :| 0 <= k < |texts| && texts[k] == text && !Blank(text) && forall j | 0 <= j < k :: Blank(texts[j]);
        assert rest[k - 1] == text && forall j | 0 <= j < k - 1 :: rest[j] == texts[j + 1] && Blank(rest[j]);
      }
    }
    if First(rest, text) {
      if !(text == "" && forall k | 0 <= k < |rest| :: Blank(rest[k])) {
        var k :| 0 <= k < |rest| && rest[k] == text && !Blank(text) && forall j | 0 <= j < k :: Blank(rest[j]);
        assert texts[k + 1] == text;
        assert forall j | 0 < j < k + 1 :: texts[j] == rest[j - 1];
      } else {
        assert forall j | 0 < j < |texts| :: texts[j] == rest[j - 1];
      }
    }
  }

  // ----- frames -----

  /** The word a frame goes by: its `type` unless that is blank, and then its event name. */
  ghost predicate GoesBy(f: Frame, kind: string)
    requires f.data.Doc?
  {
    First([TextOr(f.data.fields, "type"), f.name], kind)
  }

  /** The frame is read at all: pings and frames without data are passed over, malformed ones end the reading. */
  predicate IsRead(f: Frame) {
    f.data.Doc? && !IsPing(f.name)
  }

  lemma Lookups(o: Fields, key: string)
    ensures AsString(Get(o, key)) == TextOr(o, key) && AsObject(Get(o, key)) == Inner(o, key)
    ensures forall text :: HoldsText(o, key, text) <==> text == AsString(Get(o, key))
    ensures forall index :: HoldsIndex(o, key, index) <==> index == IntValue(Get(o, key))
    ensures forall value :: HoldsValue(o, key, value) <==> value == Get(o, key)
    ensures key == "usage" ==> forall usage :: HoldsUsage(o, usage) <==> usage == UsageOf(Get(o, key))
  {
  }

  lemma Word(o: Fields, words: set<string>)
    requires "" !in words
    ensures IsWord(o, "type", words) <==> TrimSpace(AsString(Get(o, "type"))) in words
  {
  }

  lemma GoesByKind(f: Frame, kind: string)
    requires f.data.Doc?
    ensures GoesBy(f, kind) <==> kind == Kind(f)
  {
    Lookups(f.data.fields, "type");
    FirstIff([TextOr(f.data.fields, "type"), f.name], kind);
  }

  /** Only a malformed frame that is not a ping is an error. */
  lemma ErrorsIff(f: Frame)
    ensures M.Read(f).Err? <==> f.data.Malformed? && !IsPing(f.name)
    ensures R.Read(f).Err? <==> f.data.Malformed? && !IsPing(f.name)
  {
    hide M.ReadDoc, R.ReadDoc, M.TagOf, R.TagOf, Kind;
  }

  /** The data of an event: nothing when blank or the end marker, fields for an object or null, and malformed for
      anything else. */
  lemma DataIff(c: Codec, data: string, fields: Fields)
    ensures var text := TrimSpace(data);
            && (ReadData(c, data) == Nothing <==> text == "" || text == "[DONE]")
            && (ReadData(c, data) == Doc(fields) <==>
                text != "" && text != "[DONE]"
                && (c.dec(text) == Some(Obj(fields)) || (c.dec(text) == Some(Null) && fields == map[])))
  {
    hide TrimSpace;
  }

  // ----- Messages -----

  ghost predicate MessagesPayload(p: Fields, e: M.In) {
    match e
    case Skip => false
    case Start(id, model, role, usage) =>
      var message := Inner(p, "message");
      && HoldsText(message, "id", id) && HoldsText(message, "model", model) && HoldsText(message, "role", role)
      && HoldsUsage(message, usage)
    case TextStart(index) => HoldsIndex(p, "index", index) && IsWord(Inner(p, "content_block"), "type", {"text"})
    case TextDelta(index, text) =>
      && HoldsIndex(p, "index", index) && text != ""
      && HoldsText(Inner(p, "delta"), "text", text) && IsWord(Inner(p, "delta"), "type", {"text_delta"})
    case BlockStop(index) => HoldsIndex(p, "index", index)
    case Delta(stopReason, stopSequence, usage) =>
      && HoldsText(Inner(p, "delta"), "stop_reason", stopReason)
      && HoldsValue(Inner(p, "delta"), "stop_sequence", stopSequence)
      && HoldsUsage(p, usage)
    case Stop => true
    case Failure(message, code) =>
      var error := Inner(p, "error");
      && First([TextOr(error, "message"), TextOr(p, "message"), "upstream streaming error"], message)
      && First([TextOr(error, "type"), TextOr(error, "code")], code)
  }

  function MessagesName(e: M.In): string {
    match e
    case Skip => ""
    case Start(_, _, _, _) => "message_start"
    case TextStart(_) => "content_block_start"
    case TextDelta(_, _) => "content_block_delta"
    case BlockStop(_) => "content_block_stop"
    case Delta(_, _, _) => "message_delta"
    case Stop => "message_stop"
    case Failure(_, _) => "error"
  }

  lemma MessagesTag(kind: string, tag: M.Tag)
    ensures M.TagOf(kind) == Some(tag) <==> kind == M.NameOf(tag) && tag != M.PingTag
  {
  }

  function MessagesTagOf(e: M.In): M.Tag
    requires !e.Skip?
  {
    match e
    case Start(_, _, _, _) => M.StartTag
    case TextStart(_) => M.BlockStartTag
    case TextDelta(_, _) => M.BlockDeltaTag
    case BlockStop(_) => M.BlockStopTag
    case Delta(_, _, _) => M.DeltaTag
    case Stop => M.StopTag
    case Failure(_, _) => M.ErrorTag
  }

  lemma MessagesNameOf(e: M.In)
    requires !e.Skip?
    ensures MessagesName(e) == M.NameOf(MessagesTagOf(e)) && MessagesTagOf(e) != M.PingTag
  {
  }

  lemma MessagesDoc(p: Fields, tag: M.Tag, e: M.In)
    requires !e.Skip?
    ensures M.ReadDoc(tag, p) == e <==> tag == MessagesTagOf(e) && MessagesPayload(p, e)
  {
    hide Get, AsString, AsObject, IntValue, UsageOf, HoldsText, HoldsIndex, HoldsUsage, HoldsValue, IsWord, Inner,
         TextOr, First, FirstNonEmpty, TrimSpace;
    var message, delta, error := Inner(p, "message"), Inner(p, "delta"), Inner(p, "error");
    Lookups(p, "message");
    match tag
    case StartTag =>
      Lookups(message, "id");
      Lookups(message, "model");
      Lookups(message, "role");
      Lookups(message, "usage");
    case BlockStartTag =>
      Lookups(p, "index");
      Lookups(p, "content_block");
      Word(Inner(p, "content_block"), {"text"});
    case BlockDeltaTag =>
      Lookups(p, "index");
      Lookups(p, "delta");
      Lookups(delta, "text");
      Word(delta, {"text_delta"});
    case BlockStopTag => Lookups(p, "index");
    case DeltaTag =>
      Lookups(p, "delta");
      Lookups(delta, "stop_reason");
      Lookups(delta, "stop_sequence");
      Lookups(p, "usage");
    case StopTag =>
    case ErrorTag =>
      Lookups(p, "error");
      Lookups(error, "message");
      Lookups(error, "type");
      Lookups(error, "code");
      if e.Failure? {
        FirstIff([TextOr(error, "message"), TextOr(p, "message"), "upstream streaming error"], e.message);
        FirstIff([TextOr(error, "type"), TextOr(error, "code")], e.code);
      }
    case PingTag =>
  }

  /** Exactly which frames read as a given Messages event. */
  lemma MessagesReadIff(f: Frame, e: M.In)
    requires !e.Skip?
    ensures M.Read(f) == Ok(e) <==> IsRead(f) && GoesBy(f, MessagesName(e)) && MessagesPayload(f.data.fields, e)
  {
    hide M.TagOf, M.NameOf, M.ReadDoc, Kind, GoesBy, MessagesPayload, MessagesName, MessagesTagOf, IsPing;
    if IsRead(f) {
      var kind := Kind(f);
      GoesByKind(f, MessagesName(e));
      MessagesNameOf(e);
      MessagesTag(kind, MessagesTagOf(e));
      var tag := M.TagOf(kind);
      if tag.Some? {
        MessagesDoc(f.data.fields, tag.value, e);
      }
    }
  }

  // ----- Responses -----

  ghost predicate ResponsesPayload(p: Fields, e: R.In) {
    var response, part := Inner(p, "response"), Inner(p, "part");
    match e
    case Skip => false
    case Ping => false
    case Created(id, model, usage) =>
      HoldsText(response, "id", id) && HoldsText(response, "model", model) && HoldsUsage(response, usage)
    case ItemAdded(id, role) => HoldsText(Inner(p, "item"), "id", id) && HoldsText(Inner(p, "item"), "role", role)
    case PartAdded(index) => HoldsIndex(p, "content_index", index) && IsWord(part, "type", {"output_text", "text"})
    case TextDelta(index, text) => HoldsIndex(p, "content_index", index) && text != "" && HoldsText(p, "delta", text)
    case TextDone(index, text) => HoldsIndex(p, "content_index", index) && HoldsText(p, "text", text)
    case PartDone(index, text) =>
      && HoldsIndex(p, "content_index", index)
      && (if IsWord(part, "type", {"output_text", "text"}) then HoldsText(part, "text", text) else text == "")
    case Completed(id, model, usage, stopReason, stopSequence) =>
      && HoldsText(response, "id", id) && HoldsText(response, "model", model) && HoldsUsage(response, usage)
      && HoldsText(response, "stop_reason", stopReason) && HoldsValue(response, "stop_sequence", stopSequence)
    case Failure(message) =>
      First([TextOr(Inner(p, "error"), "message"), TextOr(Inner(response, "error"), "message"), TextOr(p, "message"),
             "upstream streaming error"], message)
  }

  ghost predicate ResponsesName(e: R.In, kind: string) {
    match e
    case Skip => false
    case Ping => false
    case Created(_, _, _) => kind == "response.created"
    case ItemAdded(_, _) => kind == "response.output_item.added"
    case PartAdded(_) => kind == "response.content_part.added"
    case TextDelta(_, _) => kind == "response.output_text.delta"
    case TextDone(_, _) => kind == "response.output_text.done"
    case PartDone(_, _) => kind == "response.content_part.done"
    case Completed(_, _, _, _, _) => kind == "response.completed"
    case Failure(_) => kind == "response.failed" || kind == "error"
  }

  lemma ResponsesTag(kind: string, tag: R.Tag)
    ensures R.TagOf(kind) == Some(tag) <==> kind == R.NameOf(tag) && tag != R.ItemDoneTag
  {
  }

  function ResponsesTags(e: R.In): set<R.Tag>
    requires !e.Skip? && !e.Ping?
  {
    match e
    case Created(_, _, _) => {R.CreatedTag}
    case ItemAdded(_, _) => {R.ItemAddedTag}
    case PartAdded(_) => {R.PartAddedTag}
    case TextDelta(_, _) => {R.DeltaTag}
    case TextDone(_, _) => {R.TextDoneTag}
    case PartDone(_, _) => {R.PartDoneTag}
    case Completed(_, _, _, _, _) => {R.CompletedTag}
    case Failure(_) => {R.FailedTag, R.ErrorTag}
  }

  lemma ResponsesNames(e: R.In, kind: string)
    requires !e.Skip? && !e.Ping?
    ensures ResponsesName(e, kind) <==> R.TagOf(kind).Some? && R.TagOf(kind).value in ResponsesTags(e)
  {
    forall tag: R.Tag ensures R.TagOf(kind) == Some(tag) <==> kind == R.NameOf(tag) && tag != R.ItemDoneTag {
      ResponsesTag(kind, tag);
    }
    hide R.TagOf;
    assert R.NameOf(R.FailedTag) == "response.failed" && R.NameOf(R.ErrorTag) == "error";
    match e
    case Created(_, _, _) => assert R.NameOf(R.CreatedTag) == "response.created";
    case ItemAdded(_, _) => assert R.NameOf(R.ItemAddedTag) == "response.output_item.added";
    case PartAdded(_) => assert R.NameOf(R.PartAddedTag) == "response.content_part.added";
    case TextDelta(_, _) => assert R.NameOf(R.DeltaTag) == "response.output_text.delta";
    case TextDone(_, _) => assert R.NameOf(R.TextDoneTag) == "response.output_text.done";
    case PartDone(_, _) => assert R.NameOf(R.PartDoneTag) == "response.content_part.done";
    case Completed(_, _, _, _, _) => assert R.NameOf(R.CompletedTag) == "response.completed";
    case Failure(_) =>
  }

  lemma TextPartIff(part: Fields)
    ensures R.IsTextPart(part) <==> IsWord(part, "type", {"output_text", "text"})
  {
    hide TrimSpace;
    Word(part, {"output_text", "text"});
  }

  lemma ResponsesDoc(p: Fields, tag: R.Tag, e: R.In)
    requires !e.Skip? && !e.Ping? && tag != R.ItemDoneTag
    ensures R.ReadDoc(tag, p) == e <==> tag in ResponsesTags(e) && ResponsesPayload(p, e)
  {
    hide Get, AsString, AsObject, IntValue, UsageOf, HoldsText, HoldsIndex, HoldsUsage, HoldsValue, IsWord, Inner,
         TextOr, First, FirstNonEmpty, R.IsTextPart;
    var response, part := Inner(p, "response"), Inner(p, "part");
    Lookups(p, "response");
    Lookups(p, "part");
    Lookups(p, "content_index");
    TextPartIff(part);
    match tag
    case CreatedTag =>
      Lookups(response, "id");
      Lookups(response, "model");
      Lookups(response, "usage");
    case ItemAddedTag =>
      Lookups(p, "item");
      Lookups(Inner(p, "item"), "id");
      Lookups(Inner(p, "item"), "role");
    case PartAddedTag =>
    case DeltaTag => Lookups(p, "delta");
    case TextDoneTag => Lookups(p, "text");
    case PartDoneTag => Lookups(part, "text");
    case CompletedTag =>
      Lookups(response, "id");
      Lookups(response, "model");
      Lookups(response, "usage");
      Lookups(response, "stop_reason");
      Lookups(response, "stop_sequence");
    case _ =>
      Lookups(p, "error");
      Lookups(p, "message");
      Lookups(response, "error");
      Lookups(Inner(p, "error"), "message");
      Lookups(Inner(response, "error"), "message");
      match e {
        case Failure(message) =>
          FirstIff([TextOr(Inner(p, "error"), "message"), TextOr(Inner(response, "error"), "message"),
                    TextOr(p, "message"), "upstream streaming error"], message);
        case _ =>
      }
  }

  /** Exactly which frames read as a given Responses event. */
  lemma ResponsesReadIff(f: Frame, e: R.In, kind: string)
    requires !e.Skip? && !e.Ping? && (f.data.Doc? ==> GoesBy(f, kind))
    ensures R.Read(f) == Ok(e) <==> IsRead(f) && ResponsesName(e, kind) && ResponsesPayload(f.data.fields, e)
  {
    hide R.TagOf, R.ReadDoc, Kind, GoesBy, ResponsesPayload, ResponsesName, ResponsesTags, IsPing;
    if IsRead(f) {
      GoesByKind(f, kind);
      ResponsesNames(e, kind);
      var tag := R.TagOf(kind);
      if tag.Some? {
        ResponsesTag(kind, tag.value);
        ResponsesDoc(f.data.fields, tag.value, e);
      }
    }
  }

  /** A Responses ping is recognised by its name alone, in any mixture of cases. */
  lemma PingIff(f: Frame)
    ensures R.Read(f) == Ok(R.Ping) <==>
            |f.name| == 4 && f.name[0] in "pP" && f.name[1] in "iI" && f.name[2] in "nN" && f.name[3] in "gG"
  {
    hide R.TagOf, Kind, FirstNonEmpty;
  }
}
