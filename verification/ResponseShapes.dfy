/** The two converters of complete responses, field by field on arbitrary payloads. */
module ResponseShapes {
  import opened Text
  import opened Json
  import opened EventReading
  import opened ConversationShapes
  import Batch
  import Back = BatchRoundTrip
  import V = Conversation
  import Sse

  /** A key that is copied when it is there and left out otherwise. */
  predicate CopiesKey(source: Fields, target: Fields, key: string) {
    (key in target <==> key in source) && (key in source ==> target[key] == source[key])
  }

  // ----- from a Messages response -----

  /** An entry of a content list: dropped when it is no object, an output_text block for a text block, or copied. */
  predicate BecomesOutputBlocks(raw: Json, blocks: seq<Json>) {
    if !raw.Obj? then blocks == []
    else if IsWord(raw.fields, "type", {"text"}) then blocks == [Shown("output_text", TextOr(raw.fields, "text"))]
    else blocks == [raw]
  }

  function Together(parts: seq<seq<Json>>): seq<Json> {
    if parts == [] then [] else parts[0] + Together(parts[1..])
  }

  /** A list entry by entry, or a text without the white space around it unless nothing is left. */
  ghost predicate OutputShows(content: Json, blocks: seq<Json>) {
    if content.Arr? then
      exists parts: seq<seq<Json>> ::
        && |parts| == |content.items| && blocks == Together(parts)
        && forall k | 0 <= k < |parts| :: BecomesOutputBlocks(content.items[k], parts[k])
    else
      var text := TrimSpace(if content.Str? then content.s else "");
      blocks == if text == "" then [] else [Shown("output_text", text)]
  }

  /** A completed response with one message item. */
  ghost predicate ResponseShows(payload: Fields, response: Fields) {
    && response.Keys <= {"id", "object", "model", "output", "status", "usage"}
    && "id" in response && response["id"] == ValueOr(payload, "id")
    && "model" in response && response["model"] == ValueOr(payload, "model")
    && "object" in response && response["object"] == Str("response")
    && "status" in response && response["status"] == Str("completed")
    && CopiesKey(payload, response, "usage")
    && "output" in response && response["output"].Arr? && |response["output"].items| == 1
    && ItemShows(payload, response["output"].items[0])
  }

  ghost predicate ItemShows(payload: Fields, item: Json) {
    && item.Obj? && item.fields.Keys == {"type", "role", "content"}
    && item.fields["type"] == Str("message")
    && item.fields["role"].Str? && First([TextOr(payload, "role"), "assistant"], item.fields["role"].s)
    && item.fields["content"].Arr? && OutputShows(ValueOr(payload, "content"), item.fields["content"].items)
  }

  lemma OutputBlockIs(raw: Json)
    ensures BecomesOutputBlocks(raw, Batch.OutputBlock(raw))
  {
    hide TrimSpace;
    if raw.Obj? {
      Word(raw.fields, {"text"});
      Lookups(raw.fields, "text");
    }
  }

  lemma {:induction false} OutputParts(content: seq<Json>) returns (parts: seq<seq<Json>>)
    ensures |parts| == |content| && Batch.OutputBlocks(content) == Together(parts)
    ensures forall k | 0 <= k < |parts| :: BecomesOutputBlocks(content[k], parts[k])
  {
    hide BecomesOutputBlocks, Batch.OutputBlock;
    parts := [];
    if content != [] {
      var rest := OutputParts(content[1..]);
      OutputBlockIs(content[0]);
      parts := [Batch.OutputBlock(content[0])] + rest;
      assert parts[1..] == rest;
      forall k | 0 <= k < |parts| ensures BecomesOutputBlocks(content[k], parts[k]) {
        if k > 0 {
          assert BecomesOutputBlocks(content[1..][k - 1], rest[k - 1]);
        }
      }
    }
  }

  lemma OutputContentIs(content: Json)
    ensures OutputShows(content, Batch.OutputContent(content))
  {
    hide TrimSpace;
    if content.Arr? {
      var parts := OutputParts(content.items);
    }
  }

  lemma OutputItemIs(payload: Fields)
    ensures ItemShows(payload, Batch.OutputItem(payload))
  {
    Lookups(payload, "role");
    OutputContentIs(ValueOr(payload, "content"));
    var role := FirstNonEmpty([TextOr(payload, "role"), "assistant"]);
    FirstIff([TextOr(payload, "role"), "assistant"], role);
    hide OutputShows, Batch.OutputContent, First, FirstNonEmpty, AsString, TextOr;
    var item := Batch.OutputItem(payload).fields;
    assert item.Keys == {"type", "role", "content"};
    assert item["type"] == Str("message") && item["role"] == Str(role);
    assert item["content"] == Arr(Batch.OutputContent(ValueOr(payload, "content")));
  }

  /** What a Messages response becomes. */
  lemma ConvertedShows(payload: Fields)
    ensures ResponseShows(payload, Batch.ConvertResponse(payload))
  {
    OutputItemIs(payload);
    hide ItemShows, Batch.OutputItem;
    var r := Batch.ConvertResponse(payload);
    assert r["id"] == ValueOr(payload, "id") && r["model"] == ValueOr(payload, "model");
    assert r["object"] == Str("response") && r["status"] == Str("completed");
    assert r["output"] == Arr([Batch.OutputItem(payload)]);
    assert "usage" in r <==> "usage" in payload;
  }

  // ----- from a Responses response -----

  /** A message gives its content, a call a tool_use block, a text item its text unless that is blank. */
  ghost predicate GivesBlocks(c: Codec, raw: Json, blocks: seq<Json>) {
    if !raw.Obj? then blocks == []
    else if IsWord(raw.fields, "type", {"message"}) then
      match ValueOr(raw.fields, "content")
      case Str(text) => blocks == if Blank(text) then [] else [Shown("text", text)]
      case Arr(entries) => |blocks| == |entries| && forall k | 0 <= k < |entries| :: BecomesBlock(entries[k], blocks[k])
      case _ => blocks == []
    else if IsWord(raw.fields, "type", {"function_call"}) then |blocks| == 1 && IsToolUse(c, raw.fields, blocks[0])
    else if IsWord(raw.fields, "type", {"output_text", "text"}) then
      blocks == if Blank(TextOr(raw.fields, "text")) then [] else [Shown("text", TextOr(raw.fields, "text"))]
    else blocks == []
  }

  /** The blocks of all output items; when they give none, the trimmed text under `output_text`. */
  ghost predicate ContentShows(c: Codec, payload: Fields, content: seq<Json>) {
    exists parts: seq<seq<Json>> ::
      && ItemsGive(c, if "output" in payload && payload["output"].Arr? then payload["output"].items else [], parts)
      && var text := TrimSpace(TextOr(payload, "output_text"));
      content == if Together(parts) == [] && text != "" then [Shown("text", text)] else Together(parts)
  }

  ghost predicate ItemsGive(c: Codec, items: seq<Json>, parts: seq<seq<Json>>) {
    |parts| == |items| && forall k | 0 <= k < |parts| :: GivesBlocks(c, items[k], parts[k])
  }

  /** A message of the assistant. */
  ghost predicate MessageShows(c: Codec, payload: Fields, message: Fields) {
    && message.Keys <= {"id", "type", "role", "model", "content", "usage", "stop_reason", "stop_sequence"}
    && "id" in message && message["id"] == ValueOr(payload, "id")
    && "model" in message && message["model"] == ValueOr(payload, "model")
    && "type" in message && message["type"] == Str("message")
    && "role" in message && message["role"] == Str("assistant")
    && CopiesKey(payload, message, "usage") && CopiesKey(payload, message, "stop_sequence")
    && "stop_reason" in message
    && (var reason := TrimSpace(TextOr(payload, "stop_reason"));
        message["stop_reason"] == Str(if reason == "" then "end_turn" else reason))
    && "content" in message && message["content"].Arr? && ContentShows(c, payload, message["content"].items)
  }

  lemma ItemGives(c: Codec, raw: Json)
    ensures GivesBlocks(c, raw, Back.ItemBlocks(c, raw))
  {
    if raw.Obj? {
      var item := raw.fields;
      WordOf(item, "message");
      WordOf(item, "function_call");
      KindIsText(item);
      ToolUseIs(c, item);
      Lookups(item, "text");
      MessageGives(ValueOr(item, "content"));
      hide IsWord, V.KindOf, V.ToolUse, IsToolUse, V.MessageContent, BecomesBlock, AsString, TextOr, Blank;
    }
  }

  lemma KindIsText(item: Fields)
    ensures IsWord(item, "type", {"output_text", "text"})
       <==> V.KindOf(item) == "output_text" || V.KindOf(item) == "text"
  {
    hide TrimSpace;
    TrimNothing();
    Word(item, {"output_text", "text"});
  }

  lemma MessageGives(content: Json)
    ensures content.Str? ==>
              V.MessageContent(content) == Arr(if Blank(content.s) then [] else [Shown("text", content.s)])
    ensures content.Arr? ==>
              && V.MessageContent(content).Arr? && |V.MessageContent(content).items| == |content.items|
              && forall k | 0 <= k < |content.items| ::
                   BecomesBlock(content.items[k], V.MessageContent(content).items[k])
    ensures !content.Str? && !content.Arr? ==> !V.MessageContent(content).Arr?
  {
    hide BecomesBlock, V.ContentBlock, Blank;
    if content.Arr? {
      forall k | 0 <= k < |content.items| ensures BecomesBlock(content.items[k], V.ContentBlock(content.items[k])) {
        EntryBecomes(content.items[k]);
      }
    }
  }

  lemma {:induction false} OutputGives(c: Codec, output: seq<Json>) returns (parts: seq<seq<Json>>)
    ensures ItemsGive(c, output, parts) && Back.AllBlocks(c, output) == Together(parts)
  {
    hide GivesBlocks, Back.ItemBlocks;
    parts := [];
    if output != [] {
      var rest := OutputGives(c, output[1..]);
      ItemGives(c, output[0]);
      parts := [Back.ItemBlocks(c, output[0])] + rest;
      assert parts[1..] == rest;
      forall k | 0 <= k < |parts| ensures GivesBlocks(c, output[k], parts[k]) {
        if k > 0 {
          assert GivesBlocks(c, output[1..][k - 1], rest[k - 1]);
        }
      }
    }
  }

  lemma ContentIs(c: Codec, payload: Fields)
    ensures ContentShows(c, payload, Back.ContentOf(c, payload))
  {
    Lookups(payload, "output_text");
    hide ItemsGive, TrimSpace, AsString, TextOr, Back.AllBlocks;
    var items := if "output" in payload && payload["output"].Arr? then payload["output"].items else [];
    var parts := OutputGives(c, items);
    assert Back.AllBlocks(c, items) == Together(parts);
    NoItems(c);
  }

  lemma NoItems(c: Codec)
    ensures Back.AllBlocks(c, []) == []
  {
  }

  lemma StopReasonIs(payload: Fields)
    ensures var reason := TrimSpace(TextOr(payload, "stop_reason"));
            Back.StopReasonOf(payload) == if reason == "" then "end_turn" else reason
  {
    hide TrimSpace;
    Lookups(payload, "stop_reason");
  }

  /** What a Responses response becomes. */
  lemma ConvertedBackShows(c: Codec, payload: Fields)
    ensures MessageShows(c, payload, Back.ConvertBack(c, payload))
  {
    ContentIs(c, payload);
    StopReasonIs(payload);
    hide ContentShows, Back.ContentOf, Back.StopReasonOf, TrimSpace, TextOr;
    var m := Back.ConvertBack(c, payload);
    assert m["id"] == ValueOr(payload, "id") && m["model"] == ValueOr(payload, "model");
    assert m["type"] == Str("message") && m["role"] == Str("assistant");
    assert m["content"] == Arr(Back.ContentOf(c, payload));
    assert m["stop_reason"] == Str(Back.StopReasonOf(payload));
    assert CopiesKey(payload, m, "usage") && CopiesKey(payload, m, "stop_sequence");
  }
}
