/** The two converters of complete responses, one after the other: what returns, and exactly when it is what was
    sent. */
module BatchRoundTrip {
  import opened Text
  import opened Json
  import opened Batch
  import V = Conversation
  import C = ConversationRoundTrip
  import Sse

  // ----- `ConvertResponsesResponseToMessagesResponse` -----

  /** `convertResponsesOutputToAnthropicContent` on one output item. */
  function ItemBlocks(c: Codec, raw: Json): seq<Json> {
    if !raw.Obj? then [] else
      var item, kind := raw.fields, V.KindOf(raw.fields);
      if kind == "message" then
        var content := V.MessageContent(Get(item, "content"));
        if content.Arr? then content.items else []
      else if kind == "function_call" then [V.ToolUse(c, item)]
      else if kind == "output_text" || kind == "text" then
        var text := AsString(Get(item, "text"));
        if Blank(text) then [] else [V.TextBlock(text)]
      else []
  }

  function AllBlocks(c: Codec, output: seq<Json>): seq<Json> {
    if output == [] then [] else ItemBlocks(c, output[0]) + AllBlocks(c, output[1..])
  }

  method ConvertOutput(c: Codec, output: seq<Json>) returns (content: seq<Json>)
    ensures content == AllBlocks(c, output)
  {
    hide V.KindOf, V.MessageContent, V.ToolUse, V.TextBlock, Blank;
    content := [];
    for i := 0 to |output|
      invariant content + AllBlocks(c, output[i..]) == AllBlocks(c, output)
    {
      assert output[i..][0] == output[i] && output[i..][1..] == output[i + 1..];
      ghost var before, rest := content, AllBlocks(c, output[i + 1..]);
      Sse.Assoc(before, ItemBlocks(c, output[i]), rest);
      if !output[i].Obj? {
        assert content == before + ItemBlocks(c, output[i]);
        continue;
      }
      var item := output[i].fields;
      var kind := V.KindOf(item);
      if kind == "message" {
        var blocks := V.MessageContent(Get(item, "content"));
        if blocks.Arr? {
          content := content + blocks.items;
        }
      } else if kind == "function_call" {
        content := content + [V.ToolUse(c, item)];
      } else if kind == "output_text" || kind == "text" {
        var text := AsString(Get(item, "text"));
        if Blank(text) {
          assert content == before + ItemBlocks(c, output[i]);
          continue;
        }
        content := content + [V.TextBlock(text)];
      }
      assert content == before + ItemBlocks(c, output[i]);
    }
  }

  /** The content of a response; `output_text` serves when the output gives none. */
  function ContentOf(c: Codec, payload: Fields): seq<Json> {
    var output := Get(payload, "output");
    var content := if output.Arr? then AllBlocks(c, output.items) else [];
    var text := TrimSpace(AsString(Get(payload, "output_text")));
    if content == [] && text != "" then [V.TextBlock(text)] else content
  }

  function StopReasonOf(payload: Fields): string {
    var reason := TrimSpace(AsString(Get(payload, "stop_reason")));
    if reason == "" then "end_turn" else reason
  }

  /** Copies a key when there is one. */
  function Copied(o: Fields, payload: Fields, key: string): Fields {
    if key in payload then o[key := payload[key]] else o
  }

  function ConvertBack(c: Codec, payload: Fields): Fields {
    var base := map["id" := Get(payload, "id"), "type" := Str("message"), "role" := Str("assistant"),
                    "model" := Get(payload, "model"), "content" := Arr(ContentOf(c, payload))];
    Copied(Copied(base, payload, "usage")["stop_reason" := Str(StopReasonOf(payload))], payload, "stop_sequence")
  }

  // ----- what returns -----

  /** A block there and back: no object is dropped, a text block keeps its text, every other block is unchanged. */
  lemma BlockReturns(raw: Json)
    ensures V.ContentBlocks(OutputBlock(raw)) == if raw.Obj? then [C.Plain(raw)] else []
  {
    if raw.Obj? {
      var text := AsString(Get(raw.fields, "text"));
      var o := OutputText(text);
      assert AsString(Get(o.fields, "type")) == "output_text" && AsString(Get(o.fields, "text")) == text;
      Trimmed();
      assert V.ContentBlock(o) == V.TextBlock(text);
      hide V.TextBlock, OutputText, TrimSpace;
      assert V.ContentBlocks([V.TextBlock(text)][1..]) == [];
    }
  }

  lemma Trimmed()
    ensures TrimSpace("output_text") == "output_text" && TrimSpace("message") == "message"
  {
    assert !IsSpace("output_text"[0]) && !IsSpace("output_text"[|"output_text"| - 1]);
    assert !IsSpace("message"[0]) && !IsSpace("message"[|"message"| - 1]);
  }

  /** The objects of a content list, each with only its text if it is a text block. */
  function PlainObjects(content: seq<Json>): seq<Json> {
    if content == [] then []
    else (if content[0].Obj? then [C.Plain(content[0])] else []) + PlainObjects(content[1..])
  }

  lemma {:induction false} ContentReturns(content: seq<Json>)
    ensures V.ContentBlocks(OutputBlocks(content)) == PlainObjects(content)
  {
    hide OutputBlock, V.ContentBlock, C.Plain;
    if content != [] {
      BlockReturns(content[0]);
      ContentReturns(content[1..]);
      C.ContentBlocksConcat(OutputBlock(content[0]), OutputBlocks(content[1..]));
    }
  }

  lemma ItemFields(payload: Fields)
    ensures OutputItem(payload).Obj?
    ensures AsString(Get(OutputItem(payload).fields, "type")) == "message"
    ensures Get(OutputItem(payload).fields, "content") == Arr(OutputContent(Get(payload, "content")))
  {
    hide OutputContent, FirstNonEmpty;
  }

  lemma ItemReturns(c: Codec, payload: Fields)
    ensures ItemBlocks(c, OutputItem(payload)) == V.ContentBlocks(OutputContent(Get(payload, "content")))
  {
    ItemFields(payload);
    Trimmed();
    hide OutputItem, OutputContent, TrimSpace, V.ContentBlocks;
  }

  /** The single output item of a converted response gives the content back. */
  lemma OutputReturns(c: Codec, payload: Fields)
    ensures ContentOf(c, ConvertResponse(payload)) == V.ContentBlocks(OutputContent(Get(payload, "content")))
  {
    var item, response := OutputItem(payload), ConvertResponse(payload);
    ItemReturns(c, payload);
    ResponseFields(payload);
    NoText();
    hide OutputItem, OutputContent, TrimSpace, V.ContentBlocks, ItemBlocks, ConvertResponse;
    assert [item][1..] == [] && AllBlocks(c, []) == [];
    assert ItemBlocks(c, item) + [] == ItemBlocks(c, item);
    assert AllBlocks(c, [item]) == ItemBlocks(c, item);
  }

  lemma NoText()
    ensures TrimSpace("") == ""
  {
  }

  /** A complete message as the Messages API documents it. */
  function MessageBody(id: Json, model: Json, role: string, content: seq<Json>, usage: Option<Json>, stopReason: string,
                       stopSequence: Option<Json>): Fields
  {
    var base := map["id" := id, "type" := Str("message"), "role" := Str(role), "model" := model,
                    "content" := Arr(content)];
    var counted := if usage.Some? then base["usage" := usage.value] else base;
    var stopped := counted["stop_reason" := Str(stopReason)];
    if stopSequence.Some? then stopped["stop_sequence" := stopSequence.value] else stopped
  }

  /** What comes back is a message of the assistant that ended its turn: the stop reason and sequence that were sent do
      not survive, unlike in a stream. */
  lemma MessageReturns(c: Codec, id: Json, model: Json, role: string, content: seq<Json>, usage: Option<Json>,
                       stopReason: string, stopSequence: Option<Json>)
    ensures ConvertBack(c, ConvertResponse(MessageBody(id, model, role, content, usage, stopReason, stopSequence)))
         == MessageBody(id, model, "assistant", PlainObjects(content), usage, "end_turn", None)
  {
    var body := MessageBody(id, model, role, content, usage, stopReason, stopSequence);
    var response := ConvertResponse(body);
    OutputReturns(c, body);
    ContentReturns(content);
    BodyFields(id, model, role, content, usage, stopReason, stopSequence);
    ResponseFields(body);
    assert OutputContent(Arr(content)) == OutputBlocks(content);
    hide ConvertResponse, MessageBody, OutputContent, ContentOf;
    NoText();
    assert StopReasonOf(response) == "end_turn";
    BodyOfMessage(id, model, PlainObjects(content), usage);
  }

  lemma BodyFields(id: Json, model: Json, role: string, content: seq<Json>, usage: Option<Json>, stopReason: string,
                   stopSequence: Option<Json>)
    ensures var body := MessageBody(id, model, role, content, usage, stopReason, stopSequence);
            && Get(body, "id") == id && Get(body, "model") == model && Get(body, "content") == Arr(content)
            && ("usage" in body <==> usage.Some?) && (usage.Some? ==> body["usage"] == usage.value)
            && Get(body, "role") == Str(role) && Get(body, "stop_reason") == Str(stopReason)
            && ("stop_sequence" in body <==> stopSequence.Some?)
            && (stopSequence.Some? ==> body["stop_sequence"] == stopSequence.value)
  {
  }

  lemma ResponseFields(payload: Fields)
    ensures var response := ConvertResponse(payload);
            && Get(response, "id") == Get(payload, "id") && Get(response, "model") == Get(payload, "model")
            && ("usage" in response <==> "usage" in payload)
            && ("usage" in payload ==> response["usage"] == payload["usage"])
            && Get(response, "stop_reason") == Null && "stop_sequence" !in response
            && Get(response, "output") == Arr([OutputItem(payload)]) && Get(response, "output_text") == Null
  {
    hide OutputItem;
  }

  lemma BodyOfMessage(id: Json, model: Json, content: seq<Json>, usage: Option<Json>)
    ensures MessageBody(id, model, "assistant", content, usage, "end_turn", None)
         == (var base := map["id" := id, "type" := Str("message"), "role" := Str("assistant"), "model" := model,
                             "content" := Arr(content)];
             (if usage.Some? then base["usage" := usage.value] else base)["stop_reason" := Str("end_turn")])
  {
  }

  /** A block that returns as it was. */
  predicate Returns(block: Json) {
    block.Obj? && C.Plain(block) == block
  }

  lemma {:induction false} PlainObjectsIff(content: seq<Json>)
    ensures |PlainObjects(content)| <= |content|
    ensures PlainObjects(content) == content <==> forall k | 0 <= k < |content| :: Returns(content[k])
  {
    hide C.Plain;
    if content != [] {
      var rest := content[1..];
      PlainObjectsIff(rest);
      assert content == [content[0]] + rest;
      assert forall k | 0 <= k < |rest| :: rest[k] == content[k + 1];
      if content[0].Obj? {
        assert PlainObjects(content)[0] == C.Plain(content[0]) && PlainObjects(content)[1..] == PlainObjects(rest);
        if forall k | 0 <= k < |content| :: Returns(content[k]) {
          assert Returns(content[0]) && forall k | 0 <= k < |rest| :: Returns(rest[k]);
        }
        if PlainObjects(content) == content {
          assert forall k | 0 < k < |content| :: content[k] == rest[k - 1];
        }
      } else {
        assert !Returns(content[0]);
      }
    }
  }

  /** Complete messages return as they were sent exactly when they are the assistant's, ended their turn without a stop
      sequence, and hold only blocks that return. */
  lemma BatchRoundTripIff(c: Codec, id: Json, model: Json, role: string, content: seq<Json>, usage: Option<Json>,
                          stopReason: string, stopSequence: Option<Json>)
    ensures ConvertBack(c, ConvertResponse(MessageBody(id, model, role, content, usage, stopReason, stopSequence)))
         == MessageBody(id, model, role, content, usage, stopReason, stopSequence)
       <==> && role == "assistant" && stopReason == "end_turn" && stopSequence.None?
            && forall k | 0 <= k < |content| :: Returns(content[k])
  {
    MessageReturns(c, id, model, role, content, usage, stopReason, stopSequence);
    PlainObjectsIff(content);
    BodyFields(id, model, role, content, usage, stopReason, stopSequence);
    BodyFields(id, model, "assistant", PlainObjects(content), usage, "end_turn", None);
    hide MessageBody, ConvertBack, ConvertResponse, PlainObjects, Returns;
  }
}
