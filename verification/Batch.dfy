/** The non-streaming converter `ConvertMessagesResponseToResponsesResponse`, and that the streaming
    converter gives the same answer for a text message sent piece by piece. */
module Batch {
  import opened Text
  import opened Json
  import opened Blocks
  import M = MessagesEvents
  import There = ToResponses
  import Order = ResponsesOrder
  import R = ResponsesEvents
  import RoundTrip
  import Sse

  // ----- the non-streaming converter -----

  function OutputText(text: string): Json {
    Obj(map["type" := Str("output_text"), "text" := Str(text)])
  }

  /** `convertAnthropicContentToResponsesOutputContent` on one entry: an entry that is not an object is
      dropped, a text block becomes output_text, other blocks are copied. */
  function OutputBlock(raw: Json): seq<Json> {
    if !raw.Obj? then []
    else if TrimSpace(AsString(Get(raw.fields, "type"))) == "text" then [OutputText(AsString(Get(raw.fields, "text")))]
    else [raw]
  }

  function OutputBlocks(content: seq<Json>): seq<Json> {
    if content == [] then [] else OutputBlock(content[0]) + OutputBlocks(content[1..])
  }

  function OutputContent(value: Json): seq<Json> {
    if value.Arr? then OutputBlocks(value.items) else
      var text := TrimSpace(AsString(value));
      if text == "" then [] else [OutputText(text)]
  }

  method ConvertOutputBlocks(content: seq<Json>) returns (out: seq<Json>)
    ensures out == OutputBlocks(content)
  {
    hide OutputBlock;
    out := [];
    for i := 0 to |content|
      invariant out + OutputBlocks(content[i..]) == OutputBlocks(content)
    {
      assert content[i..][1..] == content[i + 1..];
      var block := ConvertOutputBlock(content[i]);
      Sse.Assoc(out, block, OutputBlocks(content[i + 1..]));
      out := out + block;
    }
  }

  method ConvertOutputBlock(raw: Json) returns (out: seq<Json>)
    ensures out == OutputBlock(raw)
  {
    out := [];
    if raw.Obj? {
      if TrimSpace(AsString(Get(raw.fields, "type"))) == "text" {
        out := [OutputText(AsString(Get(raw.fields, "text")))];
      } else {
        out := [raw];
      }
    }
  }

  function OutputItem(payload: Fields): Json {
    Obj(map["type" := Str("message"),
            "role" := Str(FirstNonEmpty([AsString(Get(payload, "role")), "assistant"])),
            "content" := Arr(OutputContent(Get(payload, "content")))])
  }

  /** The converted body of a complete response. */
  function ConvertResponse(payload: Fields): Fields {
    var base := map["id" := Get(payload, "id"), "object" := Str("response"), "model" := Get(payload, "model"),
                    "output" := Arr([OutputItem(payload)]), "status" := Str("completed")];
    if "usage" in payload then base["usage" := payload["usage"]] else base
  }

  // ----- the message a text stream stands for -----

  function TextBlock(text: string): Json {
    Obj(map["type" := Str("text"), "text" := Str(text)])
  }

  /** The content a client assembles from the events: one text block for each of the indexes below `n`. */
  function AssembledContent(body: seq<M.In>, n: nat): (content: seq<Json>)
    ensures |content| == n
    ensures forall k | 0 <= k < n :: content[k] == TextBlock(Order.InputText(body, k))
  {
    if n == 0 then [] else AssembledContent(body, n - 1) + [TextBlock(Order.InputText(body, n - 1))]
  }

  function Assembled(start: M.In, body: seq<M.In>, n: nat): Fields
    requires start.Start?
  {
    map["id" := Str(start.id), "type" := Str("message"), "role" := Str(start.role), "model" := Str(start.model),
        "content" := Arr(AssembledContent(body, n))]
  }

  // ----- what a client reads from a response -----

  function ItemTexts(blocks: seq<Json>): (texts: seq<string>)
    ensures |texts| == |blocks|
    ensures forall k | 0 <= k < |blocks| :: texts[k] == AsString(Get(AsObject(blocks[k]), "text"))
  {
    if blocks == [] then [] else [AsString(Get(AsObject(blocks[0]), "text"))] + ItemTexts(blocks[1..])
  }

  /** The texts of the first output item of a response. */
  function ResponseTexts(response: Fields): seq<string> {
    match Get(response, "output")
    case Arr(items) =>
      if items == [] then [] else
        (match Get(AsObject(items[0]), "content")
         case Arr(blocks) => ItemTexts(blocks)
         case _ => [])
    case _ => []
  }

  function ResponseRole(response: Fields): string {
    match Get(response, "output")
    case Arr(items) => if items == [] then "" else AsString(Get(AsObject(items[0]), "role"))
    case _ => ""
  }

  lemma {:induction false} OutputBlocksOfText(content: seq<Json>)
    requires forall k | 0 <= k < |content| ::
               content[k].Obj? && content[k] == TextBlock(AsString(Get(content[k].fields, "text")))
    ensures |OutputBlocks(content)| == |content|
    ensures forall k | 0 <= k < |content| ::
              AsString(Get(AsObject(OutputBlocks(content)[k]), "text")) == AsString(Get(AsObject(content[k]), "text"))
  {
    if content != [] {
      var text := AsString(Get(content[0].fields, "text"));
      TextBlockFields(text);
      assert OutputBlocks(content) == [OutputText(text)] + OutputBlocks(content[1..]);
      OutputBlocksOfText(content[1..]);
    }
  }

  lemma TextBlockFields(text: string)
    ensures TrimSpace(AsString(Get(TextBlock(text).fields, "type"))) == "text"
    ensures AsString(Get(TextBlock(text).fields, "text")) == text
    ensures AsString(Get(OutputText(text).fields, "text")) == text
  {
    assert AsString(Get(TextBlock(text).fields, "type")) == "text";
  }

  lemma BatchTexts(start: M.In, body: seq<M.In>, n: nat)
    requires start.Start?
    ensures var texts := ResponseTexts(ConvertResponse(Assembled(start, body, n)));
            |texts| == n && forall k | 0 <= k < n :: texts[k] == Order.InputText(body, k)
    ensures ResponseRole(ConvertResponse(Assembled(start, body, n))) == FirstNonEmpty([start.role, "assistant"])
  {
    var content := AssembledContent(body, n);
    forall k | 0 <= k < n
      ensures AsString(Get(content[k].fields, "text")) == Order.InputText(body, k)
    {
      TextBlockFields(Order.InputText(body, k));
    }
    OutputBlocksOfText(content);
    var payload := Assembled(start, body, n);
    assert Get(payload, "content") == Arr(content) && Get(payload, "role") == Str(start.role);
    hide TextBlock, OutputBlocks, FirstNonEmpty, Assembled;
    ReadConverted(payload);
  }

  lemma ReadConverted(payload: Fields)
    requires Get(payload, "content").Arr?
    ensures ResponseTexts(ConvertResponse(payload)) == ItemTexts(OutputBlocks(Get(payload, "content").items))
    ensures ResponseRole(ConvertResponse(payload)) == FirstNonEmpty([AsString(Get(payload, "role")), "assistant"])
  {
    hide ItemTexts, OutputBlocks, FirstNonEmpty;
    var item := OutputItem(payload).fields;
    assert Get(item, "content") == Arr(OutputContent(Get(payload, "content")));
    assert Get(item, "role") == Str(FirstNonEmpty([AsString(Get(payload, "role")), "assistant"]));
    ReadOutput(payload);
    hide OutputItem, ConvertResponse;
  }

  lemma ReadOutput(payload: Fields)
    ensures Get(ConvertResponse(payload), "output") == Arr([OutputItem(payload)])
  {
    hide OutputItem;
  }

  // ----- streaming refines batch -----

  lemma {:induction false} InputTextAppend(a: seq<M.In>, b: seq<M.In>, index: int)
    ensures Order.InputText(a + b, index) == Order.InputText(a, index) + Order.InputText(b, index)
  {
    if a == [] {
      assert a + b == b;
    } else {
      assert (a + b)[1..] == a[1..] + b;
      InputTextAppend(a[1..], b, index);
    }
  }

  lemma {:induction false} BodyKeepsIdentity(s: There.State, es: seq<M.In>)
    requires forall e | e in es :: !e.Start?
    ensures var t := There.Run(s, es); t.id == s.id && t.model == s.model && t.role == s.role
    decreases es
  {
    hide FirstNonEmpty;
    if es != [] {
      assert es[0] in es && forall e | e in es[1..] :: e in es;
      StepKeepsIdentity(s, es[0]);
      BodyKeepsIdentity(There.Step(s, es[0]), es[1..]);
    }
  }

  lemma StepKeepsIdentity(s: There.State, e: M.In)
    requires !e.Start?
    ensures var t := There.Step(s, e); t.id == s.id && t.model == s.model && t.role == s.role
  {
    hide FirstNonEmpty, There.Opened, There.CloseBlocks;
    OpenedKeepsIdentity(s);
    if e.Stop? {
      var o := There.Opened(s);
      CloseKeepsIdentity(o, Sorted(o.blocks.Keys));
    }
  }

  lemma OpenedKeepsIdentity(s: There.State)
    ensures var t := There.Opened(s); t.id == s.id && t.model == s.model && t.role == s.role
  {
  }

  lemma {:induction false} CloseKeepsIdentity(s: There.State, indexes: seq<int>)
    ensures var t := There.CloseBlocks(s, indexes); t.id == s.id && t.model == s.model && t.role == s.role
    decreases indexes
  {
    if indexes != [] {
      CloseKeepsIdentity(There.CloseBlock(s, indexes[0]), indexes[1..]);
    }
  }

  lemma StopIdentity(s: There.State)
    ensures var out := There.Step(s, M.Stop).out;
            out != [] && out[|out| - 1].OutCompleted?
            && out[|out| - 1].id == s.id && out[|out| - 1].model == s.model
            && out[|out| - 1].item.role == FirstNonEmpty([s.role, "assistant"])
  {
    hide FirstNonEmpty;
    var o := There.Opened(s);
    CloseKeepsIdentity(o, Sorted(o.blocks.Keys));
  }

  lemma StartIdentity(start: M.In)
    requires start.Start?
    ensures var m := There.Step(There.INIT, start);
            && m.id == FirstNonEmpty([start.id]) && m.model == FirstNonEmpty([start.model])
            && FirstNonEmpty([m.role, "assistant"]) == FirstNonEmpty([start.role, "assistant"])
  {
    RoundTrip.StartInStep(start);
    hide RoundTrip.InStep, RoundTrip.Returned;
    var role := start.role;
    NotBlank("assistant");
    FirstNonEmptyStep(role, ["assistant", "assistant"]);
    FirstNonEmptyStep(role, ["assistant"]);
    FirstNonEmptyStep("assistant", ["assistant"]);
    FirstNonEmptyStep("assistant", []);
    assert [role, "assistant", "assistant"] == [role] + ["assistant", "assistant"];
    assert ["assistant"] + ["assistant"] == ["assistant", "assistant"];
    var m := There.Step(There.INIT, start);
    assert m.role == FirstNonEmpty([role, "assistant", "assistant"]);
    FirstNonEmptyStep(m.role, ["assistant"]);
  }

  lemma FirstIndexes(indexes: seq<int>, n: nat)
    requires Ascending(indexes) && forall k :: k in indexes <==> 0 <= k < n
    ensures |indexes| == n && forall k | 0 <= k < n :: indexes[k] == k
  {
    var range: seq<int> := seq(n, i => i);
    forall k ensures k in range <==> 0 <= k < n {
      assert 0 <= k < n ==> range[k] == k;
    }
    AscendingUnique(indexes, range);
  }

  /** A stream ends with a completed event that holds the texts of a response. */
  predicate EndsTexts(out: seq<R.Out>, response: Fields) {
    out != [] && out[|out| - 1].OutCompleted? && out[|out| - 1].item.texts == ResponseTexts(response)
  }

  /** A stream ends with a completed event that has the role, id and model of a response. */
  predicate EndsIdentity(out: seq<R.Out>, response: Fields) {
    && out != [] && out[|out| - 1].OutCompleted?
    && out[|out| - 1].item.role == ResponseRole(response)
    && Str(out[|out| - 1].id) == Get(response, "id") && Str(out[|out| - 1].model) == Get(response, "model")
  }

  /** For a text message with block indexes 0..n-1, in any order and interleaving, the completed event of
      the stream holds the texts, role, id and model that the non-streaming converter gives for the
      assembled message. */
  lemma StreamingRefinesBatch(es: seq<M.In>, start: M.In, body: seq<M.In>, end: M.In, n: nat)
    requires start.Start? && end.Delta? && forall e | e in body :: RoundTrip.IsBody(e)
    requires RoundTrip.DropSkips(es) == RoundTrip.DropSkips(RoundTrip.Message(start, body, end))
    requires forall k :: Order.ReadsIndex(body, k) <==> 0 <= k < n
    requires RoundTrip.Kept(start.id) && RoundTrip.Kept(start.model)
    ensures EndsTexts(There.Run(There.INIT, es).out, ConvertResponse(Assembled(start, body, n)))
    ensures EndsIdentity(There.Run(There.INIT, es).out, ConvertResponse(Assembled(start, body, n)))
  {
    hide There.Step, RoundTrip.IsBody, EndsTexts, EndsIdentity, ResponseTexts, ResponseRole, ConvertResponse, Assembled,
         Order.ReadsIndex, RoundTrip.Kept, There.Run, RoundTrip.Message, RoundTrip.DropSkips;
    RoundTrip.RunWithoutSkips(There.INIT, es);
    RoundTrip.RunWithoutSkips(There.INIT, RoundTrip.Message(start, body, end));
    MessageTexts(start, body, end, n);
    MessageIdentity(start, body, end, n);
  }

  lemma MessageTexts(start: M.In, body: seq<M.In>, end: M.In, n: nat)
    requires start.Start? && end.Delta?
    requires forall k :: Order.ReadsIndex(body, k) <==> 0 <= k < n
    ensures EndsTexts(There.Run(There.INIT, RoundTrip.Message(start, body, end)).out,
                      ConvertResponse(Assembled(start, body, n)))
  {
    hide There.Run, RoundTrip.Message, Order.ReadsIndex, Order.InputText, ResponseTexts, ConvertResponse, Assembled;
    StreamingTexts(start, body, end, n);
    BatchTexts(start, body, n);
  }

  lemma MessageIdentity(start: M.In, body: seq<M.In>, end: M.In, n: nat)
    requires start.Start? && end.Delta? && forall e | e in body :: RoundTrip.IsBody(e)
    requires RoundTrip.Kept(start.id) && RoundTrip.Kept(start.model)
    ensures EndsIdentity(There.Run(There.INIT, RoundTrip.Message(start, body, end)).out,
                         ConvertResponse(Assembled(start, body, n)))
  {
    hide FirstNonEmpty, RoundTrip.IsBody, ResponseTexts, ResponseRole, ConvertResponse, Assembled, Blank, There.Run,
         RoundTrip.Message, Get;
    BatchTexts(start, body, n);
    StreamingIdentity(start, body, end);
    ConvertedIdentity(start, body, n);
    RoundTrip.KeptMeaning(start.id);
    RoundTrip.KeptMeaning(start.model);
  }

  lemma StreamingIdentity(start: M.In, body: seq<M.In>, end: M.In)
    requires start.Start? && end.Delta? && forall e | e in body :: RoundTrip.IsBody(e)
    ensures var out := There.Run(There.INIT, RoundTrip.Message(start, body, end)).out;
            && out != [] && out[|out| - 1].OutCompleted?
            && out[|out| - 1].id == FirstNonEmpty([start.id]) && out[|out| - 1].model == FirstNonEmpty([start.model])
            && out[|out| - 1].item.role == FirstNonEmpty([start.role, "assistant"])
  {
    hide There.Step, FirstNonEmpty;
    var m := There.Step(There.INIT, start);
    StartIdentity(start);
    BodyKeepsIdentity(m, body + [end]);
    StopIdentity(There.Run(m, body + [end]));
    RunMessage(start, body, end);
  }

  lemma ConvertedIdentity(start: M.In, body: seq<M.In>, n: nat)
    requires start.Start?
    ensures var batch := ConvertResponse(Assembled(start, body, n));
            Get(batch, "id") == Str(start.id) && Get(batch, "model") == Str(start.model)
  {
    hide OutputItem;
  }

  lemma RunMessage(start: M.In, body: seq<M.In>, end: M.In)
    ensures var es := [start] + body + [end];
            && RoundTrip.Message(start, body, end) == es + [M.Stop]
            && There.Run(There.INIT, es) == There.Run(There.Step(There.INIT, start), body + [end])
            && There.Run(There.INIT, es + [M.Stop]) == There.Step(There.Run(There.INIT, es), M.Stop)
  {
    hide There.Step;
    var es := [start] + body + [end];
    Sse.Assoc([start], body, [end]);
    There.RunAppend(There.INIT, [start], body + [end]);
    There.RunAppend(There.INIT, es, [M.Stop]);
    assert [start][1..] == [] && [M.Stop][1..] == [];
    assert There.Run(There.INIT, [start]) == There.Step(There.INIT, start);
    Sse.Assoc([start] + body, [end], [M.Stop]);
    assert [end] + [M.Stop] == [end, M.Stop];
  }

  lemma StreamingTexts(start: M.In, body: seq<M.In>, end: M.In, n: nat)
    requires start.Start? && end.Delta?
    requires forall k :: Order.ReadsIndex(body, k) <==> 0 <= k < n
    ensures var out := There.Run(There.INIT, RoundTrip.Message(start, body, end)).out;
            && out != [] && out[|out| - 1].OutCompleted?
            && |out[|out| - 1].item.texts| == n
            && forall k | 0 <= k < n :: out[|out| - 1].item.texts[k] == Order.InputText(body, k)
  {
    hide There.Step;
    var es := [start] + body + [end];
    RunMessage(start, body, end);
    var indexes := Order.CompletedText(es);
    forall k ensures k in indexes <==> 0 <= k < n {
      assert Order.ReadsIndex(body, k) <==> 0 <= k < n;
      assert forall e :: e in es <==> e == start || e in body || e == end;
    }
    FirstIndexes(indexes, n);
    forall k | 0 <= k < n ensures Order.InputText(es, indexes[k]) == Order.InputText(body, k) {
      InputTextAppend([start] + body, [end], k);
      InputTextAppend([start], body, k);
      assert [start][1..] == [] && [end][1..] == [];
    }
  }
}
