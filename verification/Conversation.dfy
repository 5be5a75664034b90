/** Request conversion: Anthropic messages become Responses input items, and back. */
module Conversation {
  import opened Text
  import opened Json
  import opened Grouping
  import Sse

  function KindOf(o: Fields): string {
    TrimSpace(AsString(Get(o, "type")))
  }

  function RoleOf(o: Fields): string {
    FirstNonEmpty([AsString(Get(o, "role")), "user"])
  }

  function TextBlock(text: string): Json {
    Obj(map["type" := Str("text"), "text" := Str(text)])
  }

  // ----- from messages to items -----

  /** `convertAnthropicContentBlockToResponsesInputBlock`, on any list entry. */
  function InputBlock(raw: Json): seq<Json> {
    if !raw.Obj? then [raw] else
      var kind := KindOf(raw.fields);
      if kind == "text" then
        [Obj(map["type" := Str("input_text"), "text" := Str(AsString(Get(raw.fields, "text")))])]
      else if kind == "tool_use" || kind == "tool_result" then []
      else [raw]
  }

  function InputBlocks(content: seq<Json>): seq<Json> {
    if content == [] then [] else InputBlock(content[0]) + InputBlocks(content[1..])
  }

  function ToolCall(c: Codec, block: Fields): Json {
    Obj(map["type" := Str("function_call"), "call_id" := Get(block, "id"), "name" := Get(block, "name"),
            "arguments" := Str(if "input" in block then c.enc(block["input"]) else "{}")])
  }

  /** `convertAnthropicToolResultContentToResponsesOutput`. */
  function ResultOutput(content: Json): Json {
    if !content.Arr? then content
    else if |content.items| == 1 && content.items[0].Obj? && KindOf(content.items[0].fields) == "text" then
      Str(AsString(Get(content.items[0].fields, "text")))
    else Arr(InputBlocks(content.items))
  }

  function ToolOutput(block: Fields): Json {
    Obj(map["type" := Str("function_call_output"), "call_id" := Get(block, "tool_use_id"),
            "output" := ResultOutput(Get(block, "content"))])
  }

  /** The pending blocks as a message item, unless there are none. */
  function MessageItem(role: string, blocks: seq<Json>): seq<Json> {
    if blocks == [] then []
    else [Obj(map["type" := Str("message"), "role" := Str(role), "content" := Arr(blocks)])]
  }

  /** The items of a content list, with the blocks collected since the last tool block. */
  function ItemsFrom(c: Codec, role: string, pending: seq<Json>, content: seq<Json>): seq<Json>
    decreases content
  {
    if content == [] then MessageItem(role, pending) else
      var raw, rest := content[0], content[1..];
      if raw.Obj? && KindOf(raw.fields) == "tool_use" then
        MessageItem(role, pending) + [ToolCall(c, raw.fields)] + ItemsFrom(c, role, [], rest)
      else if raw.Obj? && KindOf(raw.fields) == "tool_result" then
        MessageItem(role, pending) + [ToolOutput(raw.fields)] + ItemsFrom(c, role, [], rest)
      else ItemsFrom(c, role, pending + InputBlock(raw), rest)
  }

  function TextInput(text: string): seq<Json> {
    if Blank(text) then [] else [Obj(map["type" := Str("input_text"), "text" := Str(text)])]
  }

  /** `convertAnthropicMessageToResponsesItems`. */
  function MessageItems(c: Codec, role: string, content: Json): seq<Json> {
    if content.Arr? then ItemsFrom(c, role, [], content.items)
    else MessageItem(role, TextInput(AsString(content)))
  }

  function InputOf(c: Codec, message: Json): seq<Json> {
    if !message.Obj? then [message]
    else MessageItems(c, RoleOf(message.fields), Get(message.fields, "content"))
  }

  /** `convertAnthropicMessagesToResponsesInput` on a list of messages. */
  function ToInput(c: Codec, messages: seq<Json>): seq<Json> {
    if messages == [] then [] else InputOf(c, messages[0]) + ToInput(c, messages[1..])
  }

  // ----- from items to messages -----

  /** `convertResponsesContentToAnthropicContent` on one list entry. */
  function ContentBlock(raw: Json): Json {
    if !raw.Obj? then raw else
      var kind := KindOf(raw.fields);
      if kind == "input_text" || kind == "output_text" || kind == "text" then
        TextBlock(AsString(Get(raw.fields, "text")))
      else raw
  }

  function ContentBlocks(content: seq<Json>): (blocks: seq<Json>)
    ensures |blocks| == |content|
    ensures forall i | 0 <= i < |content| :: blocks[i] == ContentBlock(content[i])
  {
    if content == [] then [] else [ContentBlock(content[0])] + ContentBlocks(content[1..])
  }

  function MessageContent(content: Json): Json {
    match content
    case Str(s) => Arr(if Blank(s) then [] else [TextBlock(s)])
    case Arr(items) => Arr(ContentBlocks(items))
    case _ => content
  }

  function DecodedArguments(c: Codec, text: string): Fields {
    var arguments := TrimSpace(text);
    if arguments == "" then map[] else
      match c.dec(arguments)
      case Some(Obj(o)) => o
      case _ => map[]
  }

  function ToolUse(c: Codec, item: Fields): Json {
    Obj(map["type" := Str("tool_use"),
            "id" := Str(FirstNonEmpty([AsString(Get(item, "call_id")), AsString(Get(item, "id"))])),
            "name" := Get(item, "name"),
            "input" := Obj(DecodedArguments(c, AsString(Get(item, "arguments"))))])
  }

  function ToolResult(item: Fields): Json {
    var output := Get(item, "output");
    Obj(map["type" := Str("tool_result"), "tool_use_id" := Get(item, "call_id"),
            "content" := if output.Arr? then MessageContent(output) else output])
  }

  /** What one input object contributes. */
  function ItemTurns(c: Codec, item: Fields): seq<Turn> {
    var kind := KindOf(item);
    if kind == "function_call" then [Turn("assistant", ToolUse(c, item))]
    else if kind == "function_call_output" then [Turn("user", ToolResult(item))]
    else if "content" in item then
      var content := MessageContent(item["content"]);
      if content.Arr? then TurnsOf(RoleOf(item), content.items) else []
    else if AsString(Get(item, "text")) != "" then [Turn(RoleOf(item), TextBlock(AsString(Get(item, "text"))))]
    else []
  }

  function UserText(text: string): Message {
    Message("user", [TextBlock(text)])
  }

  /** One step of `convertResponsesInputToAnthropicMessages`: a bare string always starts a message. */
  function TakeItem(c: Codec, messages: seq<Message>, raw: Json): seq<Message> {
    match raw
    case Str(text) => messages + [UserText(text)]
    case Obj(item) =>
      var kind := KindOf(item);
      if kind == "function_call" then AppendContent(messages, "assistant", [ToolUse(c, item)])
      else if kind == "function_call_output" then AppendContent(messages, "user", [ToolResult(item)])
      else if "content" in item then
        var content := MessageContent(item["content"]);
        if content.Arr? then AppendContent(messages, RoleOf(item), content.items) else messages
      else if AsString(Get(item, "text")) != "" then
        AppendContent(messages, RoleOf(item), [TextBlock(AsString(Get(item, "text")))])
      else messages
    case _ => messages
  }

  function FromInput(c: Codec, messages: seq<Message>, items: seq<Json>): seq<Message>
    decreases items
  {
    if items == [] then messages else FromInput(c, TakeItem(c, messages, items[0]), items[1..])
  }

  /** The messages of an input that is a string, a list, or missing. */
  function MessagesOf(c: Codec, input: Json): seq<Message> {
    match input
    case Str(text) => [UserText(text)]
    case Arr(items) => FromInput(c, [], items)
    case _ => []
  }

  // ----- the converters as the source writes them -----

  method ConvertMessage(c: Codec, role: string, content: seq<Json>) returns (items: seq<Json>)
    ensures items == ItemsFrom(c, role, [], content)
  {
    items := [];
    var blocks := [];
    for i := 0 to |content|
      invariant items + ItemsFrom(c, role, blocks, content[i..]) == ItemsFrom(c, role, [], content)
    {
      hide InputBlock, MessageItem, ToolCall, ToolOutput;
      var raw := content[i];
      ghost var rest := content[i + 1..];
      assert content[i..][0] == raw && content[i..][1..] == rest;
      if raw.Obj? && KindOf(raw.fields) == "tool_use" {
        Sse.Assoc(items, MessageItem(role, blocks) + [ToolCall(c, raw.fields)], ItemsFrom(c, role, [], rest));
        items := items + (MessageItem(role, blocks) + [ToolCall(c, raw.fields)]);
        blocks := [];
      } else if raw.Obj? && KindOf(raw.fields) == "tool_result" {
        Sse.Assoc(items, MessageItem(role, blocks) + [ToolOutput(raw.fields)], ItemsFrom(c, role, [], rest));
        items := items + (MessageItem(role, blocks) + [ToolOutput(raw.fields)]);
        blocks := [];
      } else {
        blocks := blocks + InputBlock(raw);
      }
    }
    items := items + MessageItem(role, blocks);
  }

  method ConvertMessagesToInput(c: Codec, messages: seq<Json>) returns (out: seq<Json>)
    ensures out == ToInput(c, messages)
  {
    out := [];
    for i := 0 to |messages|
      invariant out + ToInput(c, messages[i..]) == ToInput(c, messages)
    {
      hide ItemsFrom, MessageItem, RoleOf;
      var raw := messages[i];
      assert messages[i..][0] == raw && messages[i..][1..] == messages[i + 1..];
      var items := [raw];
      if raw.Obj? {
        var role, content := RoleOf(raw.fields), Get(raw.fields, "content");
        if content.Arr? {
          items := ConvertMessage(c, role, content.items);
        } else {
          items := MessageItem(role, TextInput(AsString(content)));
        }
      }
      Sse.Assoc(out, items, ToInput(c, messages[i + 1..]));
      out := out + items;
    }
  }

  method AppendAnthropicMessageContent(messages: seq<Message>, role: string, blocks: seq<Json>)
    returns (r: seq<Message>)
    ensures r == AppendContent(messages, role, blocks)
  {
    r := messages;
    if blocks == [] { return; }
    if LastHasRole(messages, role) {
      var last := messages[|messages| - 1];
      r := messages[|messages| - 1 := last.(content := last.content + blocks)];
      return;
    }
    r := messages + [Message(role, blocks)];
  }

  method ConvertItem(c: Codec, messages: seq<Message>, raw: Json) returns (out: seq<Message>)
    ensures out == TakeItem(c, messages, raw)
  {
    hide KindOf, RoleOf, MessageContent, ToolUse, ToolResult, TextBlock, AppendContent;
    out := messages;
    match raw
    case Str(text) => out := messages + [UserText(text)];
    case Obj(item) =>
      var kind := KindOf(item);
      if kind == "function_call" {
        out := AppendAnthropicMessageContent(messages, "assistant", [ToolUse(c, item)]);
      } else if kind == "function_call_output" {
        out := AppendAnthropicMessageContent(messages, "user", [ToolResult(item)]);
      } else if "content" in item {
        var content := MessageContent(item["content"]);
        if content.Arr? {
          out := AppendAnthropicMessageContent(messages, RoleOf(item), content.items);
        }
      } else {
        var text := AsString(Get(item, "text"));
        if text != "" {
          out := AppendAnthropicMessageContent(messages, RoleOf(item), [TextBlock(text)]);
        }
      }
    case _ =>
  }

  method ConvertInputToMessages(c: Codec, input: Json) returns (out: seq<Message>)
    ensures out == MessagesOf(c, input)
  {
    out := [];
    match input
    case Str(text) => out := [UserText(text)];
    case Arr(items) =>
      for i := 0 to |items|
        invariant FromInput(c, out, items[i..]) == FromInput(c, [], items)
      {
        hide TakeItem;
        assert items[i..][0] == items[i] && items[i..][1..] == items[i + 1..];
        out := ConvertItem(c, out, items[i]);
      }
    case _ =>
  }

  // ----- merging by role -----

  /** What one input item of any kind contributes. */
  function EntryTurns(c: Codec, raw: Json): seq<Turn> {
    match raw
    case Str(text) => [Turn("user", TextBlock(text))]
    case Obj(item) => ItemTurns(c, item)
    case _ => []
  }

  function AllTurns(c: Codec, items: seq<Json>): seq<Turn> {
    if items == [] then [] else EntryTurns(c, items[0]) + AllTurns(c, items[1..])
  }

  lemma RolesNotBlank(o: Fields)
    ensures !Blank("assistant") && !Blank("user") && !Blank(RoleOf(o))
  {
    NotBlank("assistant");
    NotBlank("user");
    var role := AsString(Get(o, "role"));
    FirstNonEmptyStep(role, ["user"]);
    FirstNonEmptyStep("user", []);
    assert [role] + ["user"] == [role, "user"] && ["user"] + [] == ["user"];
  }

  lemma AddOneTurn(messages: seq<Message>, t: Turn)
    ensures AddTurns(messages, [t]) == AppendContent(messages, t.role, [t.block])
  {
    assert [t][1..] == [];
  }

  lemma TakeObject(c: Codec, messages: seq<Message>, item: Fields)
    ensures TakeItem(c, messages, Obj(item)) == AddTurns(messages, ItemTurns(c, item))
    ensures Named(ItemTurns(c, item))
  {
    RolesNotBlank(item);
    hide KindOf, RoleOf, MessageContent, ToolUse, ToolResult, TextBlock, AppendContent, Blank, AddTurns;
    AddOneTurn(messages, Turn("assistant", ToolUse(c, item)));
    AddOneTurn(messages, Turn("user", ToolResult(item)));
    AddOneTurn(messages, Turn(RoleOf(item), TextBlock(AsString(Get(item, "text")))));
    assert AddTurns(messages, []) == messages by { AddNoTurns(messages); }
    if "content" in item && MessageContent(item["content"]).Arr? {
      AppendOneByOne(messages, RoleOf(item), MessageContent(item["content"]).items);
    }
  }

  lemma AddNoTurns(messages: seq<Message>)
    ensures AddTurns(messages, []) == messages
  {
  }

  /** The conversation ends with the user. */
  predicate EndsWithUser(turns: seq<Turn>) {
    turns != [] && turns[|turns| - 1].role == "user"
  }

  /** No bare string follows a turn of the user. */
  predicate NoSplitText(c: Codec, items: seq<Json>, before: seq<Turn>)
    decreases items
  {
    items == [] ||
    (&& (items[0].Str? ==> !EndsWithUser(before))
     && NoSplitText(c, items[1..], before + EntryTurns(c, items[0])))
  }

  lemma LastTurnRole(messages: seq<Message>)
    requires Sound(messages)
    ensures messages == [] <==> Flatten(messages) == []
    ensures messages != [] ==> Flatten(messages)[|Flatten(messages)| - 1].role == messages[|messages| - 1].role
  {
    if messages != [] {
      var front, last := messages[..|messages| - 1], messages[|messages| - 1];
      assert messages == front + [last];
      FlattenSnoc(front, last);
    }
  }

  /** A bare string adds the user's turn, and splits the user's message when the user spoke last. */
  lemma TakeText(c: Codec, messages: seq<Message>, text: string)
    requires Sound(messages)
    ensures var r := TakeItem(c, messages, Str(text));
            && Sound(r)
            && Flatten(r) == Flatten(messages) + [Turn("user", TextBlock(text))]
            && (Alternating(r) <==> Alternating(messages) && !EndsWithUser(Flatten(messages)))
  {
    var m := UserText(text);
    assert TakeItem(c, messages, Str(text)) == messages + [m];
    hide TakeItem, TextBlock, Blank, Flatten;
    FlattenSnoc(messages, m);
    assert TurnsOf("user", [TextBlock(text)]) == [Turn("user", TextBlock(text))];
    LastTurnRole(messages);
    UserMessageAppended(messages, m);
  }

  lemma UserMessageAppended(messages: seq<Message>, m: Message)
    requires Sound(messages) && m.content != [] && m.role == "user"
    ensures Sound(messages + [m])
    ensures Alternating(messages + [m])
       <==> Alternating(messages) && !(messages != [] && messages[|messages| - 1].role == "user")
  {
    NotBlank("user");
    hide Blank;
    var r := messages + [m];
    assert forall i | 0 <= i < |messages| :: r[i] == messages[i];
    assert r[|messages|] == m;
  }

  lemma TakeEntry(c: Codec, messages: seq<Message>, raw: Json)
    requires Sound(messages)
    ensures var r := TakeItem(c, messages, raw);
            && Sound(r)
            && Flatten(r) == Flatten(messages) + EntryTurns(c, raw)
            && (Alternating(r)
                <==> Alternating(messages) && (raw.Str? ==> !EndsWithUser(Flatten(messages))))
  {
    match raw
    case Str(text) => TakeText(c, messages, text);
    case Obj(item) =>
      TakeObject(c, messages, item);
      hide TakeItem;
      AddTurnsMeaning(messages, ItemTurns(c, item));
    case _ => assert Flatten(messages) + [] == Flatten(messages);
  }

  lemma {:induction false} FromInputMeaning(c: Codec, messages: seq<Message>, items: seq<Json>)
    requires Sound(messages)
    ensures var r := FromInput(c, messages, items);
            && Sound(r)
            && Flatten(r) == Flatten(messages) + AllTurns(c, items)
            && (Alternating(r) <==> Alternating(messages) && NoSplitText(c, items, Flatten(messages)))
    decreases items
  {
    hide Sound, Alternating, TakeItem, EntryTurns, Flatten, EndsWithUser;
    if items == [] {
      assert Flatten(messages) + [] == Flatten(messages);
    } else {
      TakeEntry(c, messages, items[0]);
      FromInputMeaning(c, TakeItem(c, messages, items[0]), items[1..]);
      Sse.Assoc(Flatten(messages), EntryTurns(c, items[0]), AllTurns(c, items[1..]));
    }
  }

  /** Merging by role keeps every block in its place. The messages alternate exactly when no bare string
      follows a turn of the user. */
  lemma MergingKeepsOrder(c: Codec, items: seq<Json>)
    ensures var r := FromInput(c, [], items);
            && Sound(r)
            && Flatten(r) == AllTurns(c, items)
            && (Alternating(r) <==> NoSplitText(c, items, []))
  {
    FromInputMeaning(c, [], items);
    assert Flatten([]) == [] && [] + AllTurns(c, items) == AllTurns(c, items);
  }

  lemma {:induction false} ObjectsNeverSplit(c: Codec, items: seq<Json>, before: seq<Turn>)
    requires forall raw | raw in items :: raw.Obj?
    ensures NoSplitText(c, items, before)
    decreases items
  {
    if items != [] {
      assert items[0] in items && forall raw | raw in items[1..] :: raw in items;
      ObjectsNeverSplit(c, items[1..], before + EntryTurns(c, items[0]));
    }
  }

  /** For an input of objects only, the messages are the one well grouped conversation whose turns are
      the converted items in order. */
  lemma ObjectsMergeUniquely(c: Codec, items: seq<Json>, other: seq<Message>)
    requires forall raw | raw in items :: raw.Obj?
    ensures WellGrouped(FromInput(c, [], items))
    ensures WellGrouped(other) && Flatten(other) == AllTurns(c, items) ==> other == FromInput(c, [], items)
  {
    MergingKeepsOrder(c, items);
    ObjectsNeverSplit(c, items, []);
    if WellGrouped(other) && Flatten(other) == AllTurns(c, items) {
      GroupingUnique(other, FromInput(c, [], items));
    }
  }

  lemma {:induction false} TurnHasMessage(messages: seq<Message>, t: Turn)
    requires t in Flatten(messages)
    ensures exists k :: 0 <= k < |messages| && messages[k].role == t.role && t.block in messages[k].content
    decreases messages
  {
    var head := TurnsOf(messages[0].role, messages[0].content);
    if t in head {
      var i :| 0 <= i < |head| && head[i] == t;
      assert messages[0].content[i] in messages[0].content;
    } else {
      TurnHasMessage(messages[1..], t);
      var k :| 0 <= k < |messages[1..]| && messages[1..][k].role == t.role && t.block in messages[1..][k].content;
      assert messages[k + 1] == messages[1..][k];
    }
  }

  lemma {:induction false} EntryInAllTurns(c: Codec, items: seq<Json>, i: nat, t: Turn)
    requires i < |items| && t in EntryTurns(c, items[i])
    ensures t in AllTurns(c, items)
    decreases items
  {
    hide EntryTurns;
    if i > 0 {
      EntryInAllTurns(c, items[1..], i - 1, t);
    }
  }

  /** Every tool call ends up in a message of the assistant and every tool output in one of the user, whatever
      stands around it. */
  lemma ToolItemsPlaced(c: Codec, items: seq<Json>, i: nat)
    requires i < |items| && items[i].Obj?
    ensures KindOf(items[i].fields) == "function_call" ==>
              exists k :: 0 <= k < |FromInput(c, [], items)| && FromInput(c, [], items)[k].role == "assistant"
                          && ToolUse(c, items[i].fields) in FromInput(c, [], items)[k].content
    ensures KindOf(items[i].fields) == "function_call_output" ==>
              exists k :: 0 <= k < |FromInput(c, [], items)| && FromInput(c, [], items)[k].role == "user"
                          && ToolResult(items[i].fields) in FromInput(c, [], items)[k].content
  {
    var item := items[i].fields;
    if KindOf(item) == "function_call" {
      PlacedTurn(c, items, i, Turn("assistant", ToolUse(c, item)));
    } else if KindOf(item) == "function_call_output" {
      PlacedTurn(c, items, i, Turn("user", ToolResult(item)));
    }
  }

  lemma PlacedTurn(c: Codec, items: seq<Json>, i: nat, t: Turn)
    requires i < |items| && t in EntryTurns(c, items[i])
    ensures exists k :: 0 <= k < |FromInput(c, [], items)| && FromInput(c, [], items)[k].role == t.role
                        && t.block in FromInput(c, [], items)[k].content
  {
    hide FromInput, EntryTurns, AllTurns, NoSplitText;
    MergingKeepsOrder(c, items);
    EntryInAllTurns(c, items, i, t);
    TurnHasMessage(FromInput(c, [], items), t);
  }

  /** Two bare strings in a row stay two messages of the user. */
  lemma BareStringsStaySplit(c: Codec, a: string, b: string)
    ensures FromInput(c, [], [Str(a), Str(b)]) == [UserText(a), UserText(b)]
    ensures !Alternating(FromInput(c, [], [Str(a), Str(b)]))
  {
    hide TextBlock;
    var items := [Str(a), Str(b)];
    assert items[1..] == [Str(b)] && items[1..][1..] == [];
    assert [] + [UserText(a)] == [UserText(a)] && [UserText(a)] + [UserText(b)] == [UserText(a), UserText(b)];
    assert FromInput(c, [UserText(a)], items[1..]) == FromInput(c, [UserText(a), UserText(b)], []);
    var r := FromInput(c, [], items);
    assert r[0].role == r[1].role;
  }
}
