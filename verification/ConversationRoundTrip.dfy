/** Messages converted to input items and back: exactly what returns, and when it is what was sent. */
module ConversationRoundTrip {
  import opened Text
  import opened Json
  import opened Grouping
  import opened Conversation
  import Sse

  // ----- what one content block turns into -----

  predicate IsTextKind(kind: string) {
    kind == "text" || kind == "input_text" || kind == "output_text"
  }

  predicate IsToolKind(kind: string) {
    kind == "tool_use" || kind == "tool_result"
  }

  /** A text block keeps only its text; other blocks are unchanged. */
  function Plain(raw: Json): Json {
    if raw.Obj? && IsTextKind(KindOf(raw.fields)) then TextBlock(AsString(Get(raw.fields, "text"))) else raw
  }

  /** The content of a tool result: tool blocks inside it are lost, and a single text block becomes a string. */
  function PlainList(content: seq<Json>): seq<Json> {
    if content == [] then []
    else (if content[0].Obj? && IsToolKind(KindOf(content[0].fields)) then [] else [Plain(content[0])])
         + PlainList(content[1..])
  }

  function PlainResult(content: Json): Json {
    if !content.Arr? then content
    else if |content.items| == 1 && content.items[0].Obj? && KindOf(content.items[0].fields) == "text" then
      Str(AsString(Get(content.items[0].fields, "text")))
    else Arr(PlainList(content.items))
  }

  function PlainToolUse(block: Fields): Json {
    Obj(map["type" := Str("tool_use"), "id" := Str(FirstNonEmpty([AsString(Get(block, "id"))])),
            "name" := Get(block, "name"), "input" := Obj(AsObject(Get(block, "input")))])
  }

  function PlainToolResult(block: Fields): Json {
    Obj(map["type" := Str("tool_result"), "tool_use_id" := Get(block, "tool_use_id"),
            "content" := PlainResult(Get(block, "content"))])
  }

  /** A tool call is the assistant's and a tool result the user's, whoever's message held it. */
  function BlockTurn(role: string, raw: Json): Turn {
    if raw.Obj? && KindOf(raw.fields) == "tool_use" then Turn("assistant", PlainToolUse(raw.fields))
    else if raw.Obj? && KindOf(raw.fields) == "tool_result" then Turn("user", PlainToolResult(raw.fields))
    else Turn(role, Plain(raw))
  }

  function BlockTurns(role: string, content: seq<Json>): (turns: seq<Turn>)
    ensures |turns| == |content|
    ensures forall i | 0 <= i < |content| :: turns[i] == BlockTurn(role, content[i])
  {
    if content == [] then [] else [BlockTurn(role, content[0])] + BlockTurns(role, content[1..])
  }

  // ----- the two converters block by block -----

  lemma KindOfMap(kind: string, o: Fields)
    requires Get(o, "type") == Str(kind) && kind != "" && !IsSpace(kind[0]) && !IsSpace(kind[|kind| - 1])
    ensures KindOf(o) == kind
  {
  }

  lemma InputTextBlock(text: string)
    ensures var o := map["type" := Str("input_text"), "text" := Str(text)];
            KindOf(o) == "input_text" && AsString(Get(o, "text")) == text
  {
    KindOfMap("input_text", map["type" := Str("input_text"), "text" := Str(text)]);
  }

  lemma PlainIsThereAndBack(raw: Json)
    ensures raw.Obj? && IsToolKind(KindOf(raw.fields)) ==> InputBlock(raw) == []
    ensures !(raw.Obj? && IsToolKind(KindOf(raw.fields))) ==>
              |InputBlock(raw)| == 1 && ContentBlock(InputBlock(raw)[0]) == Plain(raw)
  {
    if raw.Obj? && KindOf(raw.fields) == "text" {
      InputTextBlock(AsString(Get(raw.fields, "text")));
      hide KindOf, Get, AsString, TextBlock;
      var o := InputBlock(raw)[0];
    } else {
      hide KindOf, Get, AsString, TextBlock;
    }
  }

  lemma {:induction false} ContentBlocksConcat(a: seq<Json>, b: seq<Json>)
    ensures ContentBlocks(a + b) == ContentBlocks(a) + ContentBlocks(b)
  {
  }

  lemma {:induction false} PlainListIsThereAndBack(content: seq<Json>)
    ensures ContentBlocks(InputBlocks(content)) == PlainList(content)
  {
    hide InputBlock, ContentBlock, Plain, KindOf;
    if content != [] {
      PlainIsThereAndBack(content[0]);
      PlainListIsThereAndBack(content[1..]);
      ContentBlocksConcat(InputBlock(content[0]), InputBlocks(content[1..]));
      if InputBlock(content[0]) != [] {
        assert InputBlock(content[0])[1..] == [];
        assert ContentBlocks(InputBlock(content[0])) == [Plain(content[0])];
      }
    }
  }

  lemma PlainResultIsThereAndBack(content: Json)
    ensures var output := ResultOutput(content);
            (if output.Arr? then MessageContent(output) else output) == PlainResult(content)
  {
    hide KindOf, Blank;
    if content.Arr? {
      PlainListIsThereAndBack(content.items);
    }
  }

  lemma ToolOutputFields(block: Fields)
    ensures var o := ToolOutput(block).fields;
            && KindOf(o) == "function_call_output"
            && Get(o, "call_id") == Get(block, "tool_use_id")
            && Get(o, "output") == ResultOutput(Get(block, "content"))
  {
    hide ResultOutput;
    KindOfMap("function_call_output", ToolOutput(block).fields);
  }

  lemma ToolOutputReturns(c: Codec, block: Fields)
    ensures ItemTurns(c, ToolOutput(block).fields) == [Turn("user", PlainToolResult(block))]
  {
    PlainResultIsThereAndBack(Get(block, "content"));
    ToolOutputFields(block);
    hide ResultOutput, PlainResult, MessageContent, KindOf, ToolOutput, Get;
  }

  lemma ToolCallFields(c: Codec, block: Fields)
    ensures var o := ToolCall(c, block).fields;
            && KindOf(o) == "function_call"
            && Get(o, "call_id") == Get(block, "id") && Get(o, "id") == Null && Get(o, "name") == Get(block, "name")
            && Get(o, "arguments") == Str(if "input" in block then c.enc(block["input"]) else "{}")
  {
    KindOfMap("function_call", ToolCall(c, block).fields);
  }

  /** Decoding the encoded arguments gives the input back when it is an object, `{}` otherwise. */
  lemma ArgumentsReturn(c: Codec, block: Fields)
    requires Lawful(c)
    ensures DecodedArguments(c, if "input" in block then c.enc(block["input"]) else "{}")
         == AsObject(Get(block, "input"))
  {
    var v := if "input" in block then block["input"] else Obj(map[]);
    assert c.dec(c.enc(v)) == Some(v) && TrimSpace(c.enc(v)) == c.enc(v) && c.enc(v) != "";
  }

  lemma IdTwice(id: string)
    ensures FirstNonEmpty([id, ""]) == FirstNonEmpty([id])
  {
    FirstNonEmptyStep(id, [""]);
    FirstNonEmptyStep(id, []);
    FirstNonEmptyStep("", []);
    assert [id] + [""] == [id, ""] && [id] + [] == [id] && [""] + [] == [""];
  }

  lemma ToolCallReturns(c: Codec, block: Fields)
    requires Lawful(c)
    ensures ItemTurns(c, ToolCall(c, block).fields) == [Turn("assistant", PlainToolUse(block))]
  {
    ArgumentsReturn(c, block);
    ToolCallFields(c, block);
    IdTwice(AsString(Get(block, "id")));
    hide DecodedArguments, KindOf, ToolCall, Get, FirstNonEmpty, Lawful;
  }

  lemma MessageItemReturns(c: Codec, messages: seq<Message>, role: string, blocks: seq<Json>)
    requires !Blank(role)
    ensures FromInput(c, messages, MessageItem(role, blocks))
         == AddTurns(messages, TurnsOf(role, ContentBlocks(blocks)))
  {
    AppendOneByOne(messages, role, ContentBlocks(blocks));
    RoleOfMessage(role);
    hide Blank, FirstNonEmpty, ContentBlocks, AddTurns;
    if blocks != [] {
      var o := map["type" := Str("message"), "role" := Str(role), "content" := Arr(blocks)];
      KindOfMap("message", o);
      assert Get(o, "role") == Str(role) && o["content"] == Arr(blocks);
      TakeMessage(c, messages, o, role, blocks);
      assert [Obj(o)][1..] == [];
      hide TakeItem;
      assert FromInput(c, messages, [Obj(o)]) == TakeItem(c, messages, Obj(o));
    } else {
      assert ContentBlocks([]) == [];
    }
  }

  lemma TakeMessage(c: Codec, messages: seq<Message>, o: Fields, role: string, blocks: seq<Json>)
    requires KindOf(o) == "message" && RoleOf(o) == role && "content" in o && o["content"] == Arr(blocks)
    ensures TakeItem(c, messages, Obj(o)) == AppendContent(messages, role, ContentBlocks(blocks))
  {
    hide KindOf, RoleOf, AppendContent, ToolUse, ToolResult;
  }

  lemma {:induction false} FromInputConcat(c: Codec, messages: seq<Message>, a: seq<Json>, b: seq<Json>)
    ensures FromInput(c, messages, a + b) == FromInput(c, FromInput(c, messages, a), b)
    decreases a
  {
    hide TakeItem;
    if a == [] {
      assert a + b == b;
    } else {
      assert (a + b)[1..] == a[1..] + b && (a + b)[0] == a[0];
      FromInputConcat(c, TakeItem(c, messages, a[0]), a[1..], b);
    }
  }

  /** The item a tool block becomes. */
  function ToolItem(c: Codec, block: Fields): Json {
    if KindOf(block) == "tool_use" then ToolCall(c, block) else ToolOutput(block)
  }

  lemma ToolItemReturns(c: Codec, messages: seq<Message>, raw: Fields)
    requires Lawful(c) && IsToolKind(KindOf(raw))
    ensures FromInput(c, messages, [ToolItem(c, raw)]) == AddTurns(messages, [BlockTurn("user", Obj(raw))])
  {
    ToolCallReturns(c, raw);
    ToolOutputReturns(c, raw);
    TakeObject(c, messages, ToolCall(c, raw).fields);
    TakeObject(c, messages, ToolOutput(raw).fields);
    hide TakeItem, AddTurns, ItemTurns, ToolCall, ToolOutput, Lawful, PlainToolUse, PlainToolResult, KindOf;
    var item := ToolItem(c, raw);
    assert [item][1..] == [];
    assert FromInput(c, messages, [item]) == TakeItem(c, messages, item);
  }

  // ----- whole messages -----

  lemma PendingGrows(role: string, pending: seq<Json>, raw: Json)
    requires !(raw.Obj? && IsToolKind(KindOf(raw.fields)))
    ensures TurnsOf(role, ContentBlocks(pending + InputBlock(raw)))
         == TurnsOf(role, ContentBlocks(pending)) + [BlockTurn(role, raw)]
  {
    PlainIsThereAndBack(raw);
    hide InputBlock, ContentBlock, Plain, KindOf;
    ContentBlocksConcat(pending, InputBlock(raw));
    assert InputBlock(raw) == [InputBlock(raw)[0]];
    assert ContentBlocks(InputBlock(raw)) == [Plain(raw)];
    TurnsOfConcat(role, ContentBlocks(pending), [Plain(raw)]);
    assert TurnsOf(role, [Plain(raw)]) == [Turn(role, Plain(raw))];
  }

  lemma ToolItemsReturn(c: Codec, messages: seq<Message>, role: string, pending: seq<Json>, raw: Fields)
    requires Lawful(c) && !Blank(role) && IsToolKind(KindOf(raw))
    ensures FromInput(c, messages, MessageItem(role, pending) + [ToolItem(c, raw)])
         == AddTurns(messages, TurnsOf(role, ContentBlocks(pending)) + [BlockTurn(role, Obj(raw))])
  {
    var item := ToolItem(c, raw);
    var before := TurnsOf(role, ContentBlocks(pending));
    assert BlockTurn(role, Obj(raw)) == BlockTurn("user", Obj(raw));
    MessageItemReturns(c, messages, role, pending);
    var next := AddTurns(messages, before);
    ToolItemReturns(c, next, raw);
    hide AddTurns, FromInput, BlockTurn, ToolCall, ToolOutput, MessageItem, KindOf, Blank, Lawful;
    FromInputConcat(c, messages, MessageItem(role, pending), [item]);
    AddTurnsConcat(messages, before, [BlockTurn(role, Obj(raw))]);
  }

  /** The items of a content list, read back, add its blocks in order. */
  lemma {:induction false} ItemsReturn(c: Codec, messages: seq<Message>, role: string, pending: seq<Json>,
                                       content: seq<Json>)
    requires Lawful(c) && !Blank(role)
    ensures FromInput(c, messages, ItemsFrom(c, role, pending, content))
         == AddTurns(messages, TurnsOf(role, ContentBlocks(pending)) + BlockTurns(role, content))
    decreases content
  {
    var before := TurnsOf(role, ContentBlocks(pending));
    if content == [] {
      MessageItemReturns(c, messages, role, pending);
      assert before + [] == before;
    } else {
      var raw, rest := content[0], content[1..];
      var turn := BlockTurn(role, raw);
      Sse.Assoc(before, [turn], BlockTurns(role, rest));
      if raw.Obj? && IsToolKind(KindOf(raw.fields)) {
        var item := ToolItem(c, raw.fields);
        ToolItemsReturn(c, messages, role, pending, raw.fields);
        ItemsAfterTool(c, role, pending, content);
        hide FromInput, AddTurns, BlockTurn, ToolCall, ToolOutput, MessageItem, KindOf, Blank, Lawful, ItemsFrom;
        FromInputConcat(c, messages, MessageItem(role, pending) + [item], ItemsFrom(c, role, [], rest));
        var next := AddTurns(messages, before + [turn]);
        ItemsReturn(c, next, role, [], rest);
        assert TurnsOf(role, ContentBlocks([])) + BlockTurns(role, rest) == BlockTurns(role, rest);
        AddTurnsConcat(messages, before + [turn], BlockTurns(role, rest));
      } else {
        PendingGrows(role, pending, raw);
        hide FromInput, AddTurns, BlockTurn, MessageItem, KindOf, Blank, Lawful, InputBlock;
        ItemsReturn(c, messages, role, pending + InputBlock(raw), rest);
      }
    }
  }

  lemma ItemsAfterTool(c: Codec, role: string, pending: seq<Json>, content: seq<Json>)
    requires content != [] && content[0].Obj? && IsToolKind(KindOf(content[0].fields))
    ensures ItemsFrom(c, role, pending, content)
         == MessageItem(role, pending) + [ToolItem(c, content[0].fields)] + ItemsFrom(c, role, [], content[1..])
  {
    hide KindOf, ToolCall, ToolOutput, MessageItem, InputBlock;
  }

  /** The turns of one message; content that is neither a list nor text says nothing. */
  function MessageTurns(message: Fields): seq<Turn> {
    var content := Get(message, "content");
    if content.Arr? then BlockTurns(RoleOf(message), content.items)
    else if Blank(AsString(content)) then []
    else [Turn(RoleOf(message), TextBlock(AsString(content)))]
  }

  function ConversationTurns(messages: seq<Json>): seq<Turn> {
    if messages == [] then []
    else (if messages[0].Obj? then MessageTurns(messages[0].fields) else []) + ConversationTurns(messages[1..])
  }

  lemma StringReturns(text: string)
    ensures ContentBlocks(TextInput(text)) == if Blank(text) then [] else [TextBlock(text)]
  {
    InputTextBlock(text);
    hide KindOf, TextBlock, Get, AsString;
    if !Blank(text) {
      var o := map["type" := Str("input_text"), "text" := Str(text)];
      assert TextInput(text) == [Obj(o)];
      assert ContentBlocks([Obj(o)]) == [ContentBlock(Obj(o))];
    }
  }

  lemma MessageReturns(c: Codec, messages: seq<Message>, message: Fields)
    requires Lawful(c)
    ensures FromInput(c, messages, InputOf(c, Obj(message))) == AddTurns(messages, MessageTurns(message))
  {
    var role, content := RoleOf(message), Get(message, "content");
    RolesNotBlank(message);
    if content.Arr? {
      ItemsReturn(c, messages, role, [], content.items);
      assert TurnsOf(role, ContentBlocks([])) + BlockTurns(role, content.items) == BlockTurns(role, content.items);
    } else {
      var text := AsString(content);
      MessageItemReturns(c, messages, role, TextInput(text));
      StringReturns(text);
      hide FromInput, AddTurns, TextBlock, RoleOf, Blank, TextInput, MessageItem;
      assert TurnsOf(role, [TextBlock(text)]) == [Turn(role, TextBlock(text))];
    }
  }

  lemma {:induction false} ConversationReturnsFrom(c: Codec, messages: seq<Message>, conversation: seq<Json>)
    requires Lawful(c) && forall m | m in conversation :: m.Obj?
    ensures FromInput(c, messages, ToInput(c, conversation)) == AddTurns(messages, ConversationTurns(conversation))
    decreases conversation
  {
    if conversation != [] {
      var m, rest := conversation[0], conversation[1..];
      assert m in conversation && forall x | x in rest :: x in conversation;
      MessageReturns(c, messages, m.fields);
      hide FromInput, AddTurns, InputOf, MessageTurns, Lawful;
      FromInputConcat(c, messages, InputOf(c, m), ToInput(c, rest));
      AddTurnsConcat(messages, MessageTurns(m.fields), ConversationTurns(rest));
      ConversationReturnsFrom(c, AddTurns(messages, MessageTurns(m.fields)), rest);
    } else {
      AddNoTurns(messages);
    }
  }

  /** Whatever the messages hold, converting them there and back groups their turns by role. */
  lemma ConversationReturns(c: Codec, conversation: seq<Json>)
    requires Lawful(c) && forall m | m in conversation :: m.Obj?
    ensures FromInput(c, [], ToInput(c, conversation)) == Group(ConversationTurns(conversation))
  {
    ConversationReturnsFrom(c, [], conversation);
  }

  // ----- when a conversation returns as it was -----

  function Rendered(messages: seq<Message>): (r: seq<Json>)
    ensures forall m | m in r :: m.Obj?
  {
    if messages == [] then []
    else [Obj(map["role" := Str(messages[0].role), "content" := Arr(messages[0].content)])] + Rendered(messages[1..])
  }

  /** A block that returns as it was, under the role it had. */
  predicate Unchanged(role: string, block: Json) {
    BlockTurn(role, block) == Turn(role, block)
  }

  predicate AllUnchanged(messages: seq<Message>) {
    forall i, k | 0 <= i < |messages| && 0 <= k < |messages[i].content| ::
      Unchanged(messages[i].role, messages[i].content[k])
  }

  lemma RenderedTurns(m: Message)
    requires !Blank(m.role)
    ensures MessageTurns(map["role" := Str(m.role), "content" := Arr(m.content)]) == BlockTurns(m.role, m.content)
  {
    RoleOfMessage(m.role);
    hide Blank, FirstNonEmpty;
    var o := map["role" := Str(m.role), "content" := Arr(m.content)];
    assert Get(o, "content") == Arr(m.content) && Get(o, "role") == Str(m.role);
  }

  lemma SplitTurns(a: seq<Turn>, b: seq<Turn>, x: seq<Turn>, y: seq<Turn>)
    requires |a| == |b|
    ensures a + x == b + y <==> a == b && x == y
  {
    assert (a + x)[..|a|] == a && (b + y)[..|b|] == b && (a + x)[|a|..] == x && (b + y)[|b|..] == y;
  }

  lemma BlockTurnsUnchanged(role: string, content: seq<Json>)
    ensures BlockTurns(role, content) == TurnsOf(role, content)
       <==> forall k | 0 <= k < |content| :: Unchanged(role, content[k])
  {
    hide BlockTurn;
    var a, b := BlockTurns(role, content), TurnsOf(role, content);
    assert a == b <==> forall k | 0 <= k < |a| :: a[k] == b[k];
  }

  lemma {:induction false} TurnsUnchanged(messages: seq<Message>)
    requires Sound(messages)
    ensures ConversationTurns(Rendered(messages)) == Flatten(messages) <==> AllUnchanged(messages)
  {
    hide Blank, Unchanged;
    if messages != [] {
      var m, rest := messages[0], messages[1..];
      RenderedTurns(m);
      TurnsUnchanged(rest);
      BlockTurnsUnchanged(m.role, m.content);
      hide MessageTurns, BlockTurns, TurnsOf;
      SplitTurns(BlockTurns(m.role, m.content), TurnsOf(m.role, m.content), ConversationTurns(Rendered(rest)),
                 Flatten(rest));
      assert Rendered(messages)[1..] == Rendered(rest);
      UnchangedSplit(messages);
    }
  }

  lemma UnchangedSplit(messages: seq<Message>)
    requires messages != []
    ensures AllUnchanged(messages)
       <==> (forall k | 0 <= k < |messages[0].content| :: Unchanged(messages[0].role, messages[0].content[k]))
            && AllUnchanged(messages[1..])
  {
    hide Unchanged;
    var rest := messages[1..];
    if && AllUnchanged(rest)
       && forall k | 0 <= k < |messages[0].content| :: Unchanged(messages[0].role, messages[0].content[k])
    {
      forall i, k | 0 <= i < |messages| && 0 <= k < |messages[i].content|
        ensures Unchanged(messages[i].role, messages[i].content[k])
      {
        if i > 0 {
          assert rest[i - 1] == messages[i];
        }
      }
    }
  }

  lemma {:induction false} ConversationTurnsNamed(conversation: seq<Json>)
    ensures Named(ConversationTurns(conversation))
  {
    if conversation != [] {
      ConversationTurnsNamed(conversation[1..]);
      if conversation[0].Obj? {
        RolesNotBlank(conversation[0].fields);
        hide Blank, RoleOf, TextBlock, PlainToolUse, PlainToolResult, Plain, KindOf;
      }
    }
  }

  /** The exact condition for the round trip to be the identity: alternating, non-empty messages whose
      blocks all return as they were. */
  lemma ConversationRoundTripIff(c: Codec, messages: seq<Message>)
    requires Lawful(c)
    ensures FromInput(c, [], ToInput(c, Rendered(messages))) == messages
       <==> WellGrouped(messages) && AllUnchanged(messages)
  {
    var turns := ConversationTurns(Rendered(messages));
    ConversationReturns(c, Rendered(messages));
    ConversationTurnsNamed(Rendered(messages));
    GroupMeaning(turns);
    hide AllUnchanged, Sound, Alternating, ConversationTurns, Group, Lawful, FromInput;
    if WellGrouped(messages) {
      TurnsUnchanged(messages);
      GroupFlatten(messages);
    }
  }

  /** Without alternation the same conversation returns with its neighbouring messages of one role merged. */
  lemma MergedConversationReturns(c: Codec, messages: seq<Message>)
    requires Lawful(c) && Sound(messages) && AllUnchanged(messages)
    ensures var r := FromInput(c, [], ToInput(c, Rendered(messages)));
            WellGrouped(r) && Flatten(r) == Flatten(messages)
  {
    TurnsUnchanged(messages);
    ConversationReturns(c, Rendered(messages));
    ConversationTurnsNamed(Rendered(messages));
    GroupMeaning(Flatten(messages));
  }

  // ----- the blocks the API documents -----

  function ToolUseBlock(id: string, name: Json, input: Fields): Json {
    Obj(map["type" := Str("tool_use"), "id" := Str(id), "name" := name, "input" := Obj(input)])
  }

  function ToolResultBlock(id: Json, content: Json): Json {
    Obj(map["type" := Str("tool_result"), "tool_use_id" := id, "content" := content])
  }

  lemma TextUnchanged(role: string, text: string)
    ensures Unchanged(role, TextBlock(text))
  {
    KindOfMap("text", TextBlock(text).fields);
    hide KindOf;
    assert AsString(Get(TextBlock(text).fields, "text")) == text;
  }

  /** A tool_use block is unchanged just in an assistant message and with an id that is not white space. */
  lemma ToolUseUnchanged(role: string, id: string, name: Json, input: Fields)
    ensures Unchanged(role, ToolUseBlock(id, name, input)) <==> role == "assistant" && (id == "" || !Blank(id))
  {
    var o := ToolUseBlock(id, name, input).fields;
    KindOfMap("tool_use", o);
    FirstNonEmptyStep(id, []);
    assert [id] + [] == [id];
    hide KindOf, Blank, FirstNonEmpty;
    assert AsString(Get(o, "id")) == id && Get(o, "name") == name && AsObject(Get(o, "input")) == input;
    assert PlainToolUse(o) == ToolUseBlock(FirstNonEmpty([id]), name, input);
    assert PlainToolUse(o).fields["id"] == Str(FirstNonEmpty([id])) && o["id"] == Str(id);
  }

  /** Nested content that returns as it was. */
  predicate PlainContent(content: seq<Json>) {
    |content| != 1 && forall k | 0 <= k < |content| :: IsPlainText(content[k])
  }

  predicate IsPlainText(block: Json) {
    block.Obj? && block == TextBlock(AsString(Get(block.fields, "text")))
  }

  lemma {:induction false} PlainListUnchanged(content: seq<Json>)
    requires forall k | 0 <= k < |content| :: IsPlainText(content[k])
    ensures PlainList(content) == content
  {
    if content != [] {
      PlainListUnchanged(content[1..]);
      assert IsPlainText(content[0]);
      KindOfMap("text", content[0].fields);
      hide KindOf, TextBlock;
    }
  }

  /** A tool_result block is unchanged in a user message when its content is a string or a list of text
      blocks other than a single one; a single text block becomes a string. */
  lemma ToolResultUnchanged(role: string, id: Json, content: Json)
    requires content.Str? || (content.Arr? && PlainContent(content.items))
    ensures Unchanged(role, ToolResultBlock(id, content)) <==> role == "user"
  {
    var o := ToolResultBlock(id, content).fields;
    KindOfMap("tool_result", o);
    if content.Arr? {
      PlainListUnchanged(content.items);
    }
    hide KindOf, PlainList, PlainContent;
    assert Get(o, "tool_use_id") == id && Get(o, "content") == content;
    assert PlainResult(content) == content by { PlainResultUnchanged(content); }
  }

  lemma PlainResultUnchanged(content: Json)
    requires content.Str? || (content.Arr? && |content.items| != 1 && PlainList(content.items) == content.items)
    ensures PlainResult(content) == content
  {
  }

  lemma SingleTextResultBecomesString(role: string, id: Json, text: string)
    ensures BlockTurn(role, ToolResultBlock(id, Arr([TextBlock(text)])))
         == Turn("user", ToolResultBlock(id, Str(text)))
  {
    var content := Arr([TextBlock(text)]);
    var o := ToolResultBlock(id, content).fields;
    KindOfMap("tool_result", o);
    KindOfMap("text", TextBlock(text).fields);
    hide KindOf;
    assert Get(o, "tool_use_id") == id && Get(o, "content") == content;
    assert AsString(Get(TextBlock(text).fields, "text")) == text;
  }

  /** Blocks of any other type are carried over unchanged. */
  lemma OtherUnchanged(role: string, block: Json)
    requires !block.Obj? || (!IsTextKind(KindOf(block.fields)) && !IsToolKind(KindOf(block.fields)))
    ensures Unchanged(role, block)
  {
    hide KindOf;
  }
}
