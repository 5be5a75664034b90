/** What one input item means as turns of a conversation, and one message as input items, field by field on arbitrary
    payloads; and that the converters put just that together, in order. */
module ConversationShapes {
  import opened Text
  import opened Json
  import opened Grouping
  import opened Conversation
  import opened EventReading
  import Sse

  function Shown(kind: string, text: string): Json {
    Obj(map["type" := Str(kind), "text" := Str(text)])
  }

  function ValueOr(o: Fields, key: string): Json {
    if key in o then o[key] else Null
  }

  ghost predicate HasRole(o: Fields, role: string) {
    First([TextOr(o, "role"), "user"], role)
  }

  // ----- from items to turns -----

  /** A list entry: any text block becomes a plain text block, everything else is copied. */
  predicate BecomesBlock(raw: Json, block: Json) {
    if raw.Obj? && IsWord(raw.fields, "type", {"input_text", "output_text", "text"})
    then block == Shown("text", TextOr(raw.fields, "text"))
    else block == raw
  }

  /** The decoded arguments of a call; `{}` when they are not the text of an object. */
  predicate Decodes(c: Codec, text: string, input: Json) {
    var decoded := c.dec(TrimSpace(text));
    if !Blank(text) && decoded.Some? && decoded.value.Obj? then input == decoded.value else input == Obj(map[])
  }

  ghost predicate IsToolUse(c: Codec, item: Fields, block: Json) {
    && block.Obj? && block.fields.Keys == {"type", "id", "name", "input"}
    && block.fields["type"] == Str("tool_use")
    && block.fields["id"].Str? && First([TextOr(item, "call_id"), TextOr(item, "id")], block.fields["id"].s)
    && block.fields["name"] == ValueOr(item, "name")
    && Decodes(c, TextOr(item, "arguments"), block.fields["input"])
  }

  ghost predicate IsToolResult(item: Fields, block: Json) {
    var output := ValueOr(item, "output");
    && block.Obj? && block.fields.Keys == {"type", "tool_use_id", "content"}
    && block.fields["type"] == Str("tool_result")
    && block.fields["tool_use_id"] == ValueOr(item, "call_id")
    && var content := block.fields["content"];
    if output.Arr?
    then content.Arr? && |content.items| == |output.items|
         && forall k | 0 <= k < |output.items| :: BecomesBlock(output.items[k], content.items[k])
    else content == output
  }

  ghost predicate SaysOnce(item: Fields, text: string, turns: seq<Turn>) {
    |turns| == 1 && HasRole(item, turns[0].role) && turns[0].block == Shown("text", text)
  }

  /** The content of a message item: a list entry by entry, a string unless it is blank, anything else not at all. */
  ghost predicate SaysContent(item: Fields, content: Json, turns: seq<Turn>) {
    match content
    case Str(text) => if Blank(text) then turns == [] else SaysOnce(item, text, turns)
    case Arr(entries) =>
      |turns| == |entries|
      && forall k | 0 <= k < |entries| :: HasRole(item, turns[k].role) && BecomesBlock(entries[k], turns[k].block)
    case _ => turns == []
  }

  /** What an input item of any kind contributes to the conversation. */
  ghost predicate Contributes(c: Codec, raw: Json, turns: seq<Turn>) {
    match raw
    case Str(text) => turns == [Turn("user", Shown("text", text))]
    case Obj(item) =>
      if IsWord(item, "type", {"function_call"}) then
        |turns| == 1 && turns[0].role == "assistant" && IsToolUse(c, item, turns[0].block)
      else if IsWord(item, "type", {"function_call_output"}) then
        |turns| == 1 && turns[0].role == "user" && IsToolResult(item, turns[0].block)
      else if "content" in item then SaysContent(item, item["content"], turns)
      else if TextOr(item, "text") == "" then turns == []
      else SaysOnce(item, TextOr(item, "text"), turns)
    case _ => turns == []
  }

  lemma WordOf(o: Fields, word: string)
    requires word != ""
    ensures IsWord(o, "type", {word}) <==> KindOf(o) == word
  {
    hide TrimSpace;
    Word(o, {word});
    TrimNothing();
  }

  lemma TrimNothing()
    ensures TrimSpace("") == ""
  {
  }

  lemma RoleOfItem(o: Fields)
    ensures HasRole(o, RoleOf(o))
  {
    Lookups(o, "role");
    FirstIff([TextOr(o, "role"), "user"], RoleOf(o));
    hide First, FirstNonEmpty, Get, AsString;
  }

  lemma EntryBecomes(raw: Json)
    ensures BecomesBlock(raw, ContentBlock(raw))
  {
    hide TrimSpace;
    if raw.Obj? {
      TrimNothing();
      Word(raw.fields, {"input_text", "output_text", "text"});
      Lookups(raw.fields, "text");
    }
  }

  lemma DecodedIs(c: Codec, text: string)
    ensures Decodes(c, text, Obj(DecodedArguments(c, text)))
  {
    hide TrimSpace;
  }

  lemma ToolUseIs(c: Codec, item: Fields)
    ensures IsToolUse(c, item, ToolUse(c, item))
  {
    Lookups(item, "call_id");
    Lookups(item, "id");
    Lookups(item, "arguments");
    var id := FirstNonEmpty([TextOr(item, "call_id"), TextOr(item, "id")]);
    FirstIff([TextOr(item, "call_id"), TextOr(item, "id")], id);
    DecodedIs(c, TextOr(item, "arguments"));
    hide First, FirstNonEmpty, Decodes, DecodedArguments, AsString, TextOr;
    var block := ToolUse(c, item).fields;
    assert block["type"] == Str("tool_use") && block["id"] == Str(id) && block["name"] == ValueOr(item, "name");
    assert block.Keys == {"type", "id", "name", "input"};
  }

  lemma ToolResultIs(item: Fields)
    ensures IsToolResult(item, ToolResult(item))
  {
    hide BecomesBlock, ContentBlock, Blank;
    var output := ValueOr(item, "output");
    if output.Arr? {
      forall k | 0 <= k < |output.items| ensures BecomesBlock(output.items[k], ContentBlock(output.items[k])) {
        EntryBecomes(output.items[k]);
      }
    }
    var block := ToolResult(item).fields;
    assert block["type"] == Str("tool_result") && block["tool_use_id"] == ValueOr(item, "call_id");
    assert block.Keys == {"type", "tool_use_id", "content"};
  }

  lemma ContentIs(item: Fields, content: Json)
    ensures var blocks := MessageContent(content);
            SaysContent(item, content, if blocks.Arr? then TurnsOf(RoleOf(item), blocks.items) else [])
  {
    RoleOfItem(item);
    hide HasRole, RoleOf, BecomesBlock, ContentBlock, Blank;
    if content.Arr? {
      forall k | 0 <= k < |content.items| ensures BecomesBlock(content.items[k], ContentBlock(content.items[k])) {
        EntryBecomes(content.items[k]);
      }
    }
  }

  /** Every input item contributes what its fields say. */
  lemma EntryContributes(c: Codec, raw: Json)
    ensures Contributes(c, raw, EntryTurns(c, raw))
  {
    if raw.Obj? {
      var item := raw.fields;
      hide IsWord, KindOf, ToolUse, ToolResult, IsToolUse, IsToolResult, HasRole, RoleOf, SaysContent, MessageContent,
           AsString, TextOr, Get, HoldsText, HoldsIndex, HoldsUsage, HoldsValue;
      WordOf(item, "function_call");
      WordOf(item, "function_call_output");
      ToolUseIs(c, item);
      ToolResultIs(item);
      RoleOfItem(item);
      Lookups(item, "text");
      if "content" in item {
        ContentIs(item, item["content"]);
      }
    }
  }

  function Joined(parts: seq<seq<Turn>>): seq<Turn> {
    if parts == [] then [] else parts[0] + Joined(parts[1..])
  }

  lemma {:induction false} PartsOf(c: Codec, items: seq<Json>) returns (parts: seq<seq<Turn>>)
    ensures |parts| == |items| && forall i | 0 <= i < |items| :: Contributes(c, items[i], parts[i])
    ensures Joined(parts) == AllTurns(c, items)
  {
    hide Contributes, EntryTurns;
    parts := [];
    if items != [] {
      var rest := PartsOf(c, items[1..]);
      EntryContributes(c, items[0]);
      parts := [EntryTurns(c, items[0])] + rest;
      assert parts[1..] == rest;
      forall i | 0 <= i < |items| ensures Contributes(c, items[i], parts[i]) {
        if i > 0 {
          assert Contributes(c, items[1..][i - 1], rest[i - 1]);
        }
      }
    }
  }

  /** The messages made of a list of input items hold, block by block and in order, what each item contributes. */
  lemma InputMeaning(c: Codec, items: seq<Json>) returns (parts: seq<seq<Turn>>)
    ensures |parts| == |items| && forall i | 0 <= i < |items| :: Contributes(c, items[i], parts[i])
    ensures Sound(MessagesOf(c, Arr(items))) && Flatten(MessagesOf(c, Arr(items))) == Joined(parts)
  {
    hide Contributes, Sound, Flatten, NoSplitText, FromInput, AllTurns, Joined;
    MergingKeepsOrder(c, items);
    parts := PartsOf(c, items);
  }

  /** An input that is one string, or a list of one, is one message of the user; a missing input is no message. */
  lemma StringInput(c: Codec, text: string)
    ensures MessagesOf(c, Str(text)) == [Message("user", [Shown("text", text)])]
    ensures MessagesOf(c, Arr([Str(text)])) == [Message("user", [Shown("text", text)])]
    ensures MessagesOf(c, Null) == []
  {
    hide TakeItem;
    var items := [Str(text)];
    assert items[1..] == [];
    assert FromInput(c, [], items) == TakeItem(c, [], Str(text));
    TakeOneString(c, text);
  }

  lemma TakeOneString(c: Codec, text: string)
    ensures TakeItem(c, [], Str(text)) == [Message("user", [Shown("text", text)])]
  {
  }

  /** String content is worth the same content as a list of one text; blank content is worth nothing. */
  lemma StringContent(c: Codec, item: Fields, text: string)
    requires !IsWord(item, "type", {"function_call"}) && !IsWord(item, "type", {"function_call_output"})
    ensures var said := ItemTurns(c, item["content" := Str(text)]);
            && (Blank(text) ==> said == [])
            && (!Blank(text) ==> said == ItemTurns(c, item["content" := Arr([Shown("input_text", text)])]))
            && (!Blank(text) ==> SaysOnce(item, text, said))
  {
    var a, b := item["content" := Str(text)], item["content" := Arr([Shown("input_text", text)])];
    SameKindAndRole(item, "content", Str(text));
    SameKindAndRole(item, "content", Arr([Shown("input_text", text)]));
    WordOf(item, "function_call");
    WordOf(item, "function_call_output");
    EntryContributes(c, Obj(a));
    RoleOfItem(item);
    ShownContent(text);
    assert a["content"] == Str(text) && b["content"] == Arr([Shown("input_text", text)]);
    hide IsWord, KindOf, ToolUse, ToolResult, HasRole, RoleOf, AsString, TextOr, MessageContent, Contributes, Blank;
    if !Blank(text) {
      var turns := TurnsOf(RoleOf(item), [Shown("text", text)]);
      assert ItemTurns(c, a) == turns && ItemTurns(c, b) == turns;
    }
  }

  lemma ShownContent(text: string)
    ensures MessageContent(Arr([Shown("input_text", text)])) == Arr([Shown("text", text)])
    ensures MessageContent(Str(text)) == if Blank(text) then Arr([]) else Arr([Shown("text", text)])
  {
    var o := Shown("input_text", text).fields;
    assert KindOf(o) == "input_text" by {
      assert Get(o, "type") == Str("input_text");
    }
    assert AsString(Get(o, "text")) == text;
    hide KindOf, Get, AsString, Blank;
    var blocks := ContentBlocks([Obj(o)]);
    assert blocks == [ContentBlock(Obj(o))];
  }

  lemma SameKindAndRole(item: Fields, key: string, value: Json)
    requires key == "content"
    ensures KindOf(item[key := value]) == KindOf(item) && RoleOf(item[key := value]) == RoleOf(item)
  {
    assert Get(item[key := value], "type") == Get(item, "type") && Get(item[key := value], "role") == Get(item, "role");
  }

  // ----- from messages to items -----

  /** What a reader of input items takes one item for: pieces of a message, or a tool item. */
  datatype Piece = Said(role: string, block: Json) | Tool(item: Json)

  predicate IsMessageItem(item: Json) {
    && item.Obj? && item.fields.Keys == {"type", "role", "content"} && item.fields["type"] == Str("message")
    && item.fields["role"].Str? && item.fields["content"].Arr?
  }

  function SaidBy(role: string, blocks: seq<Json>): (pieces: seq<Piece>)
    ensures |pieces| == |blocks| && forall k | 0 <= k < |blocks| :: pieces[k] == Said(role, blocks[k])
  {
    if blocks == [] then [] else [Said(role, blocks[0])] + SaidBy(role, blocks[1..])
  }

  function PiecesOf(item: Json): seq<Piece> {
    if IsMessageItem(item) then SaidBy(item.fields["role"].s, item.fields["content"].items) else [Tool(item)]
  }

  function Pieces(items: seq<Json>): seq<Piece> {
    if items == [] then [] else PiecesOf(items[0]) + Pieces(items[1..])
  }

  predicate IsTool(raw: Json) {
    raw.Obj? && IsWord(raw.fields, "type", {"tool_use", "tool_result"})
  }

  /** A text block becomes an input_text block, everything else is copied. */
  predicate BecomesInput(raw: Json, block: Json) {
    if raw.Obj? && IsWord(raw.fields, "type", {"text"}) then block == Shown("input_text", TextOr(raw.fields, "text"))
    else block == raw
  }

  predicate IsCall(c: Codec, block: Fields, item: Json) {
    && item.Obj? && item.fields.Keys == {"type", "call_id", "name", "arguments"}
    && item.fields["type"] == Str("function_call")
    && item.fields["call_id"] == ValueOr(block, "id") && item.fields["name"] == ValueOr(block, "name")
    && item.fields["arguments"] == Str(if "input" in block then c.enc(block["input"]) else "{}")
  }

  function NotTools(content: seq<Json>): seq<Json> {
    if content == [] then [] else (if IsTool(content[0]) then [] else [content[0]]) + NotTools(content[1..])
  }

  /** The output of a tool: a single text block as a string, a list without the tool blocks in it, or as it is. */
  predicate BecomesOutput(content: Json, output: Json) {
    if !content.Arr? then output == content
    else if |content.items| == 1 && content.items[0].Obj? && IsWord(content.items[0].fields, "type", {"text"}) then
      output == Str(TextOr(content.items[0].fields, "text"))
    else
      && output.Arr? && |output.items| == |NotTools(content.items)|
      && forall k | 0 <= k < |output.items| :: BecomesInput(NotTools(content.items)[k], output.items[k])
  }

  predicate IsOutput(block: Fields, item: Json) {
    && item.Obj? && item.fields.Keys == {"type", "call_id", "output"}
    && item.fields["type"] == Str("function_call_output")
    && item.fields["call_id"] == ValueOr(block, "tool_use_id")
    && BecomesOutput(ValueOr(block, "content"), item.fields["output"])
  }

  predicate BecomesPiece(c: Codec, role: string, raw: Json, piece: Piece) {
    if raw.Obj? && IsWord(raw.fields, "type", {"tool_use"}) then piece.Tool? && IsCall(c, raw.fields, piece.item)
    else if raw.Obj? && IsWord(raw.fields, "type", {"tool_result"}) then piece.Tool? && IsOutput(raw.fields, piece.item)
    else piece.Said? && piece.role == role && BecomesInput(raw, piece.block)
  }

  /** No message item is empty, and none directly follows another. */
  predicate Gathered(items: seq<Json>) {
    && (forall k | 0 <= k < |items| && IsMessageItem(items[k]) :: items[k].fields["content"] != Arr([]))
    && forall k | 0 < k < |items| :: !(IsMessageItem(items[k - 1]) && IsMessageItem(items[k]))
  }

  /** What one message becomes. */
  ghost predicate MessageBecomes(c: Codec, raw: Json, items: seq<Json>) {
    if !raw.Obj? then items == [raw] else
      var content := ValueOr(raw.fields, "content");
      exists role :: HasRole(raw.fields, role) &&
        if content.Arr? then
          && Gathered(items) && |Pieces(items)| == |content.items|
          && forall k | 0 <= k < |content.items| :: BecomesPiece(c, role, content.items[k], Pieces(items)[k])
        else if Blank(TextOr(raw.fields, "content")) then items == []
        else Gathered(items) && Pieces(items) == [Said(role, Shown("input_text", TextOr(raw.fields, "content")))]
  }

  lemma {:induction false} PiecesConcat(a: seq<Json>, b: seq<Json>)
    ensures Pieces(a + b) == Pieces(a) + Pieces(b)
  {
    hide PiecesOf;
    if a == [] {
      assert a + b == b;
    } else {
      assert (a + b)[1..] == a[1..] + b;
      PiecesConcat(a[1..], b);
      Sse.Assoc(PiecesOf(a[0]), Pieces(a[1..]), Pieces(b));
    }
  }

  lemma PiecesOfOne(item: Json)
    ensures Pieces([item]) == PiecesOf(item)
  {
    hide PiecesOf;
    assert [item][1..] == [] && PiecesOf(item) + [] == PiecesOf(item);
  }

  lemma MessageItemPieces(role: string, blocks: seq<Json>)
    ensures Pieces(MessageItem(role, blocks)) == SaidBy(role, blocks)
    ensures blocks != [] ==> IsMessageItem(MessageItem(role, blocks)[0])
                             && MessageItem(role, blocks)[0].fields["content"] == Arr(blocks)
  {
    if blocks != [] {
      var o := MessageItem(role, blocks)[0].fields;
      assert o.Keys == {"type", "role", "content"};
      assert o["type"] == Str("message") && o["role"] == Str(role) && o["content"] == Arr(blocks);
      PiecesOfOne(Obj(o));
    }
  }

  lemma ToolCallIs(c: Codec, block: Fields)
    ensures IsCall(c, block, ToolCall(c, block)) && !IsMessageItem(ToolCall(c, block))
  {
    var o := ToolCall(c, block).fields;
    assert o.Keys == {"type", "call_id", "name", "arguments"};
    assert o["type"] == Str("function_call") && o["call_id"] == ValueOr(block, "id");
    assert o["name"] == ValueOr(block, "name");
  }

  lemma InputBlockIs(raw: Json)
    ensures IsTool(raw) ==> InputBlock(raw) == []
    ensures !IsTool(raw) ==> |InputBlock(raw)| == 1 && BecomesInput(raw, InputBlock(raw)[0])
  {
    hide TrimSpace;
    if raw.Obj? {
      TrimNothing();
      Word(raw.fields, {"tool_use", "tool_result"});
      Word(raw.fields, {"text"});
      Lookups(raw.fields, "text");
    }
  }

  lemma {:induction false} InputBlocksAre(content: seq<Json>)
    ensures |InputBlocks(content)| == |NotTools(content)|
    ensures forall k | 0 <= k < |NotTools(content)| :: BecomesInput(NotTools(content)[k], InputBlocks(content)[k])
  {
    hide InputBlock, IsTool, BecomesInput;
    if content != [] {
      InputBlockIs(content[0]);
      InputBlocksAre(content[1..]);
    }
  }

  lemma ResultIs(content: Json)
    ensures BecomesOutput(content, ResultOutput(content))
  {
    hide BecomesInput, NotTools, InputBlocks, TrimSpace;
    if content.Arr? {
      InputBlocksAre(content.items);
      if |content.items| == 1 && content.items[0].Obj? {
        WordOf(content.items[0].fields, "text");
        Lookups(content.items[0].fields, "text");
      }
    }
  }

  lemma ToolOutputIs(block: Fields)
    ensures IsOutput(block, ToolOutput(block)) && !IsMessageItem(ToolOutput(block))
  {
    ResultIs(ValueOr(block, "content"));
    hide BecomesOutput, ResultOutput;
    var o := ToolOutput(block).fields;
    assert o.Keys == {"type", "call_id", "output"};
    assert o["type"] == Str("function_call_output") && o["call_id"] == ValueOr(block, "tool_use_id");
    assert o["output"] == ResultOutput(ValueOr(block, "content"));
  }

  /** The item a tool block becomes is a single piece. */
  lemma ToolItemIs(c: Codec, role: string, block: Fields, item: Json)
    requires KindOf(block) == "tool_use" || KindOf(block) == "tool_result"
    requires item == if KindOf(block) == "tool_use" then ToolCall(c, block) else ToolOutput(block)
    ensures Pieces([item]) == [Tool(item)] && BecomesPiece(c, role, Obj(block), Tool(item)) && !IsMessageItem(item)
  {
    ToolCallIs(c, block);
    ToolOutputIs(block);
    WordOf(block, "tool_use");
    WordOf(block, "tool_result");
    PiecesOfOne(item);
    hide IsCall, IsOutput, ToolCall, ToolOutput, IsWord, KindOf;
  }

  lemma PlainPiece(c: Codec, role: string, raw: Json)
    requires !(raw.Obj? && (KindOf(raw.fields) == "tool_use" || KindOf(raw.fields) == "tool_result"))
    ensures |InputBlock(raw)| == 1 && BecomesPiece(c, role, raw, Said(role, InputBlock(raw)[0]))
  {
    InputBlockIs(raw);
    hide TrimSpace, BecomesInput, InputBlock;
    if raw.Obj? {
      TrimNothing();
      Word(raw.fields, {"tool_use", "tool_result"});
      WordOf(raw.fields, "tool_use");
      WordOf(raw.fields, "tool_result");
    }
  }

  predicate PiecesAre(c: Codec, role: string, pending: seq<Json>, content: seq<Json>, pieces: seq<Piece>) {
    && |pieces| == |pending| + |content|
    && (forall k | 0 <= k < |pending| :: pieces[k] == Said(role, pending[k]))
    && forall k | 0 <= k < |content| :: BecomesPiece(c, role, content[k], pieces[|pending| + k])
  }

  /** Items that begin with a tool item, after at most one message item that is not empty. */
  lemma GatheredAfterTool(first: seq<Json>, tool: Json, rest: seq<Json>)
    requires Gathered(rest) && !IsMessageItem(tool) && |first| <= 1
    requires first != [] ==> IsMessageItem(first[0]) && first[0].fields["content"] != Arr([])
    ensures Gathered(first + [tool] + rest)
  {
    hide IsMessageItem;
    var all := first + [tool] + rest;
    assert forall k | 0 <= k < |rest| :: all[|first| + 1 + k] == rest[k];
    forall k | 0 < k < |all| ensures !(IsMessageItem(all[k - 1]) && IsMessageItem(all[k])) {
      if k > |first| + 1 {
        assert all[k - 1] == rest[k - |first| - 2] && all[k] == rest[k - |first| - 1];
      }
    }
  }

  lemma PiecesAfterTool(c: Codec, role: string, pending: seq<Json>, content: seq<Json>, tool: Piece, rest: seq<Piece>)
    requires content != [] && BecomesPiece(c, role, content[0], tool)
    requires PiecesAre(c, role, [], content[1..], rest)
    ensures PiecesAre(c, role, pending, content, SaidBy(role, pending) + [tool] + rest)
  {
    hide BecomesPiece;
    var all := SaidBy(role, pending) + [tool] + rest;
    forall k | 0 <= k < |content| ensures BecomesPiece(c, role, content[k], all[|pending| + k]) {
      if k > 0 {
        assert content[k] == content[1..][k - 1] && all[|pending| + k] == rest[k - 1];
        assert BecomesPiece(c, role, content[1..][k - 1], rest[0 + (k - 1)]);
      }
    }
  }

  lemma PiecesAfterBlock(c: Codec, role: string, pending: seq<Json>, content: seq<Json>, block: Json,
                         pieces: seq<Piece>)
    requires content != [] && BecomesPiece(c, role, content[0], Said(role, block))
    requires PiecesAre(c, role, pending + [block], content[1..], pieces)
    ensures PiecesAre(c, role, pending, content, pieces)
  {
    hide BecomesPiece;
    var more := pending + [block];
    assert pieces[|pending|] == Said(role, more[|pending|]);
    forall k | 0 <= k < |pending| ensures pieces[k] == Said(role, pending[k]) {
      assert more[k] == pending[k];
    }
    forall k | 0 <= k < |content| ensures BecomesPiece(c, role, content[k], pieces[|pending| + k]) {
      if k > 0 {
        assert content[k] == content[1..][k - 1];
        assert BecomesPiece(c, role, content[1..][k - 1], pieces[|more| + (k - 1)]);
      }
    }
  }

  lemma {:induction false} ItemsPieces(c: Codec, role: string, pending: seq<Json>, content: seq<Json>)
    ensures var items := ItemsFrom(c, role, pending, content);
            Gathered(items) && PiecesAre(c, role, pending, content, Pieces(items))
    decreases content
  {
    hide PiecesAre, KindOf, ToolCall, ToolOutput, InputBlock, MessageItem, IsMessageItem, Pieces, BecomesPiece;
    MessageItemPieces(role, pending);
    MessageItemLength(role, pending);
    if content == [] {
      PendingOnly(c, role, pending);
    } else {
      var raw, rest := content[0], content[1..];
      if raw.Obj? && (KindOf(raw.fields) == "tool_use" || KindOf(raw.fields) == "tool_result") {
        var item := if KindOf(raw.fields) == "tool_use" then ToolCall(c, raw.fields) else ToolOutput(raw.fields);
        var later := ItemsFrom(c, role, [], rest);
        ItemsPieces(c, role, [], rest);
        ToolItemIs(c, role, raw.fields, item);
        GatheredAfterTool(MessageItem(role, pending), item, later);
        PiecesConcat(MessageItem(role, pending) + [item], later);
        PiecesConcat(MessageItem(role, pending), [item]);
        PiecesAfterTool(c, role, pending, content, Tool(item), Pieces(later));
      } else {
        PlainPiece(c, role, raw);
        var block := InputBlock(raw)[0];
        assert InputBlock(raw) == [block];
        ItemsPieces(c, role, pending + [block], rest);
        PiecesAfterBlock(c, role, pending, content, block, Pieces(ItemsFrom(c, role, pending + [block], rest)));
      }
    }
  }

  lemma MessageItemLength(role: string, blocks: seq<Json>)
    ensures |MessageItem(role, blocks)| == if blocks == [] then 0 else 1
  {
  }

  lemma PendingOnly(c: Codec, role: string, pending: seq<Json>)
    ensures Gathered(MessageItem(role, pending))
    ensures PiecesAre(c, role, pending, [], SaidBy(role, pending))
  {
    MessageItemPieces(role, pending);
    hide MessageItem, IsMessageItem;
    MessageItemLength(role, pending);
  }

  /** Every message becomes the items its content asks for. */
  lemma MessageBecomesItems(c: Codec, raw: Json)
    ensures MessageBecomes(c, raw, InputOf(c, raw))
  {
    if raw.Obj? {
      var role, content := RoleOf(raw.fields), ValueOr(raw.fields, "content");
      RoleOfItem(raw.fields);
      Lookups(raw.fields, "content");
      if content.Arr? {
        ItemsPieces(c, role, [], content.items);
        hide HasRole, RoleOf, BecomesPiece, Gathered, Pieces, ItemsFrom, AsString, TextOr;
        var items := ItemsFrom(c, role, [], content.items);
        assert forall k | 0 <= k < |content.items| :: BecomesPiece(c, role, content.items[k], Pieces(items)[0 + k]);
      } else {
        var text := TextOr(raw.fields, "content");
        hide HasRole, RoleOf, BecomesPiece, Pieces, AsString, TextOr, Blank, MessageItem, IsMessageItem, Gathered;
        MessageItemPieces(role, TextInput(text));
        PendingOnly(c, role, TextInput(text));
        NoMessageItem(role);
      }
    }
  }

  lemma NoMessageItem(role: string)
    ensures MessageItem(role, []) == []
  {
  }

  function JoinedItems(parts: seq<seq<Json>>): seq<Json> {
    if parts == [] then [] else parts[0] + JoinedItems(parts[1..])
  }

  /** The input made of a list of messages is, in order, what each message becomes. */
  lemma {:induction false} MessagesMeaning(c: Codec, messages: seq<Json>) returns (parts: seq<seq<Json>>)
    ensures |parts| == |messages| && forall i | 0 <= i < |messages| :: MessageBecomes(c, messages[i], parts[i])
    ensures JoinedItems(parts) == ToInput(c, messages)
  {
    hide MessageBecomes, InputOf;
    parts := [];
    if messages != [] {
      var rest := MessagesMeaning(c, messages[1..]);
      MessageBecomesItems(c, messages[0]);
      parts := [InputOf(c, messages[0])] + rest;
      assert parts[1..] == rest;
      forall i | 0 <= i < |messages| ensures MessageBecomes(c, messages[i], parts[i]) {
        if i > 0 {
          assert MessageBecomes(c, messages[1..][i - 1], rest[i - 1]);
        }
      }
    }
  }
}
