/** Conversations as a flat list of turns, and `appendAnthropicMessageContent`: adjacent turns of one
    role become one message. */
module Grouping {
  import opened Text
  import opened Json
  import Sse

  /** A message of the Messages API. */
  datatype Message = Message(role: string, content: seq<Json>)

  datatype Turn = Turn(role: string, block: Json)

  predicate LastHasRole(messages: seq<Message>, role: string) {
    messages != [] && FirstNonEmpty([messages[|messages| - 1].role, "user"]) == role
  }

  /** `appendAnthropicMessageContent`: nothing is added for an empty list. */
  function AppendContent(messages: seq<Message>, role: string, blocks: seq<Json>): seq<Message> {
    if blocks == [] then messages
    else if LastHasRole(messages, role) then
      var last := messages[|messages| - 1];
      messages[|messages| - 1 := last.(content := last.content + blocks)]
    else messages + [Message(role, blocks)]
  }

  function AddTurns(messages: seq<Message>, turns: seq<Turn>): seq<Message>
    decreases turns
  {
    if turns == [] then messages
    else AddTurns(AppendContent(messages, turns[0].role, [turns[0].block]), turns[1..])
  }

  function Group(turns: seq<Turn>): seq<Message> {
    AddTurns([], turns)
  }

  function TurnsOf(role: string, blocks: seq<Json>): (turns: seq<Turn>)
    ensures |turns| == |blocks| && forall i | 0 <= i < |blocks| :: turns[i] == Turn(role, blocks[i])
  {
    if blocks == [] then [] else [Turn(role, blocks[0])] + TurnsOf(role, blocks[1..])
  }

  function Flatten(messages: seq<Message>): seq<Turn> {
    if messages == [] then [] else TurnsOf(messages[0].role, messages[0].content) + Flatten(messages[1..])
  }

  /** Every message has a role and says something. */
  predicate Sound(messages: seq<Message>) {
    forall i | 0 <= i < |messages| :: messages[i].content != [] && !Blank(messages[i].role)
  }

  /** No two neighbours share a role. */
  predicate Alternating(messages: seq<Message>) {
    forall i | 0 < i < |messages| :: messages[i - 1].role != messages[i].role
  }

  predicate WellGrouped(messages: seq<Message>) {
    Sound(messages) && Alternating(messages)
  }

  predicate Named(turns: seq<Turn>) {
    forall t | t in turns :: !Blank(t.role)
  }

  // ----- what adding content does to the flat list -----

  lemma RoleOfMessage(role: string)
    requires !Blank(role)
    ensures FirstNonEmpty([role, "user"]) == role
  {
    FirstNonEmptyStep(role, ["user"]);
    assert [role] + ["user"] == [role, "user"];
  }

  lemma {:induction false} FlattenAppend(a: seq<Message>, b: seq<Message>)
    ensures Flatten(a + b) == Flatten(a) + Flatten(b)
  {
    if a == [] {
      assert a + b == b;
    } else {
      assert (a + b)[1..] == a[1..] + b && (a + b)[0] == a[0];
      FlattenAppend(a[1..], b);
      assert TurnsOf(a[0].role, a[0].content) + Flatten(a[1..]) + Flatten(b)
          == TurnsOf(a[0].role, a[0].content) + (Flatten(a[1..]) + Flatten(b));
    }
  }

  lemma FlattenOne(m: Message)
    ensures Flatten([m]) == TurnsOf(m.role, m.content)
  {
    assert [m][1..] == [] && TurnsOf(m.role, m.content) + [] == TurnsOf(m.role, m.content);
  }

  lemma FlattenSnoc(front: seq<Message>, m: Message)
    ensures Flatten(front + [m]) == Flatten(front) + TurnsOf(m.role, m.content)
  {
    FlattenAppend(front, [m]);
    FlattenOne(m);
  }

  lemma TurnsOfConcat(role: string, a: seq<Json>, b: seq<Json>)
    ensures TurnsOf(role, a + b) == TurnsOf(role, a) + TurnsOf(role, b)
  {
  }

  /** Appending content never joins or splits earlier messages. */
  lemma AppendAlternating(messages: seq<Message>, role: string, blocks: seq<Json>)
    requires Sound(messages) && !Blank(role)
    ensures Sound(AppendContent(messages, role, blocks))
    ensures Alternating(AppendContent(messages, role, blocks)) <==> Alternating(messages)
  {
    hide Blank, FirstNonEmpty;
    var r := AppendContent(messages, role, blocks);
    if messages != [] {
      RoleOfMessage(messages[|messages| - 1].role);
    }
    assert |messages| <= |r| && forall i | 0 <= i < |messages| :: r[i].role == messages[i].role;
  }

  lemma AppendFlatten(messages: seq<Message>, role: string, blocks: seq<Json>)
    requires Sound(messages) && !Blank(role)
    ensures Flatten(AppendContent(messages, role, blocks)) == Flatten(messages) + TurnsOf(role, blocks)
  {
    if messages != [] {
      RoleOfMessage(messages[|messages| - 1].role);
    }
    hide Blank, FirstNonEmpty;
    if blocks == [] {
      assert Flatten(messages) + [] == Flatten(messages);
    } else if LastHasRole(messages, role) {
      var front, last := messages[..|messages| - 1], messages[|messages| - 1];
      var more := last.(content := last.content + blocks);
      assert last.role == role && messages == front + [last];
      assert AppendContent(messages, role, blocks) == front + [more];
      hide Flatten, TurnsOf, Sound;
      FlattenSnoc(front, last);
      FlattenSnoc(front, more);
      TurnsOfConcat(role, last.content, blocks);
      Sse.Assoc(Flatten(front), TurnsOf(role, last.content), TurnsOf(role, blocks));
    } else {
      FlattenSnoc(messages, Message(role, blocks));
    }
  }

  /** Appending content appends exactly its turns. */
  lemma AppendContentTurns(messages: seq<Message>, role: string, blocks: seq<Json>)
    requires Sound(messages) && !Blank(role)
    ensures var r := AppendContent(messages, role, blocks);
            && Sound(r) && Flatten(r) == Flatten(messages) + TurnsOf(role, blocks)
            && (Alternating(r) <==> Alternating(messages))
  {
    AppendAlternating(messages, role, blocks);
    AppendFlatten(messages, role, blocks);
  }

  lemma AppendTwice(messages: seq<Message>, role: string, a: seq<Json>, b: seq<Json>)
    requires !Blank(role) && a != []
    ensures AppendContent(AppendContent(messages, role, a), role, b) == AppendContent(messages, role, a + b)
  {
    RoleOfMessage(role);
    hide Blank, FirstNonEmpty;
    assert LastHasRole(AppendContent(messages, role, a), role);
    if b == [] {
      assert a + b == a;
    } else if LastHasRole(messages, role) {
      var last := messages[|messages| - 1];
      Sse.Assoc(last.content, a, b);
    }
  }

  /** The blocks of one message added together or one by one. */
  lemma {:induction false} AppendOneByOne(messages: seq<Message>, role: string, blocks: seq<Json>)
    requires !Blank(role)
    ensures AddTurns(messages, TurnsOf(role, blocks)) == AppendContent(messages, role, blocks)
    decreases blocks
  {
    if blocks != [] {
      var first, rest := [blocks[0]], blocks[1..];
      AppendTwice(messages, role, first, rest);
      assert first + rest == blocks;
      var turns := TurnsOf(role, blocks);
      assert turns[0] == Turn(role, blocks[0]) && turns[1..] == TurnsOf(role, rest);
      hide AppendContent, Blank;
      AppendOneByOne(AppendContent(messages, role, first), role, rest);
    }
  }

  lemma {:induction false} AddTurnsConcat(messages: seq<Message>, a: seq<Turn>, b: seq<Turn>)
    ensures AddTurns(messages, a + b) == AddTurns(AddTurns(messages, a), b)
    decreases a
  {
    hide LastHasRole;
    if a == [] {
      assert a + b == b;
    } else {
      assert (a + b)[1..] == a[1..] + b && (a + b)[0] == a[0];
      AddTurnsConcat(AppendContent(messages, a[0].role, [a[0].block]), a[1..], b);
    }
  }

  lemma {:induction false} AddTurnsMeaning(messages: seq<Message>, turns: seq<Turn>)
    requires Sound(messages) && Named(turns)
    ensures var r := AddTurns(messages, turns);
            && Sound(r) && Flatten(r) == Flatten(messages) + turns
            && (Alternating(r) <==> Alternating(messages))
    decreases turns
  {
    hide Sound, Alternating, AppendContent, Flatten, Blank;
    if turns == [] {
      assert Flatten(messages) + [] == Flatten(messages);
    } else {
      var t, rest := turns[0], turns[1..];
      assert t in turns && forall x | x in rest :: x in turns;
      AppendContentTurns(messages, t.role, [t.block]);
      AddTurnsMeaning(AppendContent(messages, t.role, [t.block]), rest);
      assert TurnsOf(t.role, [t.block]) == [t];
      Sse.Assoc(Flatten(messages), [t], rest);
    }
  }

  /** Grouping loses nothing, keeps the order and leaves no two neighbours with one role. */
  lemma GroupMeaning(turns: seq<Turn>)
    requires Named(turns)
    ensures WellGrouped(Group(turns)) && Flatten(Group(turns)) == turns
  {
    AddTurnsMeaning([], turns);
    assert Flatten([]) + turns == turns;
  }

  // ----- there is only one way to group -----

  /** The length of the first run of one role. */
  lemma HeadOfFlatten(a: seq<Message>)
    requires WellGrouped(a) && a != []
    ensures var n := |a[0].content|; var t := Flatten(a);
            && n > 0 && n <= |t|
            && t[..n] == TurnsOf(a[0].role, a[0].content)
            && t[n..] == Flatten(a[1..])
            && (forall i | 0 <= i < n :: t[i].role == a[0].role)
            && (n < |t| ==> t[n].role != a[0].role)
  {
    hide Blank;
    if |a| > 1 {
      var rest := a[1..];
      assert rest[0] == a[1];
      assert Flatten(rest)[0] == Turn(rest[0].role, rest[0].content[0]);
    }
  }

  /** A well grouped conversation is determined by its flat list of turns. */
  lemma {:induction false} GroupingUnique(a: seq<Message>, b: seq<Message>)
    requires WellGrouped(a) && WellGrouped(b) && Flatten(a) == Flatten(b)
    ensures a == b
    decreases |a|
  {
    hide Blank;
    if a == [] || b == [] {
      if a != [] { HeadOfFlatten(a); }
      if b != [] { HeadOfFlatten(b); }
    } else {
      HeadOfFlatten(a);
      HeadOfFlatten(b);
      var n, m := |a[0].content|, |b[0].content|;
      var t := Flatten(a);
      assert t[0].role == a[0].role == b[0].role;
      assert n == m;
      SameContent(a[0].role, a[0].content, b[0].content);
      GroupingUnique(a[1..], b[1..]);
    }
  }

  lemma SameContent(role: string, a: seq<Json>, b: seq<Json>)
    requires TurnsOf(role, a) == TurnsOf(role, b)
    ensures a == b
  {
    assert |a| == |b|;
    forall i | 0 <= i < |a| ensures a[i] == b[i] {
      assert TurnsOf(role, a)[i] == TurnsOf(role, b)[i];
    }
  }

  /** Grouping the turns of a well grouped conversation gives it back. */
  lemma GroupFlatten(messages: seq<Message>)
    requires WellGrouped(messages)
    ensures Group(Flatten(messages)) == messages
  {
    FlattenNamed(messages);
    GroupMeaning(Flatten(messages));
    GroupingUnique(Group(Flatten(messages)), messages);
  }

  lemma {:induction false} FlattenNamed(messages: seq<Message>)
    requires forall i | 0 <= i < |messages| :: !Blank(messages[i].role)
    ensures Named(Flatten(messages))
  {
    hide Blank;
    if messages != [] {
      FlattenNamed(messages[1..]);
    }
  }
}
