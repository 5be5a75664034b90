/** What `ToResponses` writes, told without its state: the answer to each event from the events read before it. */
module ResponsesHistory {
  import opened Text
  import opened Json
  import opened Blocks
  import opened ResponsesDeltas
  import opened ResponsesOrder
  import opened ToResponses
  import M = MessagesEvents
  import R = ResponsesEvents
  import Sse

  // ----- what the events read so far amount to -----

  function Last(es: seq<M.In>): M.In
    requires es != []
  {
    es[|es| - 1]
  }

  function Front(es: seq<M.In>): seq<M.In>
    requires es != []
  {
    es[..|es| - 1]
  }

  /** The last id of a message_start that is not blank. */
  function IdOf(es: seq<M.In>): string {
    if es == [] then ""
    else if Last(es).Start? && !Blank(Last(es).id) then Last(es).id
    else IdOf(Front(es))
  }

  function ModelOf(es: seq<M.In>): string {
    if es == [] then ""
    else if Last(es).Start? && !Blank(Last(es).model) then Last(es).model
    else ModelOf(Front(es))
  }

  function RoleOf(es: seq<M.In>): string {
    if es == [] then "assistant"
    else if Last(es).Start? && !Blank(Last(es).role) then Last(es).role
    else RoleOf(Front(es))
  }

  /** The usage of the last message_start or message_delta; a message_delta without usage does not count. */
  function UsageOf(es: seq<M.In>): Option<Fields> {
    if es == [] then None
    else if Last(es).Start? || (Last(es).Delta? && Last(es).usage.Some?) then Last(es).usage
    else UsageOf(Front(es))
  }

  function StopReasonOf(es: seq<M.In>): string {
    if es == [] then ""
    else if Last(es).Delta? && !Blank(Last(es).stopReason) then Last(es).stopReason
    else StopReasonOf(Front(es))
  }

  function StopSequenceOf(es: seq<M.In>): Json {
    if es == [] then Null
    else if Last(es).Delta? then Last(es).stopSequence
    else StopSequenceOf(Front(es))
  }

  /** The events that begin the response when nothing has begun it before. */
  predicate Begins(e: M.In) {
    !e.Skip? && !e.Delta? && !e.Failure?
  }

  ghost predicate Begun(es: seq<M.In>) {
    exists e :: e in es && Begins(e)
  }

  predicate NamesPart(e: M.In) {
    e.TextStart? || e.TextDelta? || e.BlockStop?
  }

  /** The indexes the events have named, in ascending order. */
  ghost function IndexesOf(es: seq<M.In>): (r: seq<int>)
    ensures Ascending(r)
    ensures forall index :: index in r <==> ReadsIndex(es, index)
  {
    var keys := set i | 0 <= i < |es| && NamesPart(es[i]) :: es[i].index;
    assert forall index :: index in keys <==> ReadsIndex(es, index) by {
      forall index ensures index in keys <==> ReadsIndex(es, index) {
        if index in keys {
          var i :| 0 <= i < |es| && NamesPart(es[i]) && es[i].index == index;
          assert es[i] in es && Touches(es[i], index);
        }
      }
    }
    Sorted(keys)
  }

  // ----- what is written for one event -----

  ghost function Beginning(p: seq<M.In>, e: M.In): seq<R.Out> {
    if Begun(p) || !Begins(e) then [] else
      [R.OutCreated(IdOf(p + [e]), ModelOf(p + [e]), UsageOf(p + [e])),
       R.OutItemAdded(IdOf(p + [e]), RoleOf(p + [e]))]
  }

  ghost function NewPart(p: seq<M.In>, e: M.In): seq<R.Out> {
    if !NamesPart(e) || ReadsIndex(p, e.index) then [] else [R.OutPartAdded(IdOf(p), e.index)]
  }

  /** The end of a part: nothing when the input has ended it before. */
  ghost function Ending(p: seq<M.In>, index: int): seq<R.Out> {
    if ClosedPart(p, index) then [] else
      [R.OutTextDone(IdOf(p), index, InputText(p, index)), R.OutPartDone(IdOf(p), index, InputText(p, index))]
  }

  ghost function Endings(p: seq<M.In>, indexes: seq<int>): seq<R.Out>
    decreases indexes
  {
    if indexes == [] then [] else Ending(p, indexes[0]) + Endings(p, indexes[1..])
  }

  /** The message with the text of every part that was named. */
  ghost function ItemOf(p: seq<M.In>): (item: R.Item)
    ensures |item.texts| == |IndexesOf(p)|
    ensures forall k | 0 <= k < |item.texts| :: item.texts[k] == InputText(p, IndexesOf(p)[k])
  {
    var indexes := IndexesOf(p);
    R.Item(IdOf(p), RoleOf(p), seq(|indexes|, k requires 0 <= k < |indexes| => InputText(p, indexes[k])))
  }

  ghost function Completion(p: seq<M.In>): seq<R.Out> {
    Endings(p, IndexesOf(p))
    + [R.OutItemDone(ItemOf(p)),
       R.OutCompleted(IdOf(p), ModelOf(p), UsageOf(p), StopReasonOf(p), StopSequenceOf(p), ItemOf(p))]
  }

  ghost function Content(p: seq<M.In>, e: M.In): seq<R.Out> {
    match e
    case TextDelta(index, text) => [R.OutDelta(IdOf(p), index, text)]
    case BlockStop(index) => Ending(p, index)
    case Stop => Completion(p)
    case Failure(message, code) => [R.OutError(message, code)]
    case _ => []
  }

  ghost function Reply(p: seq<M.In>, e: M.In): seq<R.Out> {
    Beginning(p, e) + NewPart(p, e) + Content(p, e)
  }

  ghost function Replies(es: seq<M.In>): seq<R.Out> {
    if es == [] then [] else Replies(Front(es)) + Reply(Front(es), Last(es))
  }

  // ----- the converter's variables are the history -----

  ghost predicate Remembers(s: State, es: seq<M.In>) {
    && s.id == IdOf(es) && s.itemId == IdOf(es) && (s.id == "" || !Blank(s.id))
    && s.model == ModelOf(es) && (s.model == "" || !Blank(s.model))
    && s.role == RoleOf(es) && !Blank(s.role)
    && s.usage == UsageOf(es)
    && s.stopReason == StopReasonOf(es) && (s.stopReason == "" || !Blank(s.stopReason))
    && s.stopSequence == StopSequenceOf(es)
    && (s.created <==> Begun(es)) && (s.itemAdded <==> Begun(es))
  }

  lemma BegunAppend(p: seq<M.In>, e: M.In)
    ensures Begun(p + [e]) <==> Begun(p) || Begins(e)
  {
    assert forall x :: x in p + [e] <==> x in p || x == e;
  }

  lemma FirstOfTwo(a: string, b: string)
    ensures FirstNonEmpty([a, b]) == if !Blank(a) then a else if !Blank(b) then b else ""
    ensures FirstNonEmpty([a]) == if !Blank(a) then a else ""
  {
    FirstNonEmptyStep(a, [b]);
    FirstNonEmptyStep(b, []);
    FirstNonEmptyStep(a, []);
    assert [a] + [b] == [a, b] && [b] + [] == [b] && [a] + [] == [a];
  }

  lemma FirstOfThree(a: string, b: string, c: string)
    ensures FirstNonEmpty([a, b, c]) == if !Blank(a) then a else FirstNonEmpty([b, c])
  {
    FirstNonEmptyStep(a, [b, c]);
    assert [a] + [b, c] == [a, b, c];
  }

  lemma Assistant()
    ensures !Blank("assistant") && Blank("")
  {
    NotBlank("assistant");
  }

  lemma TakeStartRemembers(s: State, p: seq<M.In>, e: M.In)
    requires Remembers(s, p) && e.Start?
    ensures var t := TakeStart(s, e.id, e.model, e.role, e.usage);
            && t.id == IdOf(p + [e]) && t.itemId == t.id && t.model == ModelOf(p + [e]) && t.role == RoleOf(p + [e])
            && (t.id == "" || !Blank(t.id)) && (t.model == "" || !Blank(t.model)) && !Blank(t.role)
            && t.usage == UsageOf(p + [e])
  {
    hide FirstNonEmpty, Blank;
    Assistant();
    FirstOfTwo(e.id, s.id);
    FirstOfTwo(e.model, s.model);
    var newId := FirstNonEmpty([e.id, s.id]);
    FirstOfThree(e.id, s.itemId, newId);
    FirstOfTwo(s.itemId, newId);
    FirstOfThree(e.role, s.role, "assistant");
    FirstOfTwo(s.role, "assistant");
    assert Front(p + [e]) == p && Last(p + [e]) == e;
  }

  /** Opening the response writes its two events once. */
  lemma OpenedReplies(s: State, p: seq<M.In>, q: seq<M.In>)
    requires s.id == IdOf(q) == s.itemId && s.model == ModelOf(q) && s.role == RoleOf(q) && s.usage == UsageOf(q)
    requires !Blank(s.role) && (s.created <==> Begun(p)) && (s.itemAdded <==> Begun(p))
    ensures Opened(s) == s.(created := true, itemAdded := true,
                            out := s.out + if Begun(p) then [] else
                                     [R.OutCreated(IdOf(q), ModelOf(q), UsageOf(q)),
                                      R.OutItemAdded(IdOf(q), RoleOf(q))])
  {
    hide FirstNonEmpty, Blank;
    FirstOfTwo(s.role, "assistant");
    if !Begun(p) {
      var a, b := R.OutCreated(IdOf(q), ModelOf(q), UsageOf(q)), R.OutItemAdded(IdOf(q), RoleOf(q));
      assert s.out + [a] + [b] == s.out + [a, b];
    }
  }

  /** An event that is neither a message_start nor a message_delta changes nothing that is remembered. */
  lemma SameHistory(p: seq<M.In>, e: M.In)
    requires !e.Start? && !e.Delta?
    ensures var q := p + [e];
            && IdOf(q) == IdOf(p) && ModelOf(q) == ModelOf(p) && RoleOf(q) == RoleOf(p) && UsageOf(q) == UsageOf(p)
            && StopReasonOf(q) == StopReasonOf(p) && StopSequenceOf(q) == StopSequenceOf(p)
  {
    assert Front(p + [e]) == p && Last(p + [e]) == e;
  }

  lemma StartKeepsStop(p: seq<M.In>, e: M.In)
    requires e.Start?
    ensures StopReasonOf(p + [e]) == StopReasonOf(p) && StopSequenceOf(p + [e]) == StopSequenceOf(p)
  {
    assert Front(p + [e]) == p && Last(p + [e]) == e;
  }

  lemma {:induction false} CloseBlocksFrame(s: State, indexes: seq<int>)
    ensures CloseBlocks(s, indexes) == s.(blocks := CloseBlocks(s, indexes).blocks, out := CloseBlocks(s, indexes).out)
    decreases indexes
  {
    if indexes != [] {
      CloseBlocksFrame(CloseBlock(s, indexes[0]), indexes[1..]);
    }
  }

  lemma DeltaRemembers(s: State, p: seq<M.In>, e: M.In)
    requires Remembers(s, p) && e.Delta?
    ensures Remembers(Step(s, e), p + [e])
  {
    hide FirstNonEmpty, Blank, Begun;
    BegunAppend(p, e);
    Assistant();
    FirstOfTwo(e.stopReason, s.stopReason);
    assert Front(p + [e]) == p && Last(p + [e]) == e;
  }

  lemma StepRemembers(s: State, p: seq<M.In>, e: M.In)
    requires Remembers(s, p)
    ensures Remembers(Step(s, e), p + [e])
  {
    hide FirstNonEmpty, Blank, Begun, Opened, TakeStart, CloseBlocks, BuildItem;
    BegunAppend(p, e);
    match e
    case Start(id, model, role, usage) =>
      TakeStartRemembers(s, p, e);
      StartKeepsStop(p, e);
      TakeStartFrame(s, e);
      OpenedReplies(TakeStart(s, id, model, role, usage), p, p + [e]);
    case Delta(_, _, _) => DeltaRemembers(s, p, e);
    case Stop =>
      SameHistory(p, e);
      OpenedReplies(s, p, p);
      CloseBlocksFrame(Opened(s), Sorted(Opened(s).blocks.Keys));
    case _ =>
      SameHistory(p, e);
      OpenedReplies(s, p, p);
  }

  lemma TakeStartFrame(s: State, e: M.In)
    requires e.Start?
    ensures var t := TakeStart(s, e.id, e.model, e.role, e.usage);
            t == s.(id := t.id, itemId := t.itemId, model := t.model, role := t.role, usage := t.usage)
  {
    hide FirstNonEmpty;
  }

  lemma RemembersNothing()
    ensures Remembers(INIT, [])
  {
    Assistant();
  }

  lemma {:induction false} RunRemembers(es: seq<M.In>)
    ensures Remembers(Run(INIT, es), es)
    decreases es
  {
    hide Step, Remembers;
    if es == [] {
      RemembersNothing();
    } else {
      RunRemembers(Front(es));
      assert es == Front(es) + [Last(es)];
      RunLast(Front(es), Last(es));
      StepRemembers(Run(INIT, Front(es)), Front(es), Last(es));
    }
  }

  // ----- and its blocks -----

  ghost function BlockOf(es: seq<M.In>, index: int): Block {
    Block(InputText(es, index), ReadsIndex(es, index), ReadsIndex(es, index) && !ClosedPart(es, index))
  }

  lemma RunBlock(es: seq<M.In>, index: int)
    ensures BlockAt(Run(INIT, es).blocks, index) == BlockOf(es, index)
    ensures index in Run(INIT, es).blocks <==> ReadsIndex(es, index)
    ensures ClosedPart(es, index) ==> ReadsIndex(es, index)
  {
    RunText(INIT, es, index);
    RunCloses(es, index);
    hide Run, ReadsIndex, ClosedPart;
  }

  lemma RunKeys(es: seq<M.In>)
    ensures Sorted(Run(INIT, es).blocks.Keys) == IndexesOf(es)
  {
    hide Run, ReadsIndex;
    var blocks := Run(INIT, es).blocks;
    forall index ensures index in Sorted(blocks.Keys) <==> index in IndexesOf(es) {
      RunBlock(es, index);
      assert index in blocks.Keys <==> index in blocks;
    }
    AscendingUnique(Sorted(blocks.Keys), IndexesOf(es));
  }

  // ----- what one event makes the converter write -----

  lemma PartReplies(s: State, p: seq<M.In>, e: M.In)
    requires s.itemId == IdOf(p) && NamesPart(e) && BlockAt(s.blocks, e.index) == BlockOf(p, e.index)
    requires ClosedPart(p, e.index) ==> ReadsIndex(p, e.index)
    ensures var t := EnsurePartAdded(s, e.index);
            && t.out == s.out + NewPart(p, e) && t.itemId == s.itemId
            && BlockAt(t.blocks, e.index) == Block(InputText(p, e.index), true, !ClosedPart(p, e.index))
  {
    hide ReadsIndex, ClosedPart, InputText;
  }

  lemma EndingReplies(s: State, p: seq<M.In>, index: int)
    requires s.itemId == IdOf(p)
    requires BlockAt(s.blocks, index).open <==> !ClosedPart(p, index)
    requires BlockAt(s.blocks, index).text == InputText(p, index)
    ensures CloseBlock(s, index).out == s.out + Ending(p, index)
    ensures CloseBlock(s, index).itemId == s.itemId
    ensures forall i | i != index :: BlockAt(CloseBlock(s, index).blocks, i) == BlockAt(s.blocks, i)
  {
    hide ClosedPart, InputText;
  }

  lemma {:induction false} EndingsReply(s: State, p: seq<M.In>, indexes: seq<int>)
    requires s.itemId == IdOf(p) && Ascending(indexes)
    requires forall i | i in indexes :: BlockAt(s.blocks, i).text == InputText(p, i)
    requires forall i | i in indexes :: BlockAt(s.blocks, i).open <==> !ClosedPart(p, i)
    ensures CloseBlocks(s, indexes).out == s.out + Endings(p, indexes)
    decreases indexes
  {
    hide ClosedPart, InputText, CloseBlock, Ending, BlockAt;
    if indexes != [] {
      var i, rest := indexes[0], indexes[1..];
      assert forall k :: k in indexes <==> k == i || k in rest;
      assert forall k | k in rest :: k != i;
      EndingReplies(s, p, i);
      EndingsReply(CloseBlock(s, i), p, rest);
      Sse.Assoc(s.out, Ending(p, i), Endings(p, rest));
    }
  }

  lemma StopReplies(s: State, p: seq<M.In>)
    requires s == Run(INIT, p) && Remembers(s, p)
    ensures Step(s, M.Stop).out == s.out + Reply(p, M.Stop)
  {
    hide FirstNonEmpty, Blank, Begun, CloseBlocks, Run, ReadsIndex, ClosedPart, InputText, Opened, Endings, IndexesOf,
         BlockAt;
    OpenedReplies(s, p, p);
    SameHistory(p, M.Stop);
    var o, indexes := Opened(s), IndexesOf(p);
    RunKeys(p);
    assert o.blocks == s.blocks && o.itemId == s.itemId;
    forall i | i in indexes
      ensures BlockAt(s.blocks, i).text == InputText(p, i) && (BlockAt(s.blocks, i).open <==> !ClosedPart(p, i))
    {
      RunBlock(p, i);
    }
    EndingsReply(o, p, indexes);
    var c := CloseBlocks(o, indexes);
    CloseBlocksFrame(o, indexes);
    BuiltItem(c, s, p);
    assert NewPart(p, M.Stop) == [];
    var b := Beginning(p, M.Stop);
    Sse.Assoc(s.out, b, Endings(p, indexes));
    var last := [R.OutItemDone(ItemOf(p)),
                 R.OutCompleted(IdOf(p), ModelOf(p), UsageOf(p), StopReasonOf(p), StopSequenceOf(p), ItemOf(p))];
    Sse.Assoc(s.out, b + Endings(p, indexes), last);
    Sse.Assoc(b, Endings(p, indexes), last);
    assert b + [] == b;
  }

  /** Closing the blocks does not change the item they make up. */
  lemma BuiltItem(c: State, s: State, p: seq<M.In>)
    requires s == Run(INIT, p) && Remembers(s, p)
    requires c == CloseBlocks(Opened(s), IndexesOf(p)) && c.itemId == s.itemId && c.role == s.role
    ensures BuildItem(c) == ItemOf(p)
  {
    FirstOfTwo(s.role, "assistant");
    hide Blank, FirstNonEmpty, Begun, Run, CloseBlocks, Opened, IndexesOf, BlockAt, Texts, ItemOf, UsageOf,
         StopReasonOf, StopSequenceOf, ModelOf, RoleOf, IdOf;
    RunKeys(p);
    OpenedKeepsBlocks(s);
    CloseBlocksKeepsTexts(Opened(s), IndexesOf(p));
    assert Sorted(c.blocks.Keys) == IndexesOf(p);
    CollectedTexts(c.blocks, s, p);
    ItemIs(p);
  }

  lemma ItemIs(p: seq<M.In>)
    ensures ItemOf(p).id == IdOf(p) && ItemOf(p).role == RoleOf(p)
  {
  }

  lemma CollectedTexts(blocks: BlockMap, s: State, p: seq<M.In>)
    requires s == Run(INIT, p) && SameTexts(blocks, s.blocks)
    ensures Texts(blocks, IndexesOf(p)) == ItemOf(p).texts
  {
    hide Run, ReadsIndex, ClosedPart, InputText, IndexesOf, BlockAt;
    var texts := Texts(blocks, IndexesOf(p));
    forall k | 0 <= k < |texts| ensures texts[k] == ItemOf(p).texts[k] {
      RunBlock(p, IndexesOf(p)[k]);
    }
    assert texts == ItemOf(p).texts;
  }

  lemma PartEventReplies(s: State, p: seq<M.In>, e: M.In)
    requires s == Run(INIT, p) && Remembers(s, p) && NamesPart(e)
    ensures Step(s, e).out == s.out + Reply(p, e)
  {
    hide FirstNonEmpty, Blank, Begun, Run, ReadsIndex, ClosedPart, InputText, Opened, EnsurePartAdded, CloseBlock;
    OpenedReplies(s, p, p);
    SameHistory(p, e);
    RunBlock(p, e.index);
    var o := Opened(s);
    PartReplies(o, p, e);
    var t := EnsurePartAdded(o, e.index);
    if e.BlockStop? {
      EndingReplies(t, p, e.index);
    }
    var b, n := Beginning(p, e), NewPart(p, e);
    Sse.Assoc(s.out, b, n);
    Sse.Assoc(s.out, b + n, Content(p, e));
    assert b + n + [] == b + n && s.out + (b + n) + [] == s.out + (b + n);
  }

  lemma StepReplies(s: State, p: seq<M.In>, e: M.In)
    requires s == Run(INIT, p) && Remembers(s, p)
    ensures Step(s, e).out == s.out + Reply(p, e)
  {
    hide FirstNonEmpty, Blank, Begun, Run, ReadsIndex, Opened, TakeStart, Ending, Completion;
    if NamesPart(e) {
      PartEventReplies(s, p, e);
    } else if e.Stop? {
      StopReplies(s, p);
    } else if e.Start? {
      TakeStartRemembers(s, p, e);
      TakeStartFrame(s, e);
      OpenedReplies(TakeStart(s, e.id, e.model, e.role, e.usage), p, p + [e]);
      assert Beginning(p, e) + [] + [] == Beginning(p, e);
    } else {
      assert Beginning(p, e) == [] && NewPart(p, e) == [];
      assert [] + [] + Content(p, e) == Content(p, e);
    }
  }

  /** For every input, the converter writes just what the history says, event by event. */
  lemma {:induction false} OutputIsReplies(es: seq<M.In>)
    ensures Run(INIT, es).out == Replies(es)
    decreases es
  {
    hide Step, Reply, Remembers;
    if es != [] {
      OutputIsReplies(Front(es));
      RunRemembers(Front(es));
      assert es == Front(es) + [Last(es)];
      RunLast(Front(es), Last(es));
      StepReplies(Run(INIT, Front(es)), Front(es), Last(es));
    }
  }

  // ----- failures -----

  /** The errors of a written stream, with their codes, in order. */
  function ErrorsIn(out: seq<R.Out>): seq<(string, string)> {
    if out == [] then [] else ErrorOf(out[0]) + ErrorsIn(out[1..])
  }

  function ErrorOf(e: R.Out): seq<(string, string)> {
    if e.OutError? then [(e.message, e.code)] else []
  }

  /** The failures among the events read, in order. */
  function FailuresIn(es: seq<M.In>): seq<(string, string)> {
    if es == [] then [] else FailureOf(es[0]) + FailuresIn(es[1..])
  }

  function FailureOf(e: M.In): seq<(string, string)> {
    if e.Failure? then [(e.message, e.code)] else []
  }

  lemma {:induction false} ErrorsConcat(a: seq<R.Out>, b: seq<R.Out>)
    ensures ErrorsIn(a + b) == ErrorsIn(a) + ErrorsIn(b)
  {
    if a == [] {
      assert a + b == b;
    } else {
      hide ErrorOf;
      assert (a + b)[1..] == a[1..] + b && (a + b)[0] == a[0];
      ErrorsConcat(a[1..], b);
      Sse.Assoc(ErrorOf(a[0]), ErrorsIn(a[1..]), ErrorsIn(b));
    }
  }

  lemma {:induction false} FailuresConcat(a: seq<M.In>, b: seq<M.In>)
    ensures FailuresIn(a + b) == FailuresIn(a) + FailuresIn(b)
  {
    if a == [] {
      assert a + b == b;
    } else {
      hide FailureOf;
      assert (a + b)[1..] == a[1..] + b && (a + b)[0] == a[0];
      FailuresConcat(a[1..], b);
      Sse.Assoc(FailureOf(a[0]), FailuresIn(a[1..]), FailuresIn(b));
    }
  }

  lemma {:induction false} NoErrors(out: seq<R.Out>)
    requires forall k | 0 <= k < |out| :: !out[k].OutError?
    ensures ErrorsIn(out) == []
  {
    if out != [] {
      NoErrors(out[1..]);
    }
  }

  lemma {:induction false} EndingsAreEndings(p: seq<M.In>, indexes: seq<int>)
    ensures forall k | 0 <= k < |Endings(p, indexes)| ::
              && (Endings(p, indexes)[k].OutTextDone? || Endings(p, indexes)[k].OutPartDone?)
              && Endings(p, indexes)[k].itemId == IdOf(p)
    decreases indexes
  {
    hide ClosedPart;
    if indexes != [] {
      EndingsAreEndings(p, indexes[1..]);
    }
  }

  lemma ReplyFails(p: seq<M.In>, e: M.In)
    ensures ErrorsIn(Reply(p, e)) == FailuresIn([e])
  {
    hide Beginning, NewPart, Content, ErrorsIn, FailuresIn;
    OpeningsDoNotFail(p, e);
    ContentFails(p, e);
    ErrorsConcat(Beginning(p, e) + NewPart(p, e), Content(p, e));
    assert [] + ErrorsIn(Content(p, e)) == ErrorsIn(Content(p, e));
  }

  lemma OpeningsDoNotFail(p: seq<M.In>, e: M.In)
    ensures ErrorsIn(Beginning(p, e) + NewPart(p, e)) == []
  {
    hide Begun, ReadsIndex, ErrorsIn;
    NoErrors(Beginning(p, e) + NewPart(p, e));
  }

  lemma ContentFails(p: seq<M.In>, e: M.In)
    ensures ErrorsIn(Content(p, e)) == FailuresIn([e])
  {
    hide ClosedPart, Endings, ItemOf, IndexesOf;
    EndingsAreEndings(p, IndexesOf(p));
    assert [e][1..] == [] && FailuresIn([]) == [];
    if e.Failure? {
      assert [R.OutError(e.message, e.code)][1..] == [];
    } else {
      hide ErrorsIn;
      NoErrors(Content(p, e));
    }
  }

  /** For every input, the errors written are the failures read: none lost, none invented, in order, with message
      and code. */
  lemma {:induction false} FailuresPassOn(es: seq<M.In>)
    ensures ErrorsIn(Run(INIT, es).out) == FailuresIn(es)
    decreases es
  {
    hide Step, Reply, ErrorsIn, FailuresIn;
    OutputIsReplies(es);
    if es == [] {
      NoErrors([]);
      NoFailures();
    } else {
      var front, e := Front(es), Last(es);
      FailuresPassOn(front);
      OutputIsReplies(front);
      ReplyFails(front, e);
      ErrorsConcat(Replies(front), Reply(front, e));
      FailuresConcat(front, [e]);
      assert es == front + [e];
    }
  }

  lemma NoFailures()
    ensures FailuresIn([]) == []
  {
  }

  // ----- one item -----

  /** The item an event is about. */
  function ItemIdOf(e: R.Out): Option<string> {
    match e
    case OutItemAdded(itemId, _) => Some(itemId)
    case OutPartAdded(itemId, _) => Some(itemId)
    case OutDelta(itemId, _, _) => Some(itemId)
    case OutTextDone(itemId, _, _) => Some(itemId)
    case OutPartDone(itemId, _, _) => Some(itemId)
    case OutItemDone(item) => Some(item.id)
    case OutCreated(id, _, _) => Some(id)
    case OutCompleted(id, _, _, _, _, item) => if id == item.id then Some(id) else None
    case OutError(_, _) => None
  }

  predicate About(e: R.Out, id: string) {
    e.OutError? || ItemIdOf(e) == Some(id)
  }

  lemma ContentIsAbout(p: seq<M.In>, e: M.In)
    requires !e.Start? && !e.Delta?
    ensures forall k | 0 <= k < |Content(p, e)| :: About(Content(p, e)[k], IdOf(p))
  {
    hide Begun, ClosedPart, ReadsIndex, Endings, IndexesOf, IdOf;
    EndingsAreEndings(p, IndexesOf(p));
  }

  lemma ReplyIsAbout(p: seq<M.In>, e: M.In)
    ensures forall k | 0 <= k < |Reply(p, e)| :: About(Reply(p, e)[k], IdOf(p + [e]))
  {
    if !e.Start? && !e.Delta? {
      SameHistory(p, e);
      ContentIsAbout(p, e);
    }
    hide Begun, ClosedPart, ReadsIndex, IdOf, Completion, Ending;
    var b, n, c := Beginning(p, e), NewPart(p, e), Content(p, e);
    assert forall k | 0 <= k < |b| :: About(b[k], IdOf(p + [e]));
    assert forall k | 0 <= k < |n| :: About(n[k], IdOf(p + [e]));
    hide About, Beginning, NewPart, Content;
  }

  lemma {:induction false} OnlyFirstStarts(es: seq<M.In>)
    requires es != [] && forall k | 0 < k < |es| :: !es[k].Start?
    ensures IdOf(es) == IdOf([es[0]])
    decreases es
  {
    if |es| == 1 {
      assert es == [es[0]];
    } else {
      assert Front(es)[0] == es[0] && Last(es) == es[|es| - 1];
      OnlyFirstStarts(Front(es));
    }
  }

  /** In a stream with one message every event names the same item: the id of its message_start, which is also the
      id of the response. */
  lemma {:induction false} OneItem(es: seq<M.In>)
    requires forall k | 0 < k < |es| :: !es[k].Start?
    ensures forall k | 0 <= k < |Run(INIT, es).out| :: About(Run(INIT, es).out[k], IdOf(es))
    decreases es
  {
    hide Run, Reply, About;
    OutputIsReplies(es);
    if es != [] {
      var front, e := Front(es), Last(es);
      assert forall k | 0 < k < |front| :: front[k] == es[k];
      OneItem(front);
      OutputIsReplies(front);
      ReplyIsAbout(front, e);
      assert es == front + [e];
      if front == [] {
        assert Replies(front) == [];
      } else {
        OnlyFirstStarts(front);
        OnlyFirstStarts(es);
      }
    }
  }
}
