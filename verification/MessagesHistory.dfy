/** What `ToMessages` writes, told without its state: the answer to each event from the events read before it. */
module MessagesHistory {
  import opened Text
  import opened Json
  import opened Blocks
  import opened MessagesOrder
  import opened ToMessages
  import M = MessagesEvents
  import R = ResponsesEvents
  import Responses = ResponsesHistory
  import Sse

  // ----- what the events read so far amount to -----

  function Last(es: seq<R.In>): R.In
    requires es != []
  {
    es[|es| - 1]
  }

  function Front(es: seq<R.In>): seq<R.In>
    requires es != []
  {
    es[..|es| - 1]
  }

  predicate HoldsResponse(e: R.In) {
    e.Created? || e.Completed?
  }

  /** The last id of a response that is not blank; until one arrives, the id of the first output item that has one. */
  function IdOf(es: seq<R.In>): string {
    if es == [] then "" else
      var before, e := IdOf(Front(es)), Last(es);
      if HoldsResponse(e) then (if !Blank(e.id) then e.id else if Blank(before) then "" else before)
      else if e.ItemAdded? && before == "" then e.id
      else before
  }

  function ModelOf(es: seq<R.In>): string {
    if es == [] then ""
    else if HoldsResponse(Last(es)) && !Blank(Last(es).model) then Last(es).model
    else ModelOf(Front(es))
  }

  function RoleOf(es: seq<R.In>): string {
    if es == [] then "assistant"
    else if Last(es).ItemAdded? && !Blank(Last(es).role) then Last(es).role
    else RoleOf(Front(es))
  }

  /** The usage of the last response; a completed response without usage does not count. */
  function UsageOf(es: seq<R.In>): Option<Fields> {
    if es == [] then None
    else if Last(es).Created? || (Last(es).Completed? && Last(es).usage.Some?) then Last(es).usage
    else UsageOf(Front(es))
  }

  /** The events that begin the message when nothing has begun it before. */
  predicate Begins(e: R.In) {
    HoldsResponse(e) || e.PartAdded? || e.TextDelta?
  }

  ghost predicate Begun(es: seq<R.In>) {
    exists e :: e in es && Begins(e)
  }

  /** The blocks the input has opened and not closed, in ascending order. */
  ghost function StillOpen(es: seq<R.In>): (r: seq<int>)
    ensures Ascending(r)
    ensures forall index :: index in r <==> OpenedPart(es, index) && !ClosedPart(es, index)
  {
    var keys := set i | 0 <= i < |es| && (es[i].PartAdded? || es[i].TextDelta?) && !ClosedPart(es, es[i].index) ::
                  es[i].index;
    assert forall index :: index in keys <==> OpenedPart(es, index) && !ClosedPart(es, index) by {
      hide ClosedPart;
      forall index ensures index in keys <==> OpenedPart(es, index) && !ClosedPart(es, index) {
        if index in keys {
          var i :| 0 <= i < |es| && (es[i].PartAdded? || es[i].TextDelta?) && es[i].index == index;
          assert Opens(es[i], index);
        }
      }
    }
    Sorted(keys)
  }

  // ----- what is written for one event -----

  ghost function Beginning(p: seq<R.In>, e: R.In): seq<M.Out> {
    if Begun(p) || !Begins(e) then [] else
      [M.MessageStart(IdOf(p + [e]), ModelOf(p + [e]), RoleOf(p + [e]), UsageOf(p + [e]))]
  }

  ghost function NewBlock(p: seq<R.In>, e: R.In): seq<M.Out> {
    if !(e.PartAdded? || e.TextDelta?) || OpenedPart(p, e.index) then [] else [M.BlockStart(e.index)]
  }

  function Ends(indexes: seq<int>): (out: seq<M.Out>)
    ensures |out| == |indexes| && forall k | 0 <= k < |out| :: out[k] == M.BlockEnd(indexes[k])
  {
    if indexes == [] then [] else [M.BlockEnd(indexes[0])] + Ends(indexes[1..])
  }

  ghost function Content(p: seq<R.In>, e: R.In): seq<M.Out> {
    match e
    case Ping => [M.Ping]
    case TextDelta(index, text) => [M.BlockDelta(index, text)]
    case PartDone(index, _) => if OpenedPart(p, index) && !ClosedPart(p, index) then [M.BlockEnd(index)] else []
    case Completed(_, _, usage, stopReason, stopSequence) =>
      Ends(StillOpen(p))
      + [M.MessageDelta(if Blank(stopReason) then "end_turn" else stopReason, stopSequence, usage), M.MessageStop]
    case Failure(message) => [M.Error(message)]
    case _ => []
  }

  ghost function Reply(p: seq<R.In>, e: R.In): seq<M.Out> {
    Beginning(p, e) + NewBlock(p, e) + Content(p, e)
  }

  ghost function Replies(es: seq<R.In>): seq<M.Out> {
    if es == [] then [] else Replies(Front(es)) + Reply(Front(es), Last(es))
  }

  // ----- the converter's variables are the history -----

  ghost predicate Remembers(s: State, es: seq<R.In>) {
    && s.id == IdOf(es)
    && s.model == ModelOf(es) && (s.model == "" || !Blank(s.model))
    && s.role == RoleOf(es) && !Blank(s.role)
    && s.startUsage == UsageOf(es)
    && (s.started <==> Begun(es))
  }

  lemma BegunAppend(p: seq<R.In>, e: R.In)
    ensures Begun(p + [e]) <==> Begun(p) || Begins(e)
  {
    assert forall x :: x in p + [e] <==> x in p || x == e;
  }

  lemma StartedReplies(s: State, p: seq<R.In>, q: seq<R.In>)
    requires s.id == IdOf(q) && s.model == ModelOf(q) && s.role == RoleOf(q) && s.startUsage == UsageOf(q)
    requires !Blank(s.role) && (s.started <==> Begun(p))
    ensures EnsureStarted(s)
         == s.(started := true,
               out := s.out + if Begun(p) then [] else [M.MessageStart(IdOf(q), ModelOf(q), RoleOf(q), UsageOf(q))])
  {
    hide FirstNonEmpty, Blank;
    Responses.FirstOfTwo(s.role, "assistant");
  }

  lemma SameHistory(p: seq<R.In>, e: R.In)
    requires !HoldsResponse(e) && !e.ItemAdded?
    ensures var q := p + [e];
            IdOf(q) == IdOf(p) && ModelOf(q) == ModelOf(p) && RoleOf(q) == RoleOf(p) && UsageOf(q) == UsageOf(p)
  {
    assert Front(p + [e]) == p && Last(p + [e]) == e;
  }

  lemma TakesIdentity(s: State, p: seq<R.In>, e: R.In)
    requires Remembers(s, p) && HoldsResponse(e)
    ensures var t := TakeIdentity(s, e.id, e.model);
            && t == s.(id := IdOf(p + [e]), model := ModelOf(p + [e])) && RoleOf(p + [e]) == RoleOf(p)
            && (t.model == "" || !Blank(t.model))
            && UsageOf(p + [e]) == if e.Created? || e.usage.Some? then e.usage else UsageOf(p)
  {
    hide FirstNonEmpty, Blank;
    Responses.Assistant();
    Responses.FirstOfTwo(e.id, s.id);
    Responses.FirstOfTwo(e.model, s.model);
    assert Front(p + [e]) == p && Last(p + [e]) == e;
  }

  lemma ItemRemembers(s: State, p: seq<R.In>, e: R.In)
    requires Remembers(s, p) && e.ItemAdded?
    ensures Remembers(Step(s, e), p + [e])
  {
    hide FirstNonEmpty, Blank, Begun;
    BegunAppend(p, e);
    Responses.FirstOfThree(e.role, s.role, "assistant");
    Responses.FirstOfTwo(s.role, "assistant");
    assert Front(p + [e]) == p && Last(p + [e]) == e;
  }

  lemma {:induction false} CloseBlocksFrame(s: State, indexes: seq<int>)
    ensures CloseBlocks(s, indexes) == s.(blocks := CloseBlocks(s, indexes).blocks, out := CloseBlocks(s, indexes).out)
    decreases indexes
  {
    if indexes != [] {
      CloseBlocksFrame(CloseBlock(s, indexes[0]), indexes[1..]);
    }
  }

  /** What beginning the message makes of the state for an event that holds a response. */
  lemma ResponseBegins(s: State, p: seq<R.In>, e: R.In, usage: Option<Fields>)
    requires Remembers(s, p) && HoldsResponse(e)
    requires usage == if e.Created? || e.usage.Some? then e.usage else s.startUsage
    ensures EnsureStarted(TakeIdentity(s, e.id, e.model).(startUsage := usage))
         == s.(id := IdOf(p + [e]), model := ModelOf(p + [e]), startUsage := UsageOf(p + [e]), started := true,
               out := s.out + Beginning(p, e))
    ensures RoleOf(p + [e]) == s.role && (ModelOf(p + [e]) == "" || !Blank(ModelOf(p + [e])))
  {
    hide FirstNonEmpty, Blank, Begun;
    TakesIdentity(s, p, e);
    StartedReplies(TakeIdentity(s, e.id, e.model).(startUsage := usage), p, p + [e]);
  }

  lemma CompletedBegins(s: State, p: seq<R.In>, e: R.In)
    requires Remembers(s, p) && e.Completed?
    ensures TakeCompleted(s, e.id, e.model, e.usage)
         == s.(id := IdOf(p + [e]), model := ModelOf(p + [e]), startUsage := UsageOf(p + [e]), started := true,
               out := s.out + Beginning(p, e))
    ensures RoleOf(p + [e]) == s.role && (ModelOf(p + [e]) == "" || !Blank(ModelOf(p + [e])))
  {
    ResponseBegins(s, p, e, if e.usage.Some? then e.usage else s.startUsage);
    hide Remembers, Beginning, EnsureStarted, FirstNonEmpty;
    var t := TakeIdentity(s, e.id, e.model);
    assert t.startUsage == s.startUsage;
    assert t.(startUsage := s.startUsage) == t;
  }

  lemma StepRemembers(s: State, p: seq<R.In>, e: R.In)
    requires Remembers(s, p)
    ensures Remembers(Step(s, e), p + [e])
  {
    hide FirstNonEmpty, Blank, Begun, CloseBlocks, Beginning;
    BegunAppend(p, e);
    match e
    case Created(_, _, usage) =>
      ResponseBegins(s, p, e, e.usage);
      hide EnsureStarted, TakeIdentity;
    case Completed(id, model, usage, _, _) =>
      CompletedBegins(s, p, e);
      hide TakeCompleted;
      var t := TakeCompleted(s, id, model, usage);
      CloseBlocksFrame(t, Sorted(t.blocks.Keys));
    case ItemAdded(_, _) => ItemRemembers(s, p, e);
    case _ =>
      SameHistory(p, e);
      StartedReplies(s, p, p);
      hide EnsureStarted;
  }

  lemma RemembersNothing()
    ensures Remembers(INIT, [])
  {
    Responses.Assistant();
  }

  lemma RunLast(front: seq<R.In>, e: R.In)
    ensures Run(INIT, front + [e]) == Step(Run(INIT, front), e)
  {
    hide Step;
    RunAppend(INIT, front, [e]);
    assert Run(Run(INIT, front), [e]) == Step(Run(INIT, front), e);
  }

  lemma {:induction false} RunRemembers(es: seq<R.In>)
    ensures Remembers(Run(INIT, es), es)
    decreases es
  {
    hide Step, Remembers;
    if es == [] {
      RemembersNothing();
    } else {
      RunRemembers(Front(es));
      assert es == Front(es) + [Last(es)];
      RunLast(Front(es), Last(es));
      StepRemembers(Run(INIT, Front(es)), Front(es), Last(es));
    }
  }

  // ----- what one event makes the converter write -----

  /** The indexes whose blocks are open. */
  function OpenOnes(blocks: BlockMap, indexes: seq<int>): (r: seq<int>)
    ensures forall k :: k in r <==> k in indexes && BlockAt(blocks, k).open
  {
    if indexes == [] then []
    else (if BlockAt(blocks, indexes[0]).open then [indexes[0]] else []) + OpenOnes(blocks, indexes[1..])
  }

  lemma {:induction false} OpenOnesAscending(blocks: BlockMap, indexes: seq<int>)
    requires Ascending(indexes)
    ensures Ascending(OpenOnes(blocks, indexes))
  {
    if indexes != [] {
      OpenOnesAscending(blocks, indexes[1..]);
      var rest := OpenOnes(blocks, indexes[1..]);
      assert forall k | 0 <= k < |rest| :: rest[k] in rest;
    }
  }

  lemma {:induction false} OpenOnesFrame(a: BlockMap, b: BlockMap, indexes: seq<int>)
    requires forall k | k in indexes :: BlockAt(a, k) == BlockAt(b, k)
    ensures OpenOnes(a, indexes) == OpenOnes(b, indexes)
  {
    if indexes != [] {
      OpenOnesFrame(a, b, indexes[1..]);
    }
  }

  lemma CloseOneEnds(s: State, index: int)
    ensures CloseBlock(s, index).out == s.out + Ends(if BlockAt(s.blocks, index).open then [index] else [])
    ensures forall k | k != index :: BlockAt(CloseBlock(s, index).blocks, k) == BlockAt(s.blocks, k)
  {
    assert [index][1..] == [];
  }

  lemma EndsConcat(a: seq<int>, b: seq<int>)
    ensures Ends(a + b) == Ends(a) + Ends(b)
  {
  }

  lemma {:induction false} CloseBlocksEnds(s: State, indexes: seq<int>)
    requires Ascending(indexes)
    ensures CloseBlocks(s, indexes).out == s.out + Ends(OpenOnes(s.blocks, indexes))
    decreases indexes
  {
    if indexes != [] {
      var i, rest := indexes[0], indexes[1..];
      var c := CloseBlock(s, i);
      assert forall k | k in rest :: k != i;
      CloseOneEnds(s, i);
      hide CloseBlock, BlockAt, Ends;
      OpenOnesFrame(c.blocks, s.blocks, rest);
      CloseBlocksEnds(c, rest);
      var first := if BlockAt(s.blocks, i).open then [i] else [];
      EndsConcat(first, OpenOnes(s.blocks, rest));
      Sse.Assoc(s.out, Ends(first), Ends(OpenOnes(s.blocks, rest)));
    }
  }

  lemma OpenIsStillOpen(p: seq<R.In>)
    ensures var blocks := Run(INIT, p).blocks; OpenOnes(blocks, Sorted(blocks.Keys)) == StillOpen(p)
  {
    hide Run, OpenedPart, ClosedPart;
    var blocks := Run(INIT, p).blocks;
    var keys := Sorted(blocks.Keys);
    OpenOnesAscending(blocks, keys);
    forall k ensures k in OpenOnes(blocks, keys) <==> k in StillOpen(p) {
      RunTracks(p, k);
      assert k in keys <==> k in blocks.Keys;
    }
    AscendingUnique(OpenOnes(blocks, keys), StillOpen(p));
  }

  lemma CompletedReplies(s: State, p: seq<R.In>, e: R.In)
    requires s == Run(INIT, p) && Remembers(s, p) && e.Completed?
    ensures Step(s, e).out == s.out + Reply(p, e)
  {
    hide FirstNonEmpty, Blank, Begun, CloseBlocks, Run, OpenedPart, ClosedPart, StillOpen, Beginning, Remembers,
         BlockAt, OpenOnes, Ends;
    CompletedBegins(s, p, e);
    var t := TakeCompleted(s, e.id, e.model, e.usage);
    hide TakeCompleted;
    var keys := Sorted(t.blocks.Keys);
    CloseBlocksEnds(t, keys);
    OpenIsStillOpen(p);
    Responses.FirstOfTwo(e.stopReason, "end_turn");
    EndTurn();
    var last := [M.MessageDelta(if Blank(e.stopReason) then "end_turn" else e.stopReason, e.stopSequence, e.usage),
                 M.MessageStop];
    var b, ends := Beginning(p, e), Ends(StillOpen(p));
    assert CloseBlocks(t, keys).out == s.out + b + ends;
    Sse.Assoc(s.out, b, ends);
    Sse.Assoc(s.out, b + ends, last);
    Sse.Assoc(b, ends, last);
    assert b + [] == b;
  }

  lemma EndTurn()
    ensures !Blank("end_turn")
  {
    NotBlank("end_turn");
  }

  lemma OpeningReplies(s: State, p: seq<R.In>, e: R.In)
    requires s == Run(INIT, p) && Remembers(s, p) && (e.PartAdded? || e.TextDelta?)
    ensures Step(s, e).out == s.out + Reply(p, e)
  {
    hide FirstNonEmpty, Blank, Begun, Run, OpenedPart, ClosedPart;
    SameHistory(p, e);
    StartedReplies(s, p, p);
    hide EnsureStarted;
    RunTracks(p, e.index);
    var b, n := Beginning(p, e), NewBlock(p, e);
    assert Ready(s, e.index).out == s.out + b + n;
    Sse.Assoc(s.out, b, n);
    Sse.Assoc(s.out, b + n, Content(p, e));
    assert b + n + [] == b + n;
  }

  lemma StepReplies(s: State, p: seq<R.In>, e: R.In)
    requires s == Run(INIT, p) && Remembers(s, p)
    ensures Step(s, e).out == s.out + Reply(p, e)
  {
    hide FirstNonEmpty, Blank, Begun, Run, OpenedPart, ClosedPart, CloseBlocks, TakeCompleted;
    if e.PartAdded? || e.TextDelta? {
      OpeningReplies(s, p, e);
    } else if e.Completed? {
      CompletedReplies(s, p, e);
    } else if e.Created? {
      ResponseBegins(s, p, e, e.usage);
      hide EnsureStarted, TakeIdentity;
      assert Beginning(p, e) + [] + [] == Beginning(p, e);
    } else {
      if e.PartDone? {
        RunTracks(p, e.index);
      }
      assert Beginning(p, e) == [] && NewBlock(p, e) == [];
      assert [] + [] + Content(p, e) == Content(p, e);
    }
  }

  /** For every input, the converter writes just what the history says, event by event. */
  lemma {:induction false} OutputIsReplies(es: seq<R.In>)
    ensures Run(INIT, es).out == Replies(es)
    decreases es
  {
    hide Step, Reply, Remembers;
    if es != [] {
      OutputIsReplies(Front(es));
      RunRemembers(Front(es));
      assert es == Front(es) + [Last(es)];
      RunLast(Front(es), Last(es));
      StepReplies(Run(INIT, Front(es)), Front(es), Last(es));
    }
  }

  // ----- failures, pings and text -----

  /** The errors and pings of a written stream, in order. */
  function Notices(out: seq<M.Out>): seq<M.Out> {
    if out == [] then [] else Notice(out[0]) + Notices(out[1..])
  }

  function Notice(e: M.Out): seq<M.Out> {
    if e.Error? || e.Ping? then [e] else []
  }

  /** What a Messages client should be told of the failures and pings read, in order. */
  function Noticed(es: seq<R.In>): seq<M.Out> {
    if es == [] then [] else NoticeOf(es[0]) + Noticed(es[1..])
  }

  function NoticeOf(e: R.In): seq<M.Out> {
    match e
    case Failure(message) => [M.Error(message)]
    case Ping => [M.Ping]
    case _ => []
  }

  lemma {:induction false} NoticesConcat(a: seq<M.Out>, b: seq<M.Out>)
    ensures Notices(a + b) == Notices(a) + Notices(b)
  {
    if a == [] {
      assert a + b == b;
    } else {
      hide Notice;
      assert (a + b)[1..] == a[1..] + b && (a + b)[0] == a[0];
      NoticesConcat(a[1..], b);
      Sse.Assoc(Notice(a[0]), Notices(a[1..]), Notices(b));
    }
  }

  lemma {:induction false} NoticedConcat(a: seq<R.In>, b: seq<R.In>)
    ensures Noticed(a + b) == Noticed(a) + Noticed(b)
  {
    if a == [] {
      assert a + b == b;
    } else {
      hide NoticeOf;
      assert (a + b)[1..] == a[1..] + b && (a + b)[0] == a[0];
      NoticedConcat(a[1..], b);
      Sse.Assoc(NoticeOf(a[0]), Noticed(a[1..]), Noticed(b));
    }
  }

  lemma {:induction false} NoNotices(out: seq<M.Out>)
    requires forall k | 0 <= k < |out| :: !out[k].Error? && !out[k].Ping?
    ensures Notices(out) == []
  {
    if out != [] {
      NoNotices(out[1..]);
    }
  }

  lemma ReplyNotices(p: seq<R.In>, e: R.In)
    ensures Notices(Reply(p, e)) == Noticed([e])
  {
    hide Beginning, NewBlock, Content, Notices, Noticed;
    var opening := Beginning(p, e) + NewBlock(p, e);
    OpeningsOpen(p, e);
    NoNotices(opening);
    ContentNotices(p, e);
    NoticesConcat(opening, Content(p, e));
    assert [] + Notices(Content(p, e)) == Notices(Content(p, e));
  }

  lemma OpeningsOpen(p: seq<R.In>, e: R.In)
    ensures var opening := Beginning(p, e) + NewBlock(p, e);
            forall k | 0 <= k < |opening| :: opening[k].MessageStart? || opening[k].BlockStart?
  {
    hide Begun, OpenedPart;
  }

  lemma ContentNotices(p: seq<R.In>, e: R.In)
    ensures Notices(Content(p, e)) == Noticed([e])
  {
    hide ClosedPart, OpenedPart, StillOpen, Blank;
    assert [e][1..] == [] && Noticed([]) == [];
    if e.Failure? {
      assert [M.Error(e.message)][1..] == [];
    } else if e.Ping? {
      assert [M.Ping][1..] == [];
    } else {
      hide Notices;
      NoNotices(Content(p, e));
    }
  }

  /** For every input, the errors and pings written are the failures and pings read: none lost, none invented, in
      order. */
  lemma {:induction false} NoticesPassOn(es: seq<R.In>)
    ensures Notices(Run(INIT, es).out) == Noticed(es)
    decreases es
  {
    hide Step, Reply, Notices, Noticed;
    OutputIsReplies(es);
    if es == [] {
      NoNotices([]);
      NothingNoticed();
    } else {
      var front, e := Front(es), Last(es);
      NoticesPassOn(front);
      OutputIsReplies(front);
      ReplyNotices(front, e);
      NoticesConcat(Replies(front), Reply(front, e));
      NoticedConcat(front, [e]);
      assert es == front + [e];
    }
  }

  lemma NothingNoticed()
    ensures Noticed([]) == []
  {
  }

  /** The text written for a block. */
  function DeltaText(out: seq<M.Out>, index: int): string {
    if out == [] then "" else DeltaOf(out[0], index) + DeltaText(out[1..], index)
  }

  function DeltaOf(e: M.Out, index: int): string {
    if e.BlockDelta? && e.index == index then e.text else ""
  }

  /** The text deltas read for a part. */
  function InputText(es: seq<R.In>, index: int): string {
    if es == [] then "" else TextOf(es[0], index) + InputText(es[1..], index)
  }

  function TextOf(e: R.In, index: int): string {
    if e.TextDelta? && e.index == index then e.text else ""
  }

  lemma {:induction false} DeltaTextConcat(a: seq<M.Out>, b: seq<M.Out>, index: int)
    ensures DeltaText(a + b, index) == DeltaText(a, index) + DeltaText(b, index)
  {
    if a == [] {
      assert a + b == b;
    } else {
      hide DeltaOf;
      assert (a + b)[1..] == a[1..] + b && (a + b)[0] == a[0];
      DeltaTextConcat(a[1..], b, index);
      Sse.Assoc(DeltaOf(a[0], index), DeltaText(a[1..], index), DeltaText(b, index));
    }
  }

  lemma {:induction false} InputTextConcat(a: seq<R.In>, b: seq<R.In>, index: int)
    ensures InputText(a + b, index) == InputText(a, index) + InputText(b, index)
  {
    if a == [] {
      assert a + b == b;
    } else {
      hide TextOf;
      assert (a + b)[1..] == a[1..] + b && (a + b)[0] == a[0];
      InputTextConcat(a[1..], b, index);
      Sse.Assoc(TextOf(a[0], index), InputText(a[1..], index), InputText(b, index));
    }
  }

  lemma {:induction false} NoText(out: seq<M.Out>, index: int)
    requires forall k | 0 <= k < |out| :: !out[k].BlockDelta?
    ensures DeltaText(out, index) == ""
  {
    if out != [] {
      NoText(out[1..], index);
    }
  }

  lemma ReplyText(p: seq<R.In>, e: R.In, index: int)
    ensures DeltaText(Reply(p, e), index) == InputText([e], index)
  {
    hide Beginning, NewBlock, Content, DeltaText, InputText;
    var opening := Beginning(p, e) + NewBlock(p, e);
    OpeningsOpen(p, e);
    NoText(opening, index);
    ContentText(p, e, index);
    DeltaTextConcat(opening, Content(p, e), index);
    assert "" + DeltaText(Content(p, e), index) == DeltaText(Content(p, e), index);
  }

  lemma ContentText(p: seq<R.In>, e: R.In, index: int)
    ensures DeltaText(Content(p, e), index) == InputText([e], index)
  {
    hide ClosedPart, OpenedPart, StillOpen, Blank;
    assert [e][1..] == [] && InputText([], index) == "";
    if e.TextDelta? {
      assert [M.BlockDelta(e.index, e.text)][1..] == [];
    } else {
      hide DeltaText;
      NoText(Content(p, e), index);
    }
  }

  /** Text conservation: the deltas written for an index are the deltas read for it. */
  lemma {:induction false} TextConserved(es: seq<R.In>, index: int)
    ensures DeltaText(Run(INIT, es).out, index) == InputText(es, index)
    decreases es
  {
    hide Step, Reply, DeltaText, InputText;
    OutputIsReplies(es);
    if es == [] {
      NoText([], index);
      NothingRead(index);
    } else {
      var front, e := Front(es), Last(es);
      TextConserved(front, index);
      OutputIsReplies(front);
      ReplyText(front, e, index);
      DeltaTextConcat(Replies(front), Reply(front, e), index);
      InputTextConcat(front, [e], index);
      assert es == front + [e];
    }
  }

  lemma NothingRead(index: int)
    ensures InputText([], index) == ""
  {
  }
}
