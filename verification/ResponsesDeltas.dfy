/** When a delta written by `ToResponses` follows the `response.output_text.done` of its part: exactly when the input
    sends text for a block it has stopped, or after a message_stop for a block it has used. */
module ResponsesDeltas {
  import opened Text
  import opened Blocks
  import opened ResponsesOrder
  import opened ToResponses
  import M = MessagesEvents
  import R = ResponsesEvents

  /** Every delta precedes the text done event of its part. */
  ghost predicate DeltasInside(p: seq<R.Out>) {
    forall n | 0 <= n < |p| && p[n].OutDelta? :: !HasTextDone(p[..n], p[n].index)
  }

  /** The event closes the part of an index, which the input has used before or uses by it. */
  predicate Closes(e: M.In, used: bool, index: int) {
    e == M.BlockStop(index) || (e.Stop? && used)
  }

  /** The input has closed the part of an index: by its stop, or by the end of a message after some use of it. */
  ghost predicate ClosedPart(es: seq<M.In>, index: int) {
    exists i :: 0 <= i < |es| && Closes(es[i], ReadsIndex(es[..i], index), index)
  }

  /** No text is sent for a part that is closed. */
  ghost predicate NoLateText(es: seq<M.In>) {
    forall n | 0 <= n < |es| && es[n].TextDelta? :: !ClosedPart(es[..n], es[n].index)
  }

  // ----- closed blocks -----

  predicate IsClosed(blocks: BlockMap, index: int) {
    index in blocks && !BlockAt(blocks, index).open
  }

  /** Every block the converter keeps has been started. */
  predicate AllStarted(blocks: BlockMap) {
    forall index | index in blocks :: blocks[index].started
  }

  lemma PartKeepsClosed(s: State, index: int)
    requires AllStarted(s.blocks)
    ensures var t := EnsurePartAdded(s, index);
            AllStarted(t.blocks) && forall i :: IsClosed(t.blocks, i) <==> IsClosed(s.blocks, i)
  {
  }

  lemma CloseMakesClosed(s: State, index: int)
    requires AllStarted(s.blocks)
    ensures var t := CloseBlock(s, index);
            && AllStarted(t.blocks) && t.blocks.Keys == s.blocks.Keys
            && forall i :: IsClosed(t.blocks, i) <==> IsClosed(s.blocks, i) || (i == index && index in s.blocks)
  {
  }

  lemma {:induction false} CloseAllMakesClosed(s: State, indexes: seq<int>)
    requires AllStarted(s.blocks)
    ensures var t := CloseBlocks(s, indexes);
            && AllStarted(t.blocks) && t.blocks.Keys == s.blocks.Keys
            && forall i :: IsClosed(t.blocks, i) <==> IsClosed(s.blocks, i) || (i in indexes && i in s.blocks)
    decreases indexes
  {
    hide AllStarted, IsClosed, CloseBlock;
    if indexes != [] {
      CloseMakesClosed(s, indexes[0]);
      CloseAllMakesClosed(CloseBlock(s, indexes[0]), indexes[1..]);
      assert forall i :: i in indexes <==> i == indexes[0] || i in indexes[1..];
    }
  }

  lemma StepCloses(s: State, e: M.In, index: int)
    requires AllStarted(s.blocks)
    ensures AllStarted(Step(s, e).blocks)
    ensures IsClosed(Step(s, e).blocks, index) <==> IsClosed(s.blocks, index) || Closes(e, index in s.blocks, index)
  {
    hide AllStarted, IsClosed, Opened, EnsurePartAdded, CloseBlock, CloseBlocks, BuildItem, FirstNonEmpty;
    OpenedKeepsBlocks(s);
    var o := Opened(s);
    match e
    case Start(id, model, role, usage) => OpenedKeepsBlocks(TakeStart(s, id, model, role, usage));
    case TextStart(i) => PartKeepsClosed(o, i);
    case TextDelta(i, text) =>
      PartKeepsClosed(o, i);
      PartIsKnown(o, i);
      TextKeepsClosed(EnsurePartAdded(o, i), i, text);
    case BlockStop(i) =>
      PartKeepsClosed(o, i);
      PartIsKnown(o, i);
      CloseMakesClosed(EnsurePartAdded(o, i), i);
    case Stop =>
      CloseAllMakesClosed(o, Sorted(o.blocks.Keys));
      assert index in Sorted(o.blocks.Keys) <==> index in o.blocks.Keys;
    case _ =>
  }

  lemma PartIsKnown(s: State, index: int)
    requires AllStarted(s.blocks)
    ensures index in EnsurePartAdded(s, index).blocks
  {
  }

  lemma TextKeepsClosed(s: State, index: int, text: string)
    requires AllStarted(s.blocks) && index in s.blocks
    ensures var t := AddText(s, index, text);
            AllStarted(t.blocks) && forall i :: IsClosed(t.blocks, i) <==> IsClosed(s.blocks, i)
  {
  }

  lemma ClosedPartAppend(es: seq<M.In>, e: M.In, index: int)
    ensures ClosedPart(es + [e], index) <==> ClosedPart(es, index) || Closes(e, ReadsIndex(es, index), index)
  {
    hide Closes, ReadsIndex;
    var all := es + [e];
    assert all[|es|] == e && all[..|es|] == es;
    assert forall i | 0 <= i < |es| :: all[i] == es[i] && all[..i] == es[..i];
  }

  /** The converter has closed a block exactly when the input has closed its part. */
  lemma {:induction false} RunCloses(es: seq<M.In>, index: int)
    ensures AllStarted(Run(INIT, es).blocks)
    ensures IsClosed(Run(INIT, es).blocks, index) <==> ClosedPart(es, index)
    decreases es
  {
    hide Step, IsClosed, AllStarted, Closes, ReadsIndex;
    if es == [] {
      ClosedAtStart(index);
    } else {
      var front, e := es[..|es| - 1], es[|es| - 1];
      assert es == front + [e];
      RunCloses(front, index);
      RunLast(front, e);
      RunText(INIT, front, index);
      StepCloses(Run(INIT, front), e, index);
      ClosedPartAppend(front, e, index);
    }
  }

  lemma ClosedAtStart(index: int)
    ensures AllStarted(Run(INIT, []).blocks) && !IsClosed(Run(INIT, []).blocks, index) && !ClosedPart([], index)
  {
  }

  lemma RunLast(front: seq<M.In>, e: M.In)
    ensures Run(INIT, front + [e]) == Step(Run(INIT, front), e)
  {
    hide Step;
    RunAppend(INIT, front, [e]);
    assert Run(Run(INIT, front), [e]) == Step(Run(INIT, front), e);
  }

  /** A text done event has been written for an index exactly when the input has closed its part. */
  lemma DoneMeansClosed(es: seq<M.In>, index: int)
    ensures HasTextDone(Run(INIT, es).out, index) <==> ClosedPart(es, index)
  {
    InvInit(index);
    InvRun(INIT, es);
    RunCloses(es, index);
    hide Run, HasTextDone, HasPart, HasPartDone, DeltaText, WellFormed, HasCreated, HasItem, ClosedPart;
    var s := Run(INIT, es);
    assert BlockFaithful(s.out, index, index in s.blocks, BlockAt(s.blocks, index));
  }

  // ----- deltas -----

  lemma DeltasAppend(p: seq<R.Out>, e: R.Out)
    ensures DeltasInside(p + [e]) <==> DeltasInside(p) && (e.OutDelta? ==> !HasTextDone(p, e.index))
  {
    hide HasTextDone;
    var all := p + [e];
    assert all[..|p|] == p;
    forall n | 0 <= n < |p| ensures all[n] == p[n] && all[..n] == p[..n] {}
    if DeltasInside(p) && (e.OutDelta? ==> !HasTextDone(p, e.index)) {
      forall n | 0 <= n < |all| && all[n].OutDelta? ensures !HasTextDone(all[..n], all[n].index) {
        if n < |p| {
          assert !HasTextDone(p[..n], p[n].index);
        }
      }
    }
  }

  /** An event that is neither a delta nor a text done changes neither question. */
  lemma OtherEvent(p: seq<R.Out>, e: R.Out)
    requires !e.OutDelta? && !e.OutTextDone?
    ensures DeltasInside(p + [e]) <==> DeltasInside(p)
    ensures forall i :: HasTextDone(p + [e], i) <==> HasTextDone(p, i)
  {
    DeltasAppend(p, e);
    Appended(p, e);
  }

  lemma OpenedDeltas(s: State)
    ensures DeltasInside(Opened(s).out) <==> DeltasInside(s.out)
    ensures forall i :: HasTextDone(Opened(s).out, i) <==> HasTextDone(s.out, i)
  {
    hide DeltasInside, HasTextDone, FirstNonEmpty;
    var c := EnsureCreated(s);
    OtherEvent(s.out, R.OutCreated(s.id, s.model, s.usage));
    var o := EnsureItemAdded(c);
    OtherEvent(c.out, R.OutItemAdded(o.itemId, FirstNonEmpty([c.role, "assistant"])));
  }

  lemma PartDeltas(s: State, index: int)
    ensures var t := EnsurePartAdded(Opened(s), index);
            && (DeltasInside(t.out) <==> DeltasInside(s.out))
            && forall i :: HasTextDone(t.out, i) <==> HasTextDone(s.out, i)
  {
    hide DeltasInside, HasTextDone, Opened;
    OpenedDeltas(s);
    OtherEvent(Opened(s).out, R.OutPartAdded(Opened(s).itemId, index));
  }

  lemma CloseDeltas(s: State, index: int)
    ensures DeltasInside(CloseBlock(s, index).out) <==> DeltasInside(s.out)
  {
    hide DeltasInside;
    var text := BlockAt(s.blocks, index).text;
    var d, e := R.OutTextDone(s.itemId, index, text), R.OutPartDone(s.itemId, index, text);
    DeltasAppend(s.out, d);
    DeltasAppend(s.out + [d], e);
    assert s.out + [d] + [e] == s.out + [d, e];
  }

  lemma {:induction false} CloseAllDeltas(s: State, indexes: seq<int>)
    ensures DeltasInside(CloseBlocks(s, indexes).out) <==> DeltasInside(s.out)
    decreases indexes
  {
    hide DeltasInside, CloseBlock;
    if indexes != [] {
      CloseDeltas(s, indexes[0]);
      CloseAllDeltas(CloseBlock(s, indexes[0]), indexes[1..]);
    }
  }

  lemma FinishDeltas(s: State)
    ensures DeltasInside(Finish(s).out) <==> DeltasInside(s.out)
  {
    hide DeltasInside, BuildItem;
    var item := BuildItem(s);
    var d := R.OutItemDone(item);
    var e := R.OutCompleted(s.id, s.model, s.usage, s.stopReason, s.stopSequence, item);
    DeltasAppend(s.out, d);
    DeltasAppend(s.out + [d], e);
    assert s.out + [d] + [e] == s.out + [d, e];
  }

  lemma StepDeltas(s: State, e: M.In)
    ensures DeltasInside(Step(s, e).out) <==> DeltasInside(s.out) && (e.TextDelta? ==> !HasTextDone(s.out, e.index))
  {
    hide DeltasInside, HasTextDone, Opened, EnsurePartAdded, CloseBlock, CloseBlocks, Finish, FirstNonEmpty;
    match e
    case Start(id, model, role, usage) => OpenedDeltas(TakeStart(s, id, model, role, usage));
    case TextStart(index) => PartDeltas(s, index);
    case TextDelta(index, text) =>
      PartDeltas(s, index);
      var p := EnsurePartAdded(Opened(s), index);
      DeltasAppend(p.out, R.OutDelta(p.itemId, index, text));
    case BlockStop(index) =>
      PartDeltas(s, index);
      CloseDeltas(EnsurePartAdded(Opened(s), index), index);
    case Stop =>
      OpenedDeltas(s);
      var o := Opened(s);
      CloseAllDeltas(o, Sorted(o.blocks.Keys));
      FinishDeltas(CloseBlocks(o, Sorted(o.blocks.Keys)));
    case Failure(message, code) => DeltasAppend(s.out, R.OutError(message, code));
    case _ =>
  }

  lemma NoLateTextAppend(es: seq<M.In>, e: M.In)
    ensures NoLateText(es + [e]) <==> NoLateText(es) && (e.TextDelta? ==> !ClosedPart(es, e.index))
  {
    hide ClosedPart;
    var all := es + [e];
    assert all[..|es|] == es;
    forall n | 0 <= n < |es| ensures all[n] == es[n] && all[..n] == es[..n] {}
    if NoLateText(es) && (e.TextDelta? ==> !ClosedPart(es, e.index)) {
      forall n | 0 <= n < |all| && all[n].TextDelta? ensures !ClosedPart(all[..n], all[n].index) {
        if n < |es| {
          assert !ClosedPart(es[..n], es[n].index);
        }
      }
    }
  }

  /** The exact condition: every written delta precedes its text done event just for inputs that send no text for a
      part they have closed. */
  lemma {:induction false} DeltasInsideIff(es: seq<M.In>)
    ensures DeltasInside(Run(INIT, es).out) <==> NoLateText(es)
    decreases es
  {
    hide Step, HasTextDone, ClosedPart;
    if es != [] {
      var front, e := es[..|es| - 1], es[|es| - 1];
      assert es == front + [e];
      DeltasInsideIff(front);
      RunLast(front, e);
      StepDeltas(Run(INIT, front), e);
      NoLateTextAppend(front, e);
      if e.TextDelta? {
        DoneMeansClosed(front, e.index);
      }
    }
  }

  /** A second message that reuses an index is enough to break it. */
  lemma LateTextExists()
    ensures !DeltasInside(Run(INIT, [M.TextDelta(0, "a"), M.Stop, M.TextDelta(0, "b")]).out)
  {
    var es := [M.TextDelta(0, "a"), M.Stop, M.TextDelta(0, "b")];
    assert es[..2][0] == M.TextDelta(0, "a") && es[..2][..1] == [M.TextDelta(0, "a")];
    assert M.TextDelta(0, "a") in es[..2][..1] && Touches(M.TextDelta(0, "a"), 0);
    assert ReadsIndex(es[..2][..1], 0);
    assert Closes(es[..2][1], ReadsIndex(es[..2][..1], 0), 0);
    assert ClosedPart(es[..2], es[2].index);
    DeltasInsideIff(es);
  }
}
