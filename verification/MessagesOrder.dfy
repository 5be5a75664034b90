/** Every stream written by `ToMessages` is well formed, whatever events it was made from, and a delta
    follows the stop of its block exactly when the input sends text for a part it has closed. */
module MessagesOrder {
  import opened Text
  import opened Json
  import opened Blocks
  import opened ToMessages
  import M = MessagesEvents
  import R = ResponsesEvents

  // ----- the order of a Messages stream, stated on the written events alone -----

  ghost predicate HasStart(p: seq<M.Out>) {
    exists e :: e in p && e.MessageStart?
  }

  ghost predicate HasBlock(p: seq<M.Out>, index: int) {
    exists e :: e in p && e.BlockStart? && e.index == index
  }

  ghost predicate HasEnd(p: seq<M.Out>, index: int) {
    exists e :: e in p && e.BlockEnd? && e.index == index
  }

  ghost predicate AllClosed(p: seq<M.Out>) {
    forall index | HasBlock(p, index) :: HasEnd(p, index)
  }

  /** What may be written after the events `p`. */
  ghost predicate Allowed(p: seq<M.Out>, e: M.Out) {
    match e
    case MessageStart(_, _, _, _) => !HasStart(p)
    case BlockStart(index) => HasStart(p) && !HasBlock(p, index)
    case BlockDelta(index, _) => HasBlock(p, index)
    case BlockEnd(index) => HasBlock(p, index) && !HasEnd(p, index)
    case MessageDelta(_, _, _) => HasStart(p) && AllClosed(p)
    case MessageStop => p != [] && p[|p| - 1].MessageDelta? && AllClosed(p)
    case Ping => true
    case Error(_) => true
  }

  ghost predicate WellFormed(out: seq<M.Out>) {
    forall n | 0 <= n < |out| :: Allowed(out[..n], out[n])
  }

  lemma WellFormedAppend(out: seq<M.Out>, e: M.Out)
    requires WellFormed(out) && Allowed(out, e)
    ensures WellFormed(out + [e])
  {
    hide Allowed;
    var all := out + [e];
    assert all[..|out|] == out;
    forall n | 0 <= n < |all| ensures Allowed(all[..n], all[n]) {
      if n < |out| {
        assert all[..n] == out[..n];
      }
    }
  }

  // ----- the invariant of the converter -----

  ghost predicate BlockFaithful(p: seq<M.Out>, index: int, block: Block) {
    && (block.started <==> HasBlock(p, index))
    && (block.open ==> block.started)
    && (HasEnd(p, index) <==> block.started && !block.open)
  }

  ghost predicate Inv(s: State) {
    && WellFormed(s.out)
    && (s.started <==> HasStart(s.out))
    && forall index :: BlockFaithful(s.out, index, BlockAt(s.blocks, index))
  }

  lemma Appended(p: seq<M.Out>, e: M.Out)
    ensures HasStart(p + [e]) <==> HasStart(p) || e.MessageStart?
    ensures forall i :: HasBlock(p + [e], i) <==> HasBlock(p, i) || (e.BlockStart? && e.index == i)
    ensures forall i :: HasEnd(p + [e], i) <==> HasEnd(p, i) || (e.BlockEnd? && e.index == i)
  {
    assert forall x :: x in p + [e] <==> x in p || x == e;
    assert e in p + [e];
    assert forall x :: x in p ==> x in p + [e];
  }

  /** Events that say nothing about blocks keep the invariant. */
  lemma InvQuiet(s: State, e: M.Out)
    requires Inv(s) && Allowed(s.out, e)
    requires !e.MessageStart? && !e.BlockStart? && !e.BlockEnd?
    ensures Inv(s.(out := s.out + [e]))
  {
    hide HasStart, HasBlock, HasEnd, WellFormed;
    Appended(s.out, e);
    WellFormedAppend(s.out, e);
    forall i ensures BlockFaithful(s.out + [e], i, BlockAt(s.blocks, i)) {
      assert BlockFaithful(s.out, i, BlockAt(s.blocks, i));
    }
  }

  lemma InvStarted(s: State)
    requires Inv(s)
    ensures Inv(EnsureStarted(s)) && EnsureStarted(s).started && EnsureStarted(s).blocks == s.blocks
  {
    hide HasStart, HasBlock, HasEnd, WellFormed;
    if !s.started {
      var e := M.MessageStart(s.id, s.model, FirstNonEmpty([s.role, "assistant"]), s.startUsage);
      Appended(s.out, e);
      WellFormedAppend(s.out, e);
      forall i ensures BlockFaithful(s.out + [e], i, BlockAt(s.blocks, i)) {
        assert BlockFaithful(s.out, i, BlockAt(s.blocks, i));
      }
    }
  }

  lemma InvBlockStart(s: State, index: int)
    requires Inv(s) && s.started
    ensures var t := EnsureBlockStart(s, index);
            Inv(t) && BlockAt(t.blocks, index).started && t.started
  {
    hide HasStart, HasBlock, HasEnd, WellFormed;
    assert BlockFaithful(s.out, index, BlockAt(s.blocks, index));
    if !BlockAt(s.blocks, index).started {
      var e := M.BlockStart(index);
      Appended(s.out, e);
      WellFormedAppend(s.out, e);
      var t := EnsureBlockStart(s, index);
      forall i ensures BlockFaithful(t.out, i, BlockAt(t.blocks, i)) {
        assert BlockFaithful(s.out, i, BlockAt(s.blocks, i));
      }
    }
  }

  lemma InvSetText(s: State, index: int, text: string)
    requires Inv(s)
    ensures Inv(SetText(s, index, text))
  {
    hide HasStart, HasBlock, HasEnd, WellFormed;
    var t := SetText(s, index, text);
    forall i ensures BlockFaithful(t.out, i, BlockAt(t.blocks, i)) {
      assert BlockFaithful(s.out, i, BlockAt(s.blocks, i));
    }
  }

  lemma InvAddText(s: State, index: int, text: string)
    requires Inv(s) && BlockAt(s.blocks, index).started
    ensures Inv(AddText(s, index, text))
  {
    hide HasStart, HasBlock, HasEnd, WellFormed;
    var block := BlockAt(s.blocks, index);
    assert BlockFaithful(s.out, index, block);
    InvQuiet(s, M.BlockDelta(index, text));
    var t := AddText(s, index, text);
    forall i ensures BlockFaithful(t.out, i, BlockAt(t.blocks, i)) {
      assert BlockFaithful(s.out + [M.BlockDelta(index, text)], i, BlockAt(s.blocks, i));
    }
  }

  lemma InvCloseBlock(s: State, index: int)
    requires Inv(s)
    ensures var t := CloseBlock(s, index);
            && Inv(t) && t.started == s.started && t.blocks.Keys == s.blocks.Keys
            && !BlockAt(t.blocks, index).open
            && (forall i :: BlockAt(t.blocks, i).open ==> BlockAt(s.blocks, i).open)
  {
    hide HasStart, HasBlock, HasEnd, WellFormed;
    assert BlockFaithful(s.out, index, BlockAt(s.blocks, index));
    if BlockAt(s.blocks, index).open {
      var e := M.BlockEnd(index);
      Appended(s.out, e);
      WellFormedAppend(s.out, e);
      var t := CloseBlock(s, index);
      forall i ensures BlockFaithful(t.out, i, BlockAt(t.blocks, i)) {
        assert BlockFaithful(s.out, i, BlockAt(s.blocks, i));
      }
    }
  }

  lemma {:induction false} InvCloseBlocks(s: State, indexes: seq<int>)
    requires Inv(s)
    ensures var t := CloseBlocks(s, indexes);
            && Inv(t) && t.started == s.started && t.blocks.Keys == s.blocks.Keys
            && (forall i | i in indexes :: !BlockAt(t.blocks, i).open)
            && (forall i :: BlockAt(t.blocks, i).open ==> BlockAt(s.blocks, i).open)
    decreases indexes
  {
    hide Inv, CloseBlock;
    if indexes != [] {
      InvCloseBlock(s, indexes[0]);
      InvCloseBlocks(CloseBlock(s, indexes[0]), indexes[1..]);
    }
  }

  lemma InvFinish(s: State, usage: Option<Fields>, stopReason: string, stopSequence: Json)
    requires Inv(s) && s.started && forall i :: !BlockAt(s.blocks, i).open
    ensures Inv(Finish(s, usage, stopReason, stopSequence))
  {
    hide HasStart, HasBlock, HasEnd, WellFormed;
    var d := M.MessageDelta(FirstNonEmpty([stopReason, "end_turn"]), stopSequence, usage);
    forall i | HasBlock(s.out, i) ensures HasEnd(s.out, i) {
      assert BlockFaithful(s.out, i, BlockAt(s.blocks, i));
    }
    Appended(s.out, d);
    InvQuiet(s, d);
    InvQuiet(s.(out := s.out + [d]), M.MessageStop);
    assert s.out + [d] + [M.MessageStop] == s.out + [d, M.MessageStop];
  }

  lemma InvFrame(s: State, t: State)
    requires Inv(s) && t.out == s.out && t.blocks == s.blocks && t.started == s.started
    ensures Inv(t)
  {
  }

  lemma InvTakeCompleted(s: State, id: string, model: string, usage: Option<Fields>)
    requires Inv(s)
    ensures var t := TakeCompleted(s, id, model, usage); Inv(t) && t.started && t.blocks == s.blocks
  {
    var t := TakeIdentity(s, id, model);
    var u := if usage.Some? then t.(startUsage := usage) else t;
    InvFrame(s, u);
    InvStarted(u);
  }

  lemma InvCompleted(s: State, e: R.In)
    requires Inv(s) && e.Completed?
    ensures Inv(Step(s, e))
  {
    hide Inv, TakeCompleted, CloseBlocks, Finish;
    InvTakeCompleted(s, e.id, e.model, e.usage);
    var t := TakeCompleted(s, e.id, e.model, e.usage);
    InvCloseBlocks(t, Sorted(t.blocks.Keys));
    NothingOpen(t);
    InvFinish(CloseBlocks(t, Sorted(t.blocks.Keys)), e.usage, e.stopReason, e.stopSequence);
  }

  lemma NothingOpen(s: State)
    requires Inv(s)
    ensures forall i :: !BlockAt(CloseBlocks(s, Sorted(s.blocks.Keys)).blocks, i).open
  {
    hide Inv, CloseBlocks;
    InvCloseBlocks(s, Sorted(s.blocks.Keys));
    var c := CloseBlocks(s, Sorted(s.blocks.Keys));
    forall i ensures !BlockAt(c.blocks, i).open {
      if i !in s.blocks {
        assert i !in c.blocks.Keys;
      }
    }
  }

  lemma InvReady(s: State, index: int)
    requires Inv(s)
    ensures Inv(Ready(s, index)) && BlockAt(Ready(s, index).blocks, index).started
  {
    InvStarted(s);
    InvBlockStart(EnsureStarted(s), index);
  }

  lemma InvStep(s: State, e: R.In)
    requires Inv(s)
    ensures Inv(Step(s, e))
  {
    hide Inv, Ready, AddText, SetText, CloseBlock, EnsureStarted;
    match e
    case Skip =>
    case Ping => InvQuiet(s, M.Ping);
    case Created(id, model, usage) =>
      InvFrame(s, TakeIdentity(s, id, model).(startUsage := usage));
      InvStarted(TakeIdentity(s, id, model).(startUsage := usage));
    case ItemAdded(id, role) => InvFrame(s, Step(s, e));
    case PartAdded(index) => InvReady(s, index);
    case TextDelta(index, text) =>
      InvReady(s, index);
      InvAddText(Ready(s, index), index, text);
    case TextDone(index, text) => InvSetText(s, index, text);
    case PartDone(index, text) =>
      InvSetText(s, index, text);
      InvCloseBlock(SetText(s, index, text), index);
    case Completed(_, _, _, _, _) => InvCompleted(s, e);
    case Failure(message) => InvQuiet(s, M.Error(message));
  }

  lemma {:induction false} InvRun(s: State, es: seq<R.In>)
    requires Inv(s)
    ensures Inv(Run(s, es))
    decreases es
  {
    hide Inv;
    if es != [] {
      InvStep(s, es[0]);
      InvRun(Step(s, es[0]), es[1..]);
    }
  }

  /** Whatever the input, the written stream is well formed. */
  lemma OutputWellFormed(es: seq<R.In>)
    ensures WellFormed(Run(INIT, es).out)
  {
    InvRun(INIT, es);
  }

  /** Being well formed, spelled out by position. */
  lemma WellFormedMeans(out: seq<M.Out>)
    requires WellFormed(out)
    ensures forall a, b | 0 <= a < b < |out| ::
              && !(out[a].MessageStart? && out[b].MessageStart?)
              && !(out[a].BlockStart? && out[b].BlockStart? && out[a].index == out[b].index)
              && !(out[a].BlockEnd? && out[b].BlockEnd? && out[a].index == out[b].index)
    ensures forall b | 0 <= b < |out| && out[b].BlockStart? :: exists a :: 0 <= a < b && out[a].MessageStart?
    ensures forall b | 0 <= b < |out| && (out[b].BlockDelta? || out[b].BlockEnd?) ::
              exists a :: 0 <= a < b && out[a].BlockStart? && out[a].index == out[b].index
    ensures forall b, s | 0 <= s < b < |out| && out[b].MessageStop? && out[s].BlockStart? ::
              exists a :: s < a < b && out[a].BlockEnd? && out[a].index == out[s].index
  {
    forall a, b | 0 <= a < b < |out|
      ensures && !(out[a].MessageStart? && out[b].MessageStart?)
              && !(out[a].BlockStart? && out[b].BlockStart? && out[a].index == out[b].index)
              && !(out[a].BlockEnd? && out[b].BlockEnd? && out[a].index == out[b].index)
    {
      assert Allowed(out[..b], out[b]) && out[..b][a] in out[..b];
    }
    forall b | 0 <= b < |out| && out[b].BlockStart? ensures exists a :: 0 <= a < b && out[a].MessageStart? {
      assert Allowed(out[..b], out[b]);
      var e :| e in out[..b] && e.MessageStart?;
    }
    forall b | 0 <= b < |out| && (out[b].BlockDelta? || out[b].BlockEnd?)
      ensures exists a :: 0 <= a < b && out[a].BlockStart? && out[a].index == out[b].index
    {
      assert Allowed(out[..b], out[b]);
      var e :| e in out[..b] && e.BlockStart? && e.index == out[b].index;
    }
    forall b, s | 0 <= s < b < |out| && out[b].MessageStop? && out[s].BlockStart?
      ensures exists a :: s < a < b && out[a].BlockEnd? && out[a].index == out[s].index
    {
      assert Allowed(out[..b], out[b]) && out[..b][s] in out[..b];
      assert HasBlock(out[..b], out[s].index);
      var e :| e in out[..b] && e.BlockEnd? && e.index == out[s].index;
      var a :| 0 <= a < b && out[a] == e;
      assert Allowed(out[..a], out[a]);
      var f :| f in out[..a] && f.BlockStart? && f.index == out[s].index;
    }
  }

  // ----- deltas after a stop -----

  /** No delta follows the stop of its block. */
  ghost predicate DeltasInside(out: seq<M.Out>) {
    forall n | 0 <= n < |out| && out[n].BlockDelta? :: !HasEnd(out[..n], out[n].index)
  }

  predicate Opens(e: R.In, index: int) {
    (e.PartAdded? || e.TextDelta?) && e.index == index
  }

  predicate Closes(e: R.In, index: int) {
    e.Completed? || (e.PartDone? && e.index == index)
  }

  /** The input has opened a part and closed it since. */
  ghost predicate ClosedPart(es: seq<R.In>, index: int) {
    exists a, b :: 0 <= a < b < |es| && Opens(es[a], index) && Closes(es[b], index)
  }

  ghost predicate OpenedPart(es: seq<R.In>, index: int) {
    exists a :: 0 <= a < |es| && Opens(es[a], index)
  }

  /** The input sends no text for a part it has closed. */
  ghost predicate NoLateText(es: seq<R.In>) {
    forall n | 0 <= n < |es| && es[n].TextDelta? :: !ClosedPart(es[..n], es[n].index)
  }

  /** One block follows the input: it is started by an opening event and closed by a later closing one. */
  predicate Tracks(block: Block, everOpen: bool, closed: bool) {
    (block.started <==> everOpen) && (block.open <==> everOpen && !closed)
  }

  lemma {:induction false} CloseBlocksAt(s: State, indexes: seq<int>, index: int)
    ensures var b := BlockAt(CloseBlocks(s, indexes).blocks, index);
            && b.started == BlockAt(s.blocks, index).started
            && b.open == (BlockAt(s.blocks, index).open && index !in indexes)
    decreases indexes
  {
    if indexes != [] {
      CloseBlocksAt(CloseBlock(s, indexes[0]), indexes[1..], index);
    }
  }

  lemma StepTracks(s: State, e: R.In, index: int, everOpen: bool, closed: bool)
    requires Tracks(BlockAt(s.blocks, index), everOpen, closed) && (closed ==> everOpen)
    ensures Tracks(BlockAt(Step(s, e).blocks, index), everOpen || Opens(e, index),
                   closed || (everOpen && Closes(e, index)))
  {
    hide FirstNonEmpty, EnsureStarted, CloseBlocks;
    StartedKeepsBlocks(s);
    match e
    case Created(id, model, usage) => StartedKeepsBlocks(TakeIdentity(s, id, model).(startUsage := usage));
    case Completed(_, _, _, _, _) =>
      TakeCompletedKeepsBlocks(s, e);
      var t := TakeCompleted(s, e.id, e.model, e.usage);
      hide TakeCompleted;
      CloseBlocksAt(t, Sorted(t.blocks.Keys), index);
      assert index in Sorted(t.blocks.Keys) <==> index in t.blocks.Keys;
    case _ =>
  }

  lemma StartedKeepsBlocks(s: State)
    ensures EnsureStarted(s).blocks == s.blocks
  {
  }

  lemma TakeCompletedKeepsBlocks(s: State, e: R.In)
    requires e.Completed?
    ensures TakeCompleted(s, e.id, e.model, e.usage).blocks == s.blocks
  {
    var t := TakeIdentity(s, e.id, e.model);
    StartedKeepsBlocks(if e.usage.Some? then t.(startUsage := e.usage) else t);
  }

  lemma OpenedPartAppend(es: seq<R.In>, e: R.In, index: int)
    ensures OpenedPart(es + [e], index) <==> OpenedPart(es, index) || Opens(e, index)
    ensures ClosedPart(es + [e], index) <==> ClosedPart(es, index) || (OpenedPart(es, index) && Closes(e, index))
  {
    var all := es + [e];
    assert all[|es|] == e;
    assert forall k | 0 <= k < |es| :: all[k] == es[k];
  }

  lemma {:induction false} RunTracks(es: seq<R.In>, index: int)
    ensures Tracks(BlockAt(Run(INIT, es).blocks, index), OpenedPart(es, index), ClosedPart(es, index))
    ensures ClosedPart(es, index) ==> OpenedPart(es, index)
    decreases es
  {
    hide Step, Tracks;
    if es != [] {
      var front, e := es[..|es| - 1], es[|es| - 1];
      assert es == front + [e];
      RunTracks(front, index);
      RunAppend(INIT, front, [e]);
      assert Run(Run(INIT, front), [e]) == Step(Run(INIT, front), e);
      OpenedPartAppend(front, e, index);
      StepTracks(Run(INIT, front), e, index, OpenedPart(front, index), ClosedPart(front, index));
    } else {
      TracksInit(index);
    }
  }

  lemma TracksInit(index: int)
    ensures Tracks(BlockAt(Run(INIT, []).blocks, index), OpenedPart([], index), ClosedPart([], index))
    ensures !ClosedPart([], index)
  {
  }

  lemma DeltasAppend(p: seq<M.Out>, e: M.Out)
    ensures DeltasInside(p + [e]) <==> DeltasInside(p) && (e.BlockDelta? ==> !HasEnd(p, e.index))
  {
    hide HasEnd;
    var all := p + [e];
    assert all[..|p|] == p;
    forall n | 0 <= n < |p| ensures all[n] == p[n] && all[..n] == p[..n] {}
    if DeltasInside(p) && (e.BlockDelta? ==> !HasEnd(p, e.index)) {
      forall n | 0 <= n < |all| && all[n].BlockDelta? ensures !HasEnd(all[..n], all[n].index) {
        if n < |p| {
          assert !HasEnd(p[..n], p[n].index);
        }
      }
    }
  }

  lemma {:induction false} CloseBlocksDeltas(s: State, indexes: seq<int>)
    ensures DeltasInside(CloseBlocks(s, indexes).out) <==> DeltasInside(s.out)
    decreases indexes
  {
    hide DeltasInside;
    if indexes != [] {
      DeltasAppend(s.out, M.BlockEnd(indexes[0]));
      CloseBlocksDeltas(CloseBlock(s, indexes[0]), indexes[1..]);
    }
  }

  lemma StartedDeltas(s: State)
    ensures DeltasInside(EnsureStarted(s).out) <==> DeltasInside(s.out)
    ensures forall i :: HasEnd(EnsureStarted(s).out, i) <==> HasEnd(s.out, i)
  {
    var e := M.MessageStart(s.id, s.model, FirstNonEmpty([s.role, "assistant"]), s.startUsage);
    DeltasAppend(s.out, e);
    Appended(s.out, e);
  }

  lemma ReadyDeltas(s: State, index: int)
    ensures DeltasInside(Ready(s, index).out) <==> DeltasInside(s.out)
    ensures forall i :: HasEnd(Ready(s, index).out, i) <==> HasEnd(s.out, i)
  {
    hide DeltasInside, HasEnd;
    StartedDeltas(s);
    DeltasAppend(EnsureStarted(s).out, M.BlockStart(index));
    Appended(EnsureStarted(s).out, M.BlockStart(index));
  }

  lemma CompletedDeltas(s: State, e: R.In)
    requires e.Completed?
    ensures DeltasInside(Step(s, e).out) <==> DeltasInside(s.out)
  {
    hide DeltasInside, EnsureStarted, CloseBlocks, FirstNonEmpty;
    var t := TakeIdentity(s, e.id, e.model);
    StartedDeltas(if e.usage.Some? then t.(startUsage := e.usage) else t);
    var u := TakeCompleted(s, e.id, e.model, e.usage);
    var c := CloseBlocks(u, Sorted(u.blocks.Keys));
    CloseBlocksDeltas(u, Sorted(u.blocks.Keys));
    var d := M.MessageDelta(FirstNonEmpty([e.stopReason, "end_turn"]), e.stopSequence, e.usage);
    DeltasAppend(c.out, d);
    DeltasAppend(c.out + [d], M.MessageStop);
    assert c.out + [d] + [M.MessageStop] == c.out + [d, M.MessageStop];
  }

  lemma StepDeltas(s: State, e: R.In)
    ensures DeltasInside(Step(s, e).out)
       <==> DeltasInside(s.out) && (e.TextDelta? ==> !HasEnd(s.out, e.index))
  {
    hide DeltasInside, HasEnd, Ready, EnsureStarted;
    match e
    case Skip =>
    case Ping => DeltasAppend(s.out, M.Ping);
    case Created(id, model, usage) => StartedDeltas(TakeIdentity(s, id, model).(startUsage := usage));
    case ItemAdded(_, _) =>
    case PartAdded(index) => ReadyDeltas(s, index);
    case TextDelta(index, text) =>
      ReadyDeltas(s, index);
      DeltasAppend(Ready(s, index).out, M.BlockDelta(index, text));
    case TextDone(_, _) =>
    case PartDone(index, text) => DeltasAppend(s.out, M.BlockEnd(index));
    case Completed(_, _, _, _, _) => CompletedDeltas(s, e);
    case Failure(message) => DeltasAppend(s.out, M.Error(message));
  }

  lemma NoLateTextAppend(es: seq<R.In>, e: R.In)
    ensures NoLateText(es + [e]) <==> NoLateText(es) && (e.TextDelta? ==> !ClosedPart(es, e.index))
  {
    hide ClosedPart;
    var all := es + [e];
    assert all[..|es|] == es;
    forall n | 0 <= n < |es| ensures all[n] == es[n] && all[..n] == es[..n] {}
    if NoLateText(es) && (e.TextDelta? ==> !ClosedPart(es, e.index)) {
      forall n | 0 <= n < |all| && all[n].TextDelta? ensures !ClosedPart(all[..n], all[n].index) {
        if n < |es| {
          assert !ClosedPart(es[..n], es[n].index);
        }
      }
    }
  }

  /** A stop has been written for an index exactly when the input has opened and closed its part. */
  lemma EndMeansClosed(es: seq<R.In>, index: int)
    ensures HasEnd(Run(INIT, es).out, index) <==> ClosedPart(es, index)
  {
    InvRun(INIT, es);
    RunTracks(es, index);
    var s := Run(INIT, es);
    assert BlockFaithful(s.out, index, BlockAt(s.blocks, index));
  }

  /** The exact condition: every written delta lies inside its block just for inputs that send no text
      for a part they have closed. */
  lemma {:induction false} DeltasInsideIff(es: seq<R.In>)
    ensures DeltasInside(Run(INIT, es).out) <==> NoLateText(es)
    decreases es
  {
    hide Step, HasEnd, ClosedPart;
    if es != [] {
      var front, e := es[..|es| - 1], es[|es| - 1];
      assert es == front + [e];
      DeltasInsideIff(front);
      RunAppend(INIT, front, [e]);
      assert Run(Run(INIT, front), [e]) == Step(Run(INIT, front), e);
      StepDeltas(Run(INIT, front), e);
      NoLateTextAppend(front, e);
      if e.TextDelta? {
        EndMeansClosed(front, e.index);
      }
    }
  }

  /** A second output item whose part reuses an index is enough to break it. */
  lemma LateTextExists()
    ensures var es := [R.TextDelta(0, "a"), R.PartDone(0, "a"), R.TextDelta(0, "b")];
            !DeltasInside(Run(INIT, es).out)
  {
    var es := [R.TextDelta(0, "a"), R.PartDone(0, "a"), R.TextDelta(0, "b")];
    assert Opens(es[..2][0], 0) && Closes(es[..2][1], 0);
    assert ClosedPart(es[..2], es[2].index);
    DeltasInsideIff(es);
  }
}
