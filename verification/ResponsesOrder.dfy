/** Every stream written by `ToResponses` is well formed, whatever events it was made from, and no
    text is lost or invented. */
module ResponsesOrder {
  import opened Text
  import opened Blocks
  import opened ToResponses
  import M = MessagesEvents
  import R = ResponsesEvents

  // ----- the order of a Responses stream, stated on the written events alone -----

  ghost predicate HasCreated(p: seq<R.Out>) {
    exists e :: e in p && e.OutCreated?
  }

  ghost predicate HasItem(p: seq<R.Out>) {
    exists e :: e in p && e.OutItemAdded?
  }

  ghost predicate HasPart(p: seq<R.Out>, index: int) {
    exists e :: e in p && e.OutPartAdded? && e.index == index
  }

  ghost predicate HasTextDone(p: seq<R.Out>, index: int) {
    exists e :: e in p && e.OutTextDone? && e.index == index
  }

  ghost predicate HasPartDone(p: seq<R.Out>, index: int) {
    exists e :: e in p && e.OutPartDone? && e.index == index
  }

  /** The concatenation of the deltas written for an index. */
  function DeltaText(p: seq<R.Out>, index: int): string {
    if p == [] then "" else
      var e := p[|p| - 1];
      DeltaText(p[..|p| - 1], index) + if e.OutDelta? && e.index == index then e.text else ""
  }

  ghost predicate AllClosed(p: seq<R.Out>) {
    forall index | HasPart(p, index) :: HasPartDone(p, index)
  }

  /** The texts of an item are, in ascending order of index, the deltas of every part. */
  ghost predicate Collects(p: seq<R.Out>, texts: seq<string>) {
    exists indexes: seq<int> ::
      && Ascending(indexes)
      && (forall index :: index in indexes <==> HasPart(p, index))
      && |texts| == |indexes|
      && forall k | 0 <= k < |texts| :: texts[k] == DeltaText(p, indexes[k])
  }

  /** What may be written after the events `p`. */
  ghost predicate Allowed(p: seq<R.Out>, e: R.Out) {
    match e
    case OutCreated(_, _, _) => !HasCreated(p)
    case OutItemAdded(_, _) => HasCreated(p) && !HasItem(p)
    case OutPartAdded(_, index) => HasItem(p) && !HasPart(p, index)
    case OutDelta(_, index, _) => HasPart(p, index)
    case OutTextDone(_, index, text) =>
      HasPart(p, index) && !HasTextDone(p, index) && text == DeltaText(p, index)
    case OutPartDone(itemId, index, text) =>
      p != [] && p[|p| - 1] == R.OutTextDone(itemId, index, text) && !HasPartDone(p, index)
    case OutItemDone(item) => HasItem(p) && AllClosed(p) && Collects(p, item.texts)
    case OutCompleted(_, _, _, _, _, item) => p != [] && p[|p| - 1] == R.OutItemDone(item) && AllClosed(p)
    case OutError(_, _) => true
  }

  ghost predicate WellFormed(out: seq<R.Out>) {
    forall n | 0 <= n < |out| :: Allowed(out[..n], out[n])
  }

  lemma WellFormedAppend(out: seq<R.Out>, e: R.Out)
    requires WellFormed(out) && Allowed(out, e)
    ensures WellFormed(out + [e])
  {
    hide Allowed;
    var all := out + [e];
    assert all[..|out|] == out;
    forall n | 0 <= n < |all| ensures Allowed(all[..n], all[n]) {
      if n < |out| {
        assert all[..n] == out[..n];
      }
    }
  }

  // ----- the invariant of the converter -----

  /** The block kept for an index remembers exactly what has been written for it. */
  ghost predicate BlockFaithful(p: seq<R.Out>, index: int, known: bool, block: Block) {
    && (known <==> HasPart(p, index))
    && (block.started <==> known)
    && (block.open ==> known)
    && block.text == DeltaText(p, index)
    && (HasTextDone(p, index) <==> known && !block.open)
    && (HasPartDone(p, index) <==> known && !block.open)
  }

  ghost predicate BlocksFaithful(p: seq<R.Out>, blocks: BlockMap) {
    forall index :: BlockFaithful(p, index, index in blocks, BlockAt(blocks, index))
  }

  ghost predicate Inv(s: State) {
    && WellFormed(s.out)
    && (s.created <==> HasCreated(s.out))
    && (s.itemAdded <==> HasItem(s.out))
    && (s.itemAdded ==> s.created)
    && BlocksFaithful(s.out, s.blocks)
  }

  /** What one more event changes in the predicates above. */
  lemma Appended(p: seq<R.Out>, e: R.Out)
    ensures HasCreated(p + [e]) <==> HasCreated(p) || e.OutCreated?
    ensures HasItem(p + [e]) <==> HasItem(p) || e.OutItemAdded?
    ensures forall i :: HasPart(p + [e], i) <==> HasPart(p, i) || (e.OutPartAdded? && e.index == i)
    ensures forall i :: HasTextDone(p + [e], i) <==> HasTextDone(p, i) || (e.OutTextDone? && e.index == i)
    ensures forall i :: HasPartDone(p + [e], i) <==> HasPartDone(p, i) || (e.OutPartDone? && e.index == i)
    ensures forall i :: DeltaText(p + [e], i)
                     == DeltaText(p, i) + if e.OutDelta? && e.index == i then e.text else ""
  {
    assert forall x :: x in p + [e] <==> x in p || x == e;
    assert (p + [e])[..|p|] == p;
    assert e in p + [e];
    assert forall x :: x in p ==> x in p + [e];
  }

  lemma InvCreated(s: State)
    requires Inv(s)
    ensures Inv(EnsureCreated(s)) && EnsureCreated(s).created && EnsureCreated(s).blocks == s.blocks
  {
    hide HasCreated, HasItem, HasPart, HasTextDone, HasPartDone, DeltaText, WellFormed;
    if !s.created {
      var e := R.OutCreated(s.id, s.model, s.usage);
      Appended(s.out, e);
      WellFormedAppend(s.out, e);
    }
  }

  lemma InvItemAdded(s: State)
    requires Inv(s) && s.created
    ensures Inv(EnsureItemAdded(s)) && EnsureItemAdded(s).itemAdded && EnsureItemAdded(s).blocks == s.blocks
  {
    hide HasCreated, HasItem, HasPart, HasTextDone, HasPartDone, DeltaText, WellFormed;
    if !s.itemAdded {
      var e := R.OutItemAdded(EnsureItemAdded(s).itemId, FirstNonEmpty([s.role, "assistant"]));
      Appended(s.out, e);
      WellFormedAppend(s.out, e);
    }
  }

  lemma InvOpened(s: State)
    requires Inv(s)
    ensures Inv(Opened(s)) && Opened(s).itemAdded && Opened(s).blocks == s.blocks
  {
    InvCreated(s);
    InvItemAdded(EnsureCreated(s));
  }

  lemma InvPartAdded(s: State, index: int)
    requires Inv(s) && s.itemAdded
    ensures var t := EnsurePartAdded(s, index); Inv(t) && t.itemAdded && index in t.blocks
  {
    hide HasCreated, HasItem, HasPart, HasTextDone, HasPartDone, DeltaText, WellFormed;
    assert BlockFaithful(s.out, index, index in s.blocks, BlockAt(s.blocks, index));
    if !BlockAt(s.blocks, index).started {
      var e := R.OutPartAdded(s.itemId, index);
      Appended(s.out, e);
      WellFormedAppend(s.out, e);
      var t := EnsurePartAdded(s, index);
      forall i ensures BlockFaithful(t.out, i, i in t.blocks, BlockAt(t.blocks, i)) {
        assert BlockFaithful(s.out, i, i in s.blocks, BlockAt(s.blocks, i));
      }
    }
  }

  lemma InvAddText(s: State, index: int, text: string)
    requires Inv(s) && s.itemAdded && index in s.blocks
    ensures Inv(AddText(s, index, text))
  {
    hide HasCreated, HasItem, HasPart, HasTextDone, HasPartDone, DeltaText, WellFormed;
    assert BlockFaithful(s.out, index, index in s.blocks, BlockAt(s.blocks, index));
    var e := R.OutDelta(s.itemId, index, text);
    Appended(s.out, e);
    WellFormedAppend(s.out, e);
    var t := AddText(s, index, text);
    forall i ensures BlockFaithful(t.out, i, i in t.blocks, BlockAt(t.blocks, i)) {
      assert BlockFaithful(s.out, i, i in s.blocks, BlockAt(s.blocks, i));
    }
  }

  lemma InvCloseBlock(s: State, index: int)
    requires Inv(s)
    ensures var t := CloseBlock(s, index);
            && Inv(t) && t.itemAdded == s.itemAdded && t.created == s.created
            && t.blocks.Keys == s.blocks.Keys
            && !BlockAt(t.blocks, index).open
            && (forall i :: BlockAt(t.blocks, i).open ==> BlockAt(s.blocks, i).open)
  {
    hide HasCreated, HasItem, HasPart, HasTextDone, HasPartDone, DeltaText, WellFormed;
    var block := BlockAt(s.blocks, index);
    assert BlockFaithful(s.out, index, index in s.blocks, block);
    if block.open {
      var d := R.OutTextDone(s.itemId, index, block.text);
      var e := R.OutPartDone(s.itemId, index, block.text);
      Appended(s.out, d);
      WellFormedAppend(s.out, d);
      Appended(s.out + [d], e);
      WellFormedAppend(s.out + [d], e);
      var t := CloseBlock(s, index);
      assert t.out == s.out + [d] + [e];
      forall i ensures BlockFaithful(t.out, i, i in t.blocks, BlockAt(t.blocks, i)) {
        assert BlockFaithful(s.out, i, i in s.blocks, BlockAt(s.blocks, i));
      }
    }
  }

  lemma {:induction false} InvCloseBlocks(s: State, indexes: seq<int>)
    requires Inv(s)
    ensures var t := CloseBlocks(s, indexes);
            && Inv(t) && t.itemAdded == s.itemAdded && t.created == s.created
            && t.blocks.Keys == s.blocks.Keys
            && (forall i | i in indexes :: !BlockAt(t.blocks, i).open)
            && (forall i :: BlockAt(t.blocks, i).open ==> BlockAt(s.blocks, i).open)
    decreases indexes
  {
    hide Inv, CloseBlock;
    if indexes != [] {
      InvCloseBlock(s, indexes[0]);
      InvCloseBlocks(CloseBlock(s, indexes[0]), indexes[1..]);
    }
  }

  /** What the state knows of one index. */
  lemma BlockKnows(s: State, index: int)
    requires Inv(s)
    ensures DeltaText(s.out, index) == BlockAt(s.blocks, index).text
    ensures HasPart(s.out, index) <==> index in s.blocks
    ensures HasPartDone(s.out, index) <==> index in s.blocks && !BlockAt(s.blocks, index).open
  {
    hide WellFormed, DeltaText, HasPart, HasPartDone;
    assert BlockFaithful(s.out, index, index in s.blocks, BlockAt(s.blocks, index));
  }

  /** Once every block is closed, the item that is built collects every part. */
  lemma FinishCollects(s: State)
    requires Inv(s) && forall i :: !BlockAt(s.blocks, i).open
    ensures AllClosed(s.out) && Collects(s.out, BuildItem(s).texts)
  {
    hide Inv, DeltaText, HasPart, HasPartDone, FirstNonEmpty, BlockAt;
    forall i ensures HasPart(s.out, i) ==> HasPartDone(s.out, i) {
      BlockKnows(s, i);
    }
    var indexes := Sorted(s.blocks.Keys);
    forall i ensures i in indexes <==> HasPart(s.out, i) {
      BlockKnows(s, i);
    }
    forall k | 0 <= k < |indexes| ensures Texts(s.blocks, indexes)[k] == DeltaText(s.out, indexes[k]) {
      BlockKnows(s, indexes[k]);
    }
  }

  lemma InvFinish(s: State)
    requires Inv(s) && s.itemAdded && forall i :: !BlockAt(s.blocks, i).open
    ensures Inv(Finish(s))
  {
    hide HasCreated, HasItem, HasPart, HasTextDone, HasPartDone, DeltaText, WellFormed, BuildItem;
    FinishCollects(s);
    var item := BuildItem(s);
    var d := R.OutItemDone(item);
    var e := R.OutCompleted(s.id, s.model, s.usage, s.stopReason, s.stopSequence, item);
    Appended(s.out, d);
    WellFormedAppend(s.out, d);
    Appended(s.out + [d], e);
    assert AllClosed(s.out + [d]);
    WellFormedAppend(s.out + [d], e);
    var t := Finish(s);
    assert t.out == s.out + [d] + [e];
    forall i ensures BlockFaithful(t.out, i, i in t.blocks, BlockAt(t.blocks, i)) {
      assert BlockFaithful(s.out, i, i in s.blocks, BlockAt(s.blocks, i));
    }
  }

  lemma InvStop(s: State)
    requires Inv(s)
    ensures Inv(Step(s, M.Stop))
  {
    hide Inv;
    InvOpened(s);
    var o := Opened(s);
    var c := CloseBlocks(o, Sorted(o.blocks.Keys));
    InvCloseBlocks(o, Sorted(o.blocks.Keys));
    forall i ensures !BlockAt(c.blocks, i).open {
      if i !in o.blocks {
        assert i !in c.blocks.Keys;
      }
    }
    InvFinish(c);
  }

  lemma InvFrame(s: State, t: State)
    requires Inv(s)
    requires t.out == s.out && t.blocks == s.blocks && t.created == s.created && t.itemAdded == s.itemAdded
    ensures Inv(t)
  {
  }

  lemma InvStep(s: State, e: M.In)
    requires Inv(s)
    ensures Inv(Step(s, e))
  {
    hide Inv, Opened, EnsurePartAdded, AddText, CloseBlock;
    match e
    case Skip =>
    case Start(id, model, role, usage) =>
      InvFrame(s, TakeStart(s, id, model, role, usage));
      InvOpened(TakeStart(s, id, model, role, usage));
    case TextStart(index) =>
      InvOpened(s);
      InvPartAdded(Opened(s), index);
    case TextDelta(index, text) =>
      InvOpened(s);
      InvPartAdded(Opened(s), index);
      InvAddText(EnsurePartAdded(Opened(s), index), index, text);
    case BlockStop(index) =>
      InvOpened(s);
      InvPartAdded(Opened(s), index);
      InvCloseBlock(EnsurePartAdded(Opened(s), index), index);
    case Delta(_, _, _) => InvFrame(s, Step(s, e));
    case Stop => InvStop(s);
    case Failure(message, code) => InvError(s, R.OutError(message, code));
  }

  lemma InvError(s: State, e: R.Out)
    requires Inv(s) && e.OutError?
    ensures Inv(s.(out := s.out + [e]))
  {
    hide HasCreated, HasItem, HasPart, HasTextDone, HasPartDone, DeltaText, WellFormed;
    Appended(s.out, e);
    WellFormedAppend(s.out, e);
    forall i ensures BlockFaithful(s.out + [e], i, i in s.blocks, BlockAt(s.blocks, i)) {
      assert BlockFaithful(s.out, i, i in s.blocks, BlockAt(s.blocks, i));
    }
  }

  lemma {:induction false} InvRun(s: State, es: seq<M.In>)
    requires Inv(s)
    ensures Inv(Run(s, es))
    decreases es
  {
    hide Inv;
    if es != [] {
      InvStep(s, es[0]);
      InvRun(Step(s, es[0]), es[1..]);
    }
  }

  /** Whatever the input, the written stream is well formed. */
  lemma OutputWellFormed(es: seq<M.In>)
    ensures WellFormed(Run(INIT, es).out)
  {
    InvRun(INIT, es);
  }

  /** At completion every part that was added before has been closed since. */
  lemma ClosedAtCompletion(out: seq<R.Out>)
    requires WellFormed(out)
    ensures forall a, b | 0 <= a < b < |out| && out[a].OutPartAdded? && out[b].OutCompleted? ::
              exists d :: a < d < b && out[d].OutPartDone? && out[d].index == out[a].index
  {
    hide WellFormed;
    forall a, b | 0 <= a < b < |out| && out[a].OutPartAdded? && out[b].OutCompleted?
      ensures exists d :: a < d < b && out[d].OutPartDone? && out[d].index == out[a].index
    {
      var d := DoneBefore(out, a, b);
      PartBeforeDone(out, d);
      var p :| 0 <= p < d && out[p].OutPartAdded? && out[p].index == out[a].index;
      PartsDiffer(out);
      assert p == a;
    }
  }

  lemma DoneBefore(out: seq<R.Out>, a: nat, b: nat) returns (d: nat)
    requires WellFormed(out) && a < b < |out| && out[a].OutPartAdded? && out[b].OutCompleted?
    ensures d < b && out[d].OutPartDone? && out[d].index == out[a].index
  {
    assert Allowed(out[..b], out[b]) && out[..b][a] in out[..b];
    assert HasPart(out[..b], out[a].index);
    var e :| e in out[..b] && e.OutPartDone? && e.index == out[a].index;
    d :| 0 <= d < b && out[d] == e;
  }

  lemma PartsDiffer(out: seq<R.Out>)
    requires WellFormed(out)
    ensures forall i, j | 0 <= i < j < |out| && out[i].OutPartAdded? && out[j].OutPartAdded? ::
              out[i].index != out[j].index
  {
    forall i, j | 0 <= i < j < |out| && out[i].OutPartAdded? && out[j].OutPartAdded?
      ensures out[i].index != out[j].index
    {
      assert Allowed(out[..j], out[j]) && out[..j][i] in out[..j];
    }
  }

  lemma PartBeforeDone(out: seq<R.Out>, d: nat)
    requires WellFormed(out) && d < |out| && out[d].OutPartDone?
    ensures exists p :: 0 <= p < d && out[p].OutPartAdded? && out[p].index == out[d].index
  {
    assert Allowed(out[..d], out[d]);
    assert out[..d - 1] == out[..d][..d - 1];
    assert Allowed(out[..d - 1], out[d - 1]);
    var e :| e in out[..d - 1] && e.OutPartAdded? && e.index == out[d].index;
  }

  /** Being well formed, spelled out by position. */
  lemma WellFormedMeans(out: seq<R.Out>)
    requires WellFormed(out)
    ensures forall a, b | 0 <= a < b < |out| ::
              && !(out[a].OutCreated? && out[b].OutCreated?)
              && !(out[a].OutItemAdded? && out[b].OutItemAdded?)
              && !(out[a].OutPartAdded? && out[b].OutPartAdded? && out[a].index == out[b].index)
              && !(out[a].OutTextDone? && out[b].OutTextDone? && out[a].index == out[b].index)
              && !(out[a].OutPartDone? && out[b].OutPartDone? && out[a].index == out[b].index)
    ensures forall b | 0 <= b < |out| && (out[b].OutDelta? || out[b].OutTextDone?) ::
              exists a :: 0 <= a < b && out[a].OutPartAdded? && out[a].index == out[b].index
    ensures forall b | 0 <= b < |out| && out[b].OutPartAdded? :: exists a :: 0 <= a < b && out[a].OutItemAdded?
    ensures forall b | 0 <= b < |out| && out[b].OutItemAdded? :: exists a :: 0 <= a < b && out[a].OutCreated?
    ensures forall a, b | 0 <= a < b < |out| && out[a].OutPartAdded? && out[b].OutCompleted? ::
              exists d :: a < d < b && out[d].OutPartDone? && out[d].index == out[a].index
  {
    ClosedAtCompletion(out);
    forall a, b | 0 <= a < b < |out|
      ensures && !(out[a].OutCreated? && out[b].OutCreated?)
              && !(out[a].OutItemAdded? && out[b].OutItemAdded?)
              && !(out[a].OutPartAdded? && out[b].OutPartAdded? && out[a].index == out[b].index)
              && !(out[a].OutTextDone? && out[b].OutTextDone? && out[a].index == out[b].index)
              && !(out[a].OutPartDone? && out[b].OutPartDone? && out[a].index == out[b].index)
    {
      assert Allowed(out[..b], out[b]) && out[..b][a] in out[..b];
    }
    forall b | 0 <= b < |out| && (out[b].OutDelta? || out[b].OutTextDone?)
      ensures exists a :: 0 <= a < b && out[a].OutPartAdded? && out[a].index == out[b].index
    {
      assert Allowed(out[..b], out[b]);
      var e :| e in out[..b] && e.OutPartAdded? && e.index == out[b].index;
    }
    forall b | 0 <= b < |out| && out[b].OutPartAdded? ensures exists a :: 0 <= a < b && out[a].OutItemAdded? {
      assert Allowed(out[..b], out[b]);
      var e :| e in out[..b] && e.OutItemAdded?;
    }
    forall b | 0 <= b < |out| && out[b].OutItemAdded? ensures exists a :: 0 <= a < b && out[a].OutCreated? {
      assert Allowed(out[..b], out[b]);
      var e :| e in out[..b] && e.OutCreated?;
    }
  }

  // ----- the text of the input -----

  /** The concatenation of the text deltas read for an index. */
  function InputText(es: seq<M.In>, index: int): string {
    if es == [] then "" else
      TextOf(es[0], index) + InputText(es[1..], index)
  }

  predicate Touches(e: M.In, index: int) {
    (e.TextStart? || e.TextDelta? || e.BlockStop?) && e.index == index
  }

  /** Some event names the block `index`. */
  ghost predicate ReadsIndex(es: seq<M.In>, index: int) {
    exists e :: e in es && Touches(e, index)
  }

  /** Two block maps with the same indexes and texts. */
  ghost predicate SameTexts(a: BlockMap, b: BlockMap) {
    a.Keys == b.Keys && forall index :: BlockAt(a, index).text == BlockAt(b, index).text
  }

  lemma OpenedKeepsBlocks(s: State)
    ensures Opened(s).blocks == s.blocks
  {
  }

  lemma {:induction false} CloseBlocksKeepsTexts(s: State, indexes: seq<int>)
    ensures SameTexts(CloseBlocks(s, indexes).blocks, s.blocks)
    decreases indexes
  {
    if indexes != [] {
      CloseBlocksKeepsTexts(CloseBlock(s, indexes[0]), indexes[1..]);
    }
  }

  lemma StopKeepsTexts(s: State)
    ensures SameTexts(Step(s, M.Stop).blocks, s.blocks)
  {
    hide SameTexts, Opened, CloseBlocks, BuildItem;
    OpenedKeepsBlocks(s);
    CloseBlocksKeepsTexts(Opened(s), Sorted(Opened(s).blocks.Keys));
  }

  function TextOf(e: M.In, index: int): string {
    if e.TextDelta? && e.index == index then e.text else ""
  }

  lemma StepText(s: State, e: M.In, index: int)
    ensures BlockAt(Step(s, e).blocks, index).text == BlockAt(s.blocks, index).text + TextOf(e, index)
    ensures index in Step(s, e).blocks <==> index in s.blocks || Touches(e, index)
  {
    hide Opened;
    match e
    case Start(id, model, role, usage) => OpenedKeepsBlocks(TakeStart(s, id, model, role, usage));
    case Stop =>
      StopKeepsTexts(s);
      assert index in Step(s, e).blocks.Keys <==> index in s.blocks.Keys;
    case _ => OpenedKeepsBlocks(s);
  }

  /** The state holds, for every index, the text read for it, and just the indexes that were read. */
  lemma {:induction false} RunText(s: State, es: seq<M.In>, index: int)
    ensures BlockAt(Run(s, es).blocks, index).text == BlockAt(s.blocks, index).text + InputText(es, index)
    ensures index in Run(s, es).blocks <==> index in s.blocks || ReadsIndex(es, index)
    decreases es
  {
    hide Step;
    if es != [] {
      StepText(s, es[0], index);
      RunText(Step(s, es[0]), es[1..], index);
      assert forall e :: e in es <==> e == es[0] || e in es[1..];
    }
  }

  /** Text conservation: what was written for an index is what was read for it. */
  lemma TextConserved(es: seq<M.In>, index: int)
    ensures DeltaText(Run(INIT, es).out, index) == InputText(es, index)
    ensures HasPart(Run(INIT, es).out, index) <==> ReadsIndex(es, index)
  {
    InvInit(index);
    hide Inv, ReadsIndex, DeltaText, HasPart, Run, BlockAt;
    InvRun(INIT, es);
    RunText(INIT, es, index);
    BlockKnows(Run(INIT, es), index);
  }

  lemma InvInit(index: int)
    ensures Inv(INIT) && index !in INIT.blocks && BlockAt(INIT.blocks, index).text == ""
  {
  }

  lemma TextsDependOnTexts(a: BlockMap, b: BlockMap, indexes: seq<int>)
    requires SameTexts(a, b)
    ensures Texts(a, indexes) == Texts(b, indexes)
  {
  }

  /** `message_stop` ends the output with an item that holds the collected texts. */
  lemma StopCompletes(s: State)
    ensures var out := Step(s, M.Stop).out;
            && out != [] && out[|out| - 1].OutCompleted?
            && out[|out| - 1].item.texts == Texts(s.blocks, Sorted(s.blocks.Keys))
  {
    OpenedKeepsBlocks(s);
    var o := Opened(s);
    var indexes := Sorted(o.blocks.Keys);
    CloseBlocksKeepsTexts(o, indexes);
    var c := CloseBlocks(o, indexes);
    TextsDependOnTexts(c.blocks, s.blocks, indexes);
  }

  /** At every message_stop the completed item lists, by ascending index, the text read so far for
      every index that was read. */
  lemma CompletedText(es: seq<M.In>) returns (indexes: seq<int>)
    ensures Ascending(indexes)
    ensures forall index :: index in indexes <==> ReadsIndex(es, index)
    ensures var out := Run(INIT, es + [M.Stop]).out;
            && out != [] && out[|out| - 1].OutCompleted?
            && |out[|out| - 1].item.texts| == |indexes|
            && forall k | 0 <= k < |indexes| :: out[|out| - 1].item.texts[k] == InputText(es, indexes[k])
  {
    hide Step;
    var s := Run(INIT, es);
    RunAppend(INIT, es, [M.Stop]);
    assert Run(s, [M.Stop]) == Step(s, M.Stop);
    StopCompletes(s);
    indexes := Sorted(s.blocks.Keys);
    forall index ensures index in indexes <==> ReadsIndex(es, index) {
      RunText(INIT, es, index);
      assert index in indexes <==> index in s.blocks.Keys;
    }
    forall k | 0 <= k < |indexes|
      ensures BlockAt(s.blocks, indexes[k]).text == InputText(es, indexes[k])
    {
      RunText(INIT, es, indexes[k]);
    }
  }
}
