/** Translating a stream never adds tokens to its account, and keeps the account of every stream that
    reports its usage at the start and at the end. */
module UsageTranslation {
  import opened Text
  import opened Json
  import opened Frames
  import opened Usage
  import M = MessagesEvents
  import R = ResponsesEvents
  import There = ToResponses
  import Back = ToMessages
  import Blocks

  // ----- the usage of one event -----

  ghost function MessageTokens(e: M.In): Tokens {
    if e.Start? || e.Delta? then Counted(e.usage) else ZERO
  }

  ghost function ResponseTokens(e: R.In): Tokens {
    if e.Created? || e.Completed? then Counted(e.usage) else ZERO
  }

  ghost function WrittenResponseTokens(e: R.Out): Tokens {
    if e.OutCreated? || e.OutCompleted? then Counted(e.usage) else ZERO
  }

  ghost function WrittenMessageTokens(e: M.Out): Tokens {
    if e.MessageStart? || e.MessageDelta? then Counted(e.usage) else ZERO
  }

  lemma MergeBounds(a: Tokens, b: Tokens, c: Tokens)
    ensures AtMost(a, Merge(Merge(a, b), c))
    ensures AtMost(b, Merge(Merge(a, b), c))
    ensures AtMost(c, Merge(Merge(a, b), c))
  {
  }

  lemma MessageDocUsage(tag: M.Tag, p: Fields)
    ensures var e := M.ReadDoc(tag, p);
            && (e.Start? ==> e.usage == UsageOf(Get(AsObject(Get(p, "message")), "usage")))
            && (e.Delta? ==> e.usage == UsageOf(Get(p, "usage")))
  {
    hide FirstNonEmpty;
  }

  /** A read event carries no more usage than its frame. */
  lemma ReadMessageTokens(f: Frame)
    requires M.Read(f).Ok?
    ensures AtMost(MessageTokens(M.Read(f).value), FrameTokens(f))
  {
    TokensNonNegative(f);
    if !IsPing(f.name) && f.data.Doc? && M.TagOf(Kind(f)).Some? {
      var p, tag := f.data.fields, M.TagOf(Kind(f)).value;
      var b := AsObject(Get(p, "message"));
      MergeBounds(TokensOf(AsObject(Get(p, "usage"))), TokensOf(AsObject(Get(AsObject(Get(p, "response")), "usage"))),
                  TokensOf(AsObject(Get(b, "usage"))));
      MessageDocUsage(tag, p);
      CountedOf(Get(p, "usage"));
      CountedOf(Get(b, "usage"));
      hide M.TagOf, M.ReadDoc, FirstNonEmpty, TokensOf, AsObject, Get, UsageOf;
      assert M.Read(f).value == M.ReadDoc(tag, p);
    }
  }

  lemma CountedOf(v: Json)
    ensures Counted(UsageOf(v)) == TokensOf(AsObject(v))
  {
  }

  lemma TokensNonNegative(f: Frame)
    ensures AtMost(ZERO, FrameTokens(f))
  {
  }

  lemma ReadDocUsage(tag: R.Tag, p: Fields)
    ensures var e := R.ReadDoc(tag, p);
            e.Created? || e.Completed? ==> e.usage == UsageOf(Get(AsObject(Get(p, "response")), "usage"))
  {
    hide R.IsTextPart, FirstNonEmpty;
  }

  lemma ReadResponseTokens(f: Frame)
    requires R.Read(f).Ok?
    ensures AtMost(ResponseTokens(R.Read(f).value), FrameTokens(f))
  {
    TokensNonNegative(f);
    if !IsPing(f.name) && f.data.Doc? && R.TagOf(Kind(f)).Some? {
      var p, tag := f.data.fields, R.TagOf(Kind(f)).value;
      var b := AsObject(Get(p, "response"));
      MergeBounds(TokensOf(AsObject(Get(p, "usage"))), TokensOf(AsObject(Get(b, "usage"))),
                  TokensOf(AsObject(Get(AsObject(Get(p, "message")), "usage"))));
      ReadDocUsage(tag, p);
      CountedOf(Get(b, "usage"));
      hide R.TagOf, R.ReadDoc, FirstNonEmpty, TokensOf, AsObject, Get, UsageOf;
      assert R.Read(f).value == R.ReadDoc(tag, p);
    }
  }

  // ----- the usage of a written frame -----

  lemma NoUsage(p: Fields)
    requires AsObject(Get(p, "usage")) == map[]
    requires AsObject(Get(AsObject(Get(p, "response")), "usage")) == map[]
    requires AsObject(Get(AsObject(Get(p, "message")), "usage")) == map[]
    ensures PayloadTokens(p) == ZERO
  {
  }

  lemma UnderResponse(kind: Json, response: Fields)
    ensures PayloadTokens(map["response" := Obj(response)]["type" := kind])
         == TokensOf(AsObject(Get(response, "usage")))
  {
    hide Normalize;
    var p := map["response" := Obj(response)]["type" := kind];
    assert Get(p, "usage") == Null && Get(p, "message") == Null && Get(p, "response") == Obj(response);
  }

  lemma UnderMessage(kind: Json, message: Fields)
    ensures PayloadTokens(map["message" := Obj(message)]["type" := kind])
         == TokensOf(AsObject(Get(message, "usage")))
  {
    hide Normalize;
    var p := map["message" := Obj(message)]["type" := kind];
    assert Get(p, "usage") == Null && Get(p, "response") == Null && Get(p, "message") == Obj(message);
  }

  lemma WrittenCompleted(e: R.Out)
    requires e.OutCompleted?
    ensures FrameTokens(R.Write(e)) == Counted(e.usage)
  {
    hide R.ResponseJson, R.DoneItem, WithText, TokensOf;
    var response := R.CompletedResponse(e.id, e.model, e.usage, e.stopReason, e.stopSequence, e.item);
    R.ReadCompletedFields(e.id, e.model, e.usage, e.stopReason, e.stopSequence, e.item);
    CountedOf(Get(response, "usage"));
    hide R.CompletedResponse, Get;
    UnderResponse(Str("response.completed"), response);
  }

  lemma WrittenCreated(e: R.Out)
    requires e.OutCreated?
    ensures FrameTokens(R.Write(e)) == Counted(e.usage)
  {
    var response := R.ResponseJson(e.id, e.model, "in_progress", [], e.usage);
    assert UsageOf(Get(response, "usage")) == e.usage;
    CountedOf(Get(response, "usage"));
    hide R.ResponseJson, Get;
    UnderResponse(Str("response.created"), response);
  }

  lemma WrittenQuiet(e: R.Out)
    requires !e.OutCreated? && !e.OutCompleted?
    ensures FrameTokens(R.Write(e)) == ZERO
  {
    hide Normalize, TokensOf, PayloadTokens, R.TextPart, R.DoneItem, R.ItemJson;
    var p := R.Write(e).data.fields;
    assert "usage" !in p && "response" !in p && ("message" in p ==> p["message"].Str?);
    NoUsage(p);
  }

  lemma WrittenResponse(e: R.Out)
    ensures FrameTokens(R.Write(e)) == WrittenResponseTokens(e)
  {
    if e.OutCreated? {
      WrittenCreated(e);
    } else if e.OutCompleted? {
      WrittenCompleted(e);
    } else {
      WrittenQuiet(e);
    }
  }

  lemma WrittenStart(e: M.Out)
    requires e.MessageStart?
    ensures FrameTokens(M.Write(e)) == Counted(e.usage)
  {
    var message := M.StartMessage(e.id, e.model, e.role, e.usage);
    assert UsageOf(Get(message, "usage")) == e.usage;
    CountedOf(Get(message, "usage"));
    hide M.StartMessage, Get;
    UnderMessage(Str("message_start"), message);
  }

  lemma WrittenEnd(e: M.Out)
    requires e.MessageDelta?
    ensures FrameTokens(M.Write(e)) == Counted(e.usage)
  {
    hide Normalize;
    var p := M.Write(e).data.fields;
    assert "response" !in p && "message" !in p;
    assert UsageOf(Get(p, "usage")) == e.usage;
    CountedOf(Get(p, "usage"));
  }

  lemma WrittenMessageQuiet(e: M.Out)
    requires !e.MessageStart? && !e.MessageDelta?
    ensures FrameTokens(M.Write(e)) == ZERO
  {
    hide Normalize, TokensOf, PayloadTokens;
    var p := M.Write(e).data.fields;
    assert "usage" !in p && "response" !in p && "message" !in p;
    NoUsage(p);
  }

  lemma WrittenMessage(e: M.Out)
    ensures FrameTokens(M.Write(e)) == WrittenMessageTokens(e)
  {
    if e.MessageStart? {
      WrittenStart(e);
    } else if e.MessageDelta? {
      WrittenEnd(e);
    } else {
      WrittenMessageQuiet(e);
    }
  }

  // ----- the account of a written stream -----

  /** The usage of written events, merged event by event. */
  ghost function TotalThere(out: seq<R.Out>): Tokens {
    if out == [] then ZERO else Merge(TotalThere(out[..|out| - 1]), WrittenResponseTokens(out[|out| - 1]))
  }

  ghost function TotalBack(out: seq<M.Out>): Tokens {
    if out == [] then ZERO else Merge(TotalBack(out[..|out| - 1]), WrittenMessageTokens(out[|out| - 1]))
  }

  lemma {:induction false} ExtractWritten(out: seq<R.Out>)
    ensures Extract(R.WriteAll(out)) == TotalThere(out)
  {
    hide FrameTokens, R.Write, WrittenResponseTokens;
    if out != [] {
      var n := |out| - 1;
      assert R.WriteAll(out)[..n] == R.WriteAll(out[..n]);
      WrittenResponse(out[n]);
      ExtractWritten(out[..n]);
    }
  }

  lemma {:induction false} ExtractWrittenBack(out: seq<M.Out>)
    ensures Extract(M.WriteAll(out)) == TotalBack(out)
  {
    hide FrameTokens, M.Write, WrittenMessageTokens;
    if out != [] {
      var n := |out| - 1;
      assert M.WriteAll(out)[..n] == M.WriteAll(out[..n]);
      WrittenMessage(out[n]);
      ExtractWrittenBack(out[..n]);
    }
  }

  lemma CountedNonNegative(usage: Option<Fields>)
    ensures AtMost(ZERO, Counted(usage))
  {
  }

  lemma NothingCounted()
    ensures Counted(None) == ZERO
  {
  }

  lemma MergeLaws(a: Tokens, b: Tokens, c: Tokens)
    ensures Merge(Merge(a, b), c) == Merge(a, Merge(b, c))
    ensures AtMost(ZERO, a) ==> Merge(a, ZERO) == a && Merge(ZERO, a) == a
    ensures AtMost(ZERO, a) ==> AtMost(ZERO, Merge(a, b))
    ensures AtMost(Merge(a, b), c) <==> AtMost(a, c) && AtMost(b, c)
  {
  }

  /** One more event adds its usage. */
  lemma TotalOne(out: seq<R.Out>, e: R.Out)
    ensures TotalThere(out + [e]) == Merge(TotalThere(out), WrittenResponseTokens(e))
  {
    assert (out + [e])[..|out|] == out;
  }

  lemma TotalOneBack(out: seq<M.Out>, e: M.Out)
    ensures TotalBack(out + [e]) == Merge(TotalBack(out), WrittenMessageTokens(e))
  {
    assert (out + [e])[..|out|] == out;
  }

  lemma {:induction false} TotalNonNegative(out: seq<R.Out>)
    ensures AtMost(ZERO, TotalThere(out))
  {
    if out != [] {
      TotalNonNegative(out[..|out| - 1]);
    }
  }

  lemma {:induction false} TotalNonNegativeBack(out: seq<M.Out>)
    ensures AtMost(ZERO, TotalBack(out))
  {
    if out != [] {
      TotalNonNegativeBack(out[..|out| - 1]);
    }
  }

  /** An event without usage adds nothing. */
  lemma TotalQuiet(out: seq<R.Out>, e: R.Out)
    requires !e.OutCreated? && !e.OutCompleted?
    ensures TotalThere(out + [e]) == TotalThere(out)
  {
    TotalOne(out, e);
    TotalNonNegative(out);
  }

  lemma TotalQuietBack(out: seq<M.Out>, e: M.Out)
    requires !e.MessageStart? && !e.MessageDelta?
    ensures TotalBack(out + [e]) == TotalBack(out)
  {
    TotalOneBack(out, e);
    TotalNonNegativeBack(out);
  }

  // ----- what a Messages stream is billed for after translation -----

  /** Events that open the response when none is open yet. */
  predicate Opens(e: M.In) {
    e.Start? || e.TextStart? || e.TextDelta? || e.BlockStop? || e.Stop?
  }

  /** The usage the converter remembers after an event. */
  function Remembered(usage: Option<Fields>, e: M.In): Option<Fields> {
    if e.Start? || (e.Delta? && e.usage.Some?) then e.usage else usage
  }

  /** The account of the translation, from the events alone: the usage known when the response opens, and the usage
      known at every stop. */
  ghost function Billed(open: bool, usage: Option<Fields>, es: seq<M.In>): Tokens
    decreases es
  {
    if es == [] then ZERO
    else
      var e := es[0];
      var next := Remembered(usage, e);
      Merge(BilledOne(open, next, e), Billed(open || Opens(e), next, es[1..]))
  }

  ghost function BilledOne(open: bool, usage: Option<Fields>, e: M.In): Tokens {
    if (Opens(e) && !open) || e.Stop? then Counted(usage) else ZERO
  }

  lemma OpenedAdds(s: There.State)
    ensures var o := There.Opened(s);
            && o.created && o.usage == s.usage
            && TotalThere(o.out) == Merge(TotalThere(s.out), if s.created then ZERO else Counted(s.usage))
  {
    hide FirstNonEmpty, Counted, TotalThere, Merge;
    var c := There.EnsureCreated(s);
    TotalNonNegative(s.out);
    MergeLaws(TotalThere(s.out), ZERO, ZERO);
    if !s.created {
      TotalOne(s.out, R.OutCreated(s.id, s.model, s.usage));
    }
    var o := There.EnsureItemAdded(c);
    if !c.itemAdded {
      TotalQuiet(c.out, R.OutItemAdded(o.itemId, FirstNonEmpty([c.role, "assistant"])));
    }
  }

  lemma PartAddsNothing(s: There.State, index: int)
    ensures var t := There.EnsurePartAdded(s, index);
            t.created == s.created && t.usage == s.usage && TotalThere(t.out) == TotalThere(s.out)
  {
    hide TotalThere;
    TotalQuiet(s.out, R.OutPartAdded(s.itemId, index));
  }

  lemma CloseAddsNothing(s: There.State, index: int)
    ensures var t := There.CloseBlock(s, index);
            t.created == s.created && t.usage == s.usage && TotalThere(t.out) == TotalThere(s.out)
  {
    hide TotalThere;
    var block := Blocks.BlockAt(s.blocks, index);
    var d := R.OutTextDone(s.itemId, index, block.text);
    var e := R.OutPartDone(s.itemId, index, block.text);
    TotalQuiet(s.out, d);
    TotalQuiet(s.out + [d], e);
    assert s.out + [d] + [e] == s.out + [d, e];
  }

  lemma {:induction false} CloseAllAddsNothing(s: There.State, indexes: seq<int>)
    ensures var t := There.CloseBlocks(s, indexes);
            t.created == s.created && t.usage == s.usage && TotalThere(t.out) == TotalThere(s.out)
    decreases indexes
  {
    hide There.CloseBlock, TotalThere;
    if indexes != [] {
      CloseAddsNothing(s, indexes[0]);
      CloseAllAddsNothing(There.CloseBlock(s, indexes[0]), indexes[1..]);
    }
  }

  lemma FinishAdds(s: There.State)
    ensures There.Finish(s).created == s.created && There.Finish(s).usage == s.usage
    ensures TotalThere(There.Finish(s).out) == Merge(TotalThere(s.out), Counted(s.usage))
  {
    hide There.BuildItem, Counted, TotalThere, Merge;
    var item := There.BuildItem(s);
    var d := R.OutItemDone(item);
    var e := R.OutCompleted(s.id, s.model, s.usage, s.stopReason, s.stopSequence, item);
    TotalQuiet(s.out, d);
    TotalOne(s.out + [d], e);
    assert s.out + [d] + [e] == s.out + [d, e];
  }

  lemma StopAdds(s: There.State)
    ensures var t := There.Step(s, M.Stop);
            && t.created && t.usage == s.usage
            && TotalThere(t.out) == Merge(TotalThere(s.out), Counted(s.usage))
  {
    hide There.Opened, There.CloseBlocks, There.Finish, Counted, TotalThere, Merge;
    OpenedAdds(s);
    var o := There.Opened(s);
    CloseAllAddsNothing(o, Blocks.Sorted(o.blocks.Keys));
    FinishAdds(There.CloseBlocks(o, Blocks.Sorted(o.blocks.Keys)));
    TotalNonNegative(s.out);
    CountedNonNegative(s.usage);
    MergeTwice(TotalThere(s.out), Counted(s.usage));
  }

  lemma MergeTwice(a: Tokens, b: Tokens)
    requires AtMost(ZERO, a)
    ensures Merge(Merge(a, b), b) == Merge(a, b) && Merge(a, ZERO) == a
  {
  }

  /** One event adds what the account says. */
  lemma StepAdds(s: There.State, e: M.In)
    ensures var t := There.Step(s, e);
            && t.created == (s.created || Opens(e)) && t.usage == Remembered(s.usage, e)
            && TotalThere(t.out) == Merge(TotalThere(s.out), BilledOne(s.created, t.usage, e))
  {
    hide There.Opened, There.EnsurePartAdded, There.CloseBlock, FirstNonEmpty, Counted, TotalThere, Merge;
    TotalNonNegative(s.out);
    MergeTwice(TotalThere(s.out), ZERO);
    OpenedAdds(s);
    var o := There.Opened(s);
    match e
    case Start(id, model, role, usage) => OpenedAdds(There.TakeStart(s, id, model, role, usage));
    case TextStart(index) => PartAddsNothing(o, index);
    case TextDelta(index, text) =>
      PartAddsNothing(o, index);
      var p := There.EnsurePartAdded(o, index);
      TotalQuiet(p.out, R.OutDelta(p.itemId, index, text));
    case BlockStop(index) =>
      PartAddsNothing(o, index);
      CloseAddsNothing(There.EnsurePartAdded(o, index), index);
    case Stop => StopAdds(s);
    case Failure(message, code) => TotalQuiet(s.out, R.OutError(message, code));
    case _ =>
  }

  lemma {:induction false} RunAdds(s: There.State, es: seq<M.In>)
    ensures TotalThere(There.Run(s, es).out) == Merge(TotalThere(s.out), Billed(s.created, s.usage, es))
    decreases es
  {
    hide There.Step, BilledOne, Remembered, Opens, Counted, TotalThere, Merge;
    TotalNonNegative(s.out);
    MergeTwice(TotalThere(s.out), ZERO);
    if es != [] {
      var t := There.Step(s, es[0]);
      StepAdds(s, es[0]);
      RunAdds(t, es[1..]);
      MergeLaws(TotalThere(s.out), BilledOne(s.created, t.usage, es[0]), Billed(t.created, t.usage, es[1..]));
    }
  }

  /** The account never goes beyond what the events carry. */
  lemma {:induction false} BilledBounded(open: bool, usage: Option<Fields>, es: seq<M.In>, bound: Tokens)
    requires AtMost(ZERO, bound) && AtMost(Counted(usage), bound)
    requires forall e | e in es :: AtMost(MessageTokens(e), bound)
    ensures AtMost(Billed(open, usage, es), bound)
    decreases es
  {
    hide Counted;
    if es != [] {
      assert es[0] in es && forall e | e in es[1..] :: e in es;
      BilledBounded(open || Opens(es[0]), Remembered(usage, es[0]), es[1..], bound);
    }
  }

  lemma {:induction false} BilledNonNegative(open: bool, usage: Option<Fields>, es: seq<M.In>)
    ensures AtMost(ZERO, Billed(open, usage, es))
    decreases es
  {
    hide Counted;
    if es != [] {
      CountedNonNegative(Remembered(usage, es[0]));
      BilledNonNegative(open || Opens(es[0]), Remembered(usage, es[0]), es[1..]);
    }
  }

  /** Every read event is within the usage extracted from the frames. */
  lemma {:induction false} ReadBounded(frames: seq<Frame>, bound: Tokens)
    requires M.ReadAll(frames).Ok? && forall f | f in frames :: AtMost(FrameTokens(f), bound)
    ensures forall e | e in M.ReadAll(frames).value :: AtMost(MessageTokens(e), bound)
  {
    hide FrameTokens, M.Read, MessageTokens;
    if frames != [] {
      assert frames[0] in frames && forall f | f in frames[1..] :: f in frames;
      ReadMessageTokens(frames[0]);
      ReadBounded(frames[1..], bound);
    }
  }

  /** The exact account of every translated Messages stream. */
  lemma ToResponsesBills(frames: seq<Frame>)
    requires M.ReadAll(frames).Ok?
    ensures There.Convert(frames).Ok?
    ensures Extract(There.Convert(frames).value) == Billed(false, None, M.ReadAll(frames).value)
  {
    hide There.Step, There.Run, Billed, Merge, Extract;
    var es := M.ReadAll(frames).value;
    RunAdds(There.INIT, es);
    ExtractWritten(There.Run(There.INIT, es).out);
    BilledNonNegative(false, None, es);
    MergeLaws(Billed(false, None, es), ZERO, ZERO);
  }

  /** Whatever a Messages stream holds, its translation is never billed for more. */
  lemma ToResponsesNeverAdds(frames: seq<Frame>)
    requires There.Convert(frames).Ok?
    ensures AtMost(Extract(There.Convert(frames).value), Extract(frames))
  {
    var bound := Extract(frames);
    ToResponsesBills(frames);
    hide Counted, Billed, There.Run, MessageTokens;
    ExtractAtLeastZero(frames);
    ExtractIsLeastBound(frames, bound);
    ReadBounded(frames, bound);
    NothingCounted();
    BilledBounded(false, None, M.ReadAll(frames).value, bound);
  }

  /** The account is kept exactly when no frame reports more than what is billed. */
  lemma ToResponsesKeepsIff(frames: seq<Frame>)
    requires M.ReadAll(frames).Ok?
    ensures There.Convert(frames).Ok?
    ensures var billed := Billed(false, None, M.ReadAll(frames).value);
            && (Extract(There.Convert(frames).value) == Extract(frames)
                <==> forall f | f in frames :: AtMost(FrameTokens(f), billed))
  {
    hide Billed, There.Run, FrameTokens, Extract, R.WriteAll;
    ToResponsesBills(frames);
    ToResponsesNeverAdds(frames);
    var billed := Billed(false, None, M.ReadAll(frames).value);
    ExtractAtLeastZero(R.WriteAll(There.Run(There.INIT, M.ReadAll(frames).value).out));
    ExtractIsLeastBound(frames, billed);
    if AtMost(Extract(frames), billed) {
      AtMostBothWays(billed, Extract(frames));
    }
  }

  // ----- a message with one start -----

  /** The usage a Messages stream ends with: the last one reported, the start's if there is none. */
  function LastUsage(usage: Option<Fields>, es: seq<M.In>): Option<Fields>
    decreases es
  {
    if es == [] then usage else LastUsage(Remembered(usage, es[0]), es[1..])
  }

  lemma {:induction false} BilledMiddle(usage: Option<Fields>, mid: seq<M.In>, rest: seq<M.In>)
    requires forall e | e in mid :: !e.Start? && !e.Stop?
    ensures Billed(true, usage, mid + rest) == Merge(ZERO, Billed(true, LastUsage(usage, mid), rest))
    decreases mid
  {
    hide Counted;
    if mid == [] {
      assert mid + rest == rest;
      BilledNonNegative(true, usage, rest);
    } else {
      assert mid[0] in mid && forall e | e in mid[1..] :: e in mid;
      assert (mid + rest)[1..] == mid[1..] + rest;
      BilledMiddle(Remembered(usage, mid[0]), mid[1..], rest);
    }
  }

  lemma BilledMessage(start: M.In, mid: seq<M.In>, rest: seq<M.In>)
    requires start.Start? && forall e | e in mid :: !e.Start? && !e.Stop?
    ensures Billed(false, None, [start] + mid + rest)
         == Merge(Counted(start.usage), Billed(true, LastUsage(start.usage, mid), rest))
  {
    assert ([start] + mid + rest)[1..] == mid + rest && ([start] + mid + rest)[0] == start;
    BilledMiddle(start.usage, mid, rest);
    CountedNonNegative(start.usage);
    hide Counted;
  }

  /** A message from its start to its stop is billed, once translated, for the larger of its first and
      its last usage; so nothing is lost exactly when no event in between reports more. */
  lemma ToResponsesKeepsUsage(frames: seq<Frame>, start: M.In, mid: seq<M.In>)
    requires start.Start? && forall e | e in mid :: !e.Start? && !e.Stop?
    requires M.ReadAll(frames) == Ok([start] + mid + [M.Stop])
    ensures There.Convert(frames).Ok?
    ensures var kept := Merge(Counted(start.usage), Counted(LastUsage(start.usage, mid)));
            && Extract(There.Convert(frames).value) == kept
            && (Extract(There.Convert(frames).value) == Extract(frames)
                <==> forall f | f in frames :: AtMost(FrameTokens(f), kept))
  {
    hide There.Convert, M.ReadAll, Counted, FrameTokens, Extract;
    ToResponsesBills(frames);
    ToResponsesKeepsIff(frames);
    BilledMessage(start, mid, [M.Stop]);
    BilledStop(LastUsage(start.usage, mid));
  }

  lemma BilledStop(usage: Option<Fields>)
    ensures Billed(true, usage, [M.Stop]) == Counted(usage)
  {
    assert [M.Stop][1..] == [];
    CountedNonNegative(usage);
    hide Counted;
  }

  /** A message that breaks off before its stop is billed for its start alone, whatever it reported later. */
  lemma TruncatedLosesTheEnd(frames: seq<Frame>, start: M.In, mid: seq<M.In>)
    requires start.Start? && forall e | e in mid :: !e.Start? && !e.Stop?
    requires M.ReadAll(frames) == Ok([start] + mid)
    ensures There.Convert(frames).Ok?
    ensures Extract(There.Convert(frames).value) == Counted(start.usage)
    ensures Extract(There.Convert(frames).value) == Extract(frames)
       <==> forall f | f in frames :: AtMost(FrameTokens(f), Counted(start.usage))
  {
    hide There.Convert, M.ReadAll, Counted, FrameTokens, Extract;
    ToResponsesBills(frames);
    ToResponsesKeepsIff(frames);
    assert [start] + mid + [] == [start] + mid;
    BilledMessage(start, mid, []);
    CountedNonNegative(start.usage);
    MergeLaws(Counted(start.usage), ZERO, ZERO);
  }

  /** The same on written frames: the account of a start and an end shrinks to that of the start. */
  lemma TruncatedWritten(start: M.Out, end: M.Out)
    requires start.MessageStart? && end.MessageDelta?
    ensures var frames := M.WriteAll([start, end]);
            && There.Convert(frames).Ok?
            && Extract(frames) == Merge(Counted(start.usage), Counted(end.usage))
            && Extract(There.Convert(frames).value) == Counted(start.usage)
  {
    hide Counted, There.Convert, M.WriteAll, M.EchoAll, M.ReadAll, Extract, TotalBack, FrameTokens, Merge, There.Run;
    var frames := M.WriteAll([start, end]);
    TotalOfTwo(start, end);
    ExtractWrittenBack([start, end]);
    M.ReadWriteAll([start, end]);
    EchoTwo(start, end);
    TruncatedLosesTheEnd(frames, M.Echo(start), [M.Echo(end)]);
  }

  lemma EchoTwo(a: M.Out, b: M.Out)
    ensures M.EchoAll([a, b]) == [M.Echo(a)] + [M.Echo(b)]
  {
    hide M.Echo;
    assert [a, b][1..] == [b] && [b][1..] == [];
    assert M.EchoAll([b]) == [M.Echo(b)];
  }

  lemma TotalOfTwo(start: M.Out, end: M.Out)
    requires start.MessageStart? && end.MessageDelta?
    ensures TotalBack([start, end]) == Merge(Counted(start.usage), Counted(end.usage))
  {
    CountedNonNegative(start.usage);
    hide Counted;
    assert [start, end] == [start] + [end] && [start] == [] + [start];
    TotalOneBack([start], end);
    TotalOneBack([], start);
  }

  /** One such stream: its final usage of seven tokens is lost. */
  lemma TruncatedExample()
    ensures var usage: Fields := map["output_tokens" := Int(7)];
            var frames := M.WriteAll([M.MessageStart("m", "x", "assistant", None),
                                      M.MessageDelta("end_turn", Null, Some(usage))]);
            There.Convert(frames).Ok? && Extract(frames).output == 7 && Extract(There.Convert(frames).value) == ZERO
  {
    var usage: Fields := map["output_tokens" := Int(7)];
    SevenTokens(usage);
    NothingCounted();
    hide Counted, There.Convert, M.WriteAll, Extract;
    TruncatedWritten(M.MessageStart("m", "x", "assistant", None), M.MessageDelta("end_turn", Null, Some(usage)));
  }

  lemma SevenTokens(usage: Fields)
    requires usage == map["output_tokens" := Int(7)]
    ensures Counted(Some(usage)).output == 7
  {
    assert "output_tokens" in usage;
    assert Get(usage, "output_tokens") == Int(7);
  }

  // ----- what a Responses stream is billed for after translation -----

  /** Events that start the message when none is started yet. */
  predicate Starts(e: R.In) {
    e.Created? || e.PartAdded? || e.TextDelta? || e.Completed?
  }

  /** The start usage the converter remembers after an event. */
  function RememberedBack(usage: Option<Fields>, e: R.In): Option<Fields> {
    if e.Created? || (e.Completed? && e.usage.Some?) then e.usage else usage
  }

  ghost function BilledOneBack(started: bool, usage: Option<Fields>, e: R.In): Tokens {
    Merge(if Starts(e) && !started then Counted(usage) else ZERO, if e.Completed? then Counted(e.usage) else ZERO)
  }

  /** The account of the translation, from the events alone: the usage known when the message starts, and the usage
      of every completion. */
  ghost function BilledBack(started: bool, usage: Option<Fields>, es: seq<R.In>): Tokens
    decreases es
  {
    if es == [] then ZERO
    else
      var next := RememberedBack(usage, es[0]);
      Merge(BilledOneBack(started, next, es[0]), BilledBack(started || Starts(es[0]), next, es[1..]))
  }

  lemma StartedAdds(s: Back.State)
    ensures var t := Back.EnsureStarted(s);
            && t.started && t.startUsage == s.startUsage
            && TotalBack(t.out) == Merge(TotalBack(s.out), if s.started then ZERO else Counted(s.startUsage))
  {
    hide FirstNonEmpty, Counted, TotalBack, Merge;
    TotalNonNegativeBack(s.out);
    MergeTwice(TotalBack(s.out), ZERO);
    if !s.started {
      TotalOneBack(s.out, M.MessageStart(s.id, s.model, FirstNonEmpty([s.role, "assistant"]), s.startUsage));
    }
  }

  lemma ReadyAdds(s: Back.State, index: int)
    ensures var t := Back.Ready(s, index);
            && t.started && t.startUsage == s.startUsage
            && TotalBack(t.out) == Merge(TotalBack(s.out), if s.started then ZERO else Counted(s.startUsage))
  {
    hide Back.EnsureStarted, Counted, TotalBack, Merge;
    StartedAdds(s);
    TotalQuietBack(Back.EnsureStarted(s).out, M.BlockStart(index));
  }

  lemma CloseAddsNothingBack(s: Back.State, index: int)
    ensures var t := Back.CloseBlock(s, index);
            t.started == s.started && t.startUsage == s.startUsage && TotalBack(t.out) == TotalBack(s.out)
  {
    hide TotalBack;
    TotalQuietBack(s.out, M.BlockEnd(index));
  }

  lemma {:induction false} CloseAllAddsNothingBack(s: Back.State, indexes: seq<int>)
    ensures var t := Back.CloseBlocks(s, indexes);
            t.started == s.started && t.startUsage == s.startUsage && TotalBack(t.out) == TotalBack(s.out)
    decreases indexes
  {
    hide Back.CloseBlock, TotalBack;
    if indexes != [] {
      CloseAddsNothingBack(s, indexes[0]);
      CloseAllAddsNothingBack(Back.CloseBlock(s, indexes[0]), indexes[1..]);
    }
  }

  lemma FinishAddsBack(s: Back.State, usage: Option<Fields>, stopReason: string, stopSequence: Json)
    ensures var t := Back.Finish(s, usage, stopReason, stopSequence);
            && t.started == s.started && t.startUsage == s.startUsage
            && TotalBack(t.out) == Merge(TotalBack(s.out), Counted(usage))
  {
    hide FirstNonEmpty, Counted, TotalBack, Merge;
    var d := M.MessageDelta(FirstNonEmpty([stopReason, "end_turn"]), stopSequence, usage);
    TotalOneBack(s.out, d);
    TotalQuietBack(s.out + [d], M.MessageStop);
    assert s.out + [d] + [M.MessageStop] == s.out + [d, M.MessageStop];
  }

  lemma CompletedAdds(s: Back.State, e: R.In)
    requires e.Completed?
    ensures var t := Back.Step(s, e);
            && t.started && t.startUsage == RememberedBack(s.startUsage, e)
            && TotalBack(t.out) == Merge(TotalBack(s.out), BilledOneBack(s.started, t.startUsage, e))
  {
    hide Back.EnsureStarted, Back.CloseBlocks, Back.Finish, FirstNonEmpty, Counted, TotalBack, Merge;
    var i := Back.TakeIdentity(s, e.id, e.model);
    StartedAdds(if e.usage.Some? then i.(startUsage := e.usage) else i);
    var t := Back.TakeCompleted(s, e.id, e.model, e.usage);
    CloseAllAddsNothingBack(t, Blocks.Sorted(t.blocks.Keys));
    FinishAddsBack(Back.CloseBlocks(t, Blocks.Sorted(t.blocks.Keys)), e.usage, e.stopReason, e.stopSequence);
    MergeLaws(TotalBack(s.out), if s.started then ZERO else Counted(t.startUsage), Counted(e.usage));
  }

  lemma StepAddsBack(s: Back.State, e: R.In)
    ensures var t := Back.Step(s, e);
            && t.started == (s.started || Starts(e)) && t.startUsage == RememberedBack(s.startUsage, e)
            && TotalBack(t.out) == Merge(TotalBack(s.out), BilledOneBack(s.started, t.startUsage, e))
  {
    hide Back.EnsureStarted, Back.Ready, Back.CloseBlock, FirstNonEmpty, Counted, TotalBack, Merge;
    CountedNonNegative(RememberedBack(s.startUsage, e));
    MergeLaws(Counted(RememberedBack(s.startUsage, e)), ZERO, ZERO);
    MergeTwice(ZERO, ZERO);
    TotalNonNegativeBack(s.out);
    MergeTwice(TotalBack(s.out), ZERO);
    match e
    case Ping => TotalQuietBack(s.out, M.Ping);
    case Created(id, model, usage) => StartedAdds(Back.TakeIdentity(s, id, model).(startUsage := usage));
    case PartAdded(index) => ReadyAdds(s, index);
    case TextDelta(index, text) =>
      ReadyAdds(s, index);
      TotalQuietBack(Back.Ready(s, index).out, M.BlockDelta(index, text));
    case PartDone(index, text) => CloseAddsNothingBack(Back.SetText(s, index, text), index);
    case Completed(_, _, _, _, _) => CompletedAdds(s, e);
    case Failure(message) => TotalQuietBack(s.out, M.Error(message));
    case _ =>
  }

  lemma {:induction false} RunAddsBack(s: Back.State, es: seq<R.In>)
    ensures TotalBack(Back.Run(s, es).out) == Merge(TotalBack(s.out), BilledBack(s.started, s.startUsage, es))
    decreases es
  {
    hide Back.Step, BilledOneBack, RememberedBack, Starts, Counted, TotalBack, Merge;
    TotalNonNegativeBack(s.out);
    MergeTwice(TotalBack(s.out), ZERO);
    if es != [] {
      var t := Back.Step(s, es[0]);
      StepAddsBack(s, es[0]);
      RunAddsBack(t, es[1..]);
      MergeLaws(TotalBack(s.out), BilledOneBack(s.started, t.startUsage, es[0]),
                BilledBack(t.started, t.startUsage, es[1..]));
    }
  }

  lemma {:induction false} BilledBoundedBack(started: bool, usage: Option<Fields>, es: seq<R.In>, bound: Tokens)
    requires AtMost(ZERO, bound) && AtMost(Counted(usage), bound)
    requires forall e | e in es :: AtMost(ResponseTokens(e), bound)
    ensures AtMost(BilledBack(started, usage, es), bound)
    decreases es
  {
    hide Counted;
    if es != [] {
      assert es[0] in es && forall e | e in es[1..] :: e in es;
      BilledBoundedBack(started || Starts(es[0]), RememberedBack(usage, es[0]), es[1..], bound);
    }
  }

  lemma {:induction false} BilledNonNegativeBack(started: bool, usage: Option<Fields>, es: seq<R.In>)
    ensures AtMost(ZERO, BilledBack(started, usage, es))
    decreases es
  {
    hide Counted;
    if es != [] {
      BilledNonNegativeBack(started || Starts(es[0]), RememberedBack(usage, es[0]), es[1..]);
    }
  }

  lemma {:induction false} ReadBoundedBack(frames: seq<Frame>, bound: Tokens)
    requires R.ReadAll(frames).Ok? && forall f | f in frames :: AtMost(FrameTokens(f), bound)
    ensures forall e | e in R.ReadAll(frames).value :: AtMost(ResponseTokens(e), bound)
  {
    hide FrameTokens, R.Read, ResponseTokens;
    if frames != [] {
      assert frames[0] in frames && forall f | f in frames[1..] :: f in frames;
      ReadResponseTokens(frames[0]);
      ReadBoundedBack(frames[1..], bound);
    }
  }

  /** The exact account of every translated Responses stream. */
  lemma ToMessagesBills(frames: seq<Frame>)
    requires R.ReadAll(frames).Ok?
    ensures Back.Convert(frames).Ok?
    ensures Extract(Back.Convert(frames).value) == BilledBack(false, None, R.ReadAll(frames).value)
  {
    hide Back.Step, Back.Run, BilledBack, Merge, Extract;
    var es := R.ReadAll(frames).value;
    RunAddsBack(Back.INIT, es);
    ExtractWrittenBack(Back.Run(Back.INIT, es).out);
    BilledNonNegativeBack(false, None, es);
    MergeLaws(BilledBack(false, None, es), ZERO, ZERO);
  }

  /** Whatever a Responses stream holds, its translation is never billed for more. */
  lemma ToMessagesNeverAdds(frames: seq<Frame>)
    requires Back.Convert(frames).Ok?
    ensures AtMost(Extract(Back.Convert(frames).value), Extract(frames))
  {
    var bound := Extract(frames);
    ToMessagesBills(frames);
    hide Counted, BilledBack, Back.Run, ResponseTokens;
    ExtractAtLeastZero(frames);
    ExtractIsLeastBound(frames, bound);
    ReadBoundedBack(frames, bound);
    NothingCounted();
    BilledBoundedBack(false, None, R.ReadAll(frames).value, bound);
  }

  /** The account is kept exactly when no frame reports more than what is billed. */
  lemma ToMessagesKeepsIff(frames: seq<Frame>)
    requires R.ReadAll(frames).Ok?
    ensures Back.Convert(frames).Ok?
    ensures var billed := BilledBack(false, None, R.ReadAll(frames).value);
            && (Extract(Back.Convert(frames).value) == Extract(frames)
                <==> forall f | f in frames :: AtMost(FrameTokens(f), billed))
  {
    hide BilledBack, Back.Run, FrameTokens, Extract, M.WriteAll;
    ToMessagesBills(frames);
    ToMessagesNeverAdds(frames);
    var billed := BilledBack(false, None, R.ReadAll(frames).value);
    ExtractAtLeastZero(M.WriteAll(Back.Run(Back.INIT, R.ReadAll(frames).value).out));
    ExtractIsLeastBound(frames, billed);
    if AtMost(Extract(frames), billed) {
      AtMostBothWays(billed, Extract(frames));
    }
  }

  lemma {:induction false} BilledMiddleBack(usage: Option<Fields>, mid: seq<R.In>, rest: seq<R.In>)
    requires forall e | e in mid :: !e.Created? && !e.Completed?
    ensures BilledBack(true, usage, mid + rest) == BilledBack(true, usage, rest)
    decreases mid
  {
    hide Counted;
    BilledNonNegativeBack(true, usage, rest);
    if mid == [] {
      assert mid + rest == rest;
    } else {
      assert mid[0] in mid && forall e | e in mid[1..] :: e in mid;
      assert (mid + rest)[1..] == mid[1..] + rest;
      BilledMiddleBack(usage, mid[1..], rest);
    }
  }

  /** A response from `response.created` to `response.completed` is billed, once translated, for the
      larger of the usages of these two events; so nothing is lost exactly when no event in between
      reports more. */
  lemma ToMessagesKeepsUsage(frames: seq<Frame>, created: R.In, mid: seq<R.In>, completed: R.In)
    requires created.Created? && completed.Completed? && forall e | e in mid :: !e.Created? && !e.Completed?
    requires R.ReadAll(frames) == Ok([created] + mid + [completed])
    ensures Back.Convert(frames).Ok?
    ensures var kept := Merge(Counted(created.usage), Counted(completed.usage));
            && Extract(Back.Convert(frames).value) == kept
            && (Extract(Back.Convert(frames).value) == Extract(frames)
                <==> forall f | f in frames :: AtMost(FrameTokens(f), kept))
  {
    hide Back.Convert, R.ReadAll, Counted, FrameTokens, Extract;
    ToMessagesBills(frames);
    ToMessagesKeepsIff(frames);
    BilledResponse(created, mid, [completed]);
    BilledCompleted(created.usage, completed);
  }

  lemma BilledResponse(created: R.In, mid: seq<R.In>, rest: seq<R.In>)
    requires created.Created? && forall e | e in mid :: !e.Created? && !e.Completed?
    ensures BilledBack(false, None, [created] + mid + rest)
         == Merge(Counted(created.usage), BilledBack(true, created.usage, rest))
  {
    assert ([created] + mid + rest)[1..] == mid + rest && ([created] + mid + rest)[0] == created;
    BilledMiddleBack(created.usage, mid, rest);
    CountedNonNegative(created.usage);
    hide Counted;
  }

  lemma BilledCompleted(usage: Option<Fields>, completed: R.In)
    requires completed.Completed?
    ensures BilledBack(true, usage, [completed]) == Counted(completed.usage)
  {
    assert [completed][1..] == [];
    CountedNonNegative(completed.usage);
    hide Counted;
  }
}
