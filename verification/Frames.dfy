/** Stream events with their JSON data decoded: `decodeSSEJSON` and `appendSSEJSON`. */
module Frames {
  import opened Text
  import opened Json
  import Sse

  /** The data of an event: blank or the end marker, not a JSON object, or an object. */
  datatype Data = Nothing | Malformed | Doc(fields: Fields)

  datatype Frame = Frame(name: string, data: Data)

  function ReadData(c: Codec, data: string): Data {
    var text := TrimSpace(data);
    if text == "" || text == "[DONE]" then Nothing else
      match c.dec(text)
      case Some(Obj(fields)) => Doc(fields)
      case Some(Null) => Doc(map[])
      case _ => Malformed
  }

  function ReadFrame(c: Codec, e: Sse.Event): Frame {
    Frame(e.name, ReadData(c, e.data))
  }

  function ReadFrames(c: Codec, events: seq<Sse.Event>): seq<Frame> {
    if events == [] then [] else [ReadFrame(c, events[0])] + ReadFrames(c, events[1..])
  }

  /** Every event the converters emit carries a JSON object. */
  function WriteFrame(c: Codec, f: Frame): Sse.Event
    requires f.data.Doc?
  {
    Sse.Event(f.name, c.enc(Obj(f.data.fields)))
  }

  function WriteFrames(c: Codec, frames: seq<Frame>): seq<Sse.Event>
    requires forall f | f in frames :: f.data.Doc?
  {
    if frames == [] then [] else [WriteFrame(c, frames[0])] + WriteFrames(c, frames[1..])
  }

  /** `strings.EqualFold(name, "ping")`. */
  predicate IsPing(name: string) {
    && |name| == 4
    && name[0] in "pP" && name[1] in "iI" && name[2] in "nN" && name[3] in "gG"
  }

  /** The kind of an event is its `type` field first and the event name second. */
  function Kind(f: Frame): string
    requires f.data.Doc?
  {
    FirstNonEmpty([AsString(Get(f.data.fields, "type")), f.name])
  }

  /** A name that survives printing. */
  predicate PlainName(name: string) {
    !Blank(name) && '\n' !in name && !Sse.EndsInCR(name)
  }

  lemma ReadWriteFrame(c: Codec, f: Frame)
    requires Lawful(c) && f.data.Doc?
    ensures ReadFrame(c, WriteFrame(c, f)) == f
  {
    var v := Obj(f.data.fields);
    assert c.dec(c.enc(v)) == Some(v) && TrimSpace(c.enc(v)) == c.enc(v) && c.enc(v) != "" && c.enc(v) != "[DONE]";
  }

  /** A frame whose `type` field repeats its name, as every written frame has it. */
  function Named(name: string, fields: Fields): Frame {
    Frame(name, Doc(fields["type" := Str(name)]))
  }

  lemma NamedFrame(name: string, fields: Fields)
    requires name != "" && !IsSpace(name[0]) && '\n' !in name && !Sse.EndsInCR(name)
    ensures PlainName(name) && Kind(Named(name, fields)) == name
  {
    NotBlank(name);
  }

  lemma {:induction false} ReadWriteFrames(c: Codec, frames: seq<Frame>)
    requires Lawful(c)
    requires forall f | f in frames :: f.data.Doc?
    ensures ReadFrames(c, WriteFrames(c, frames)) == frames
  {
    if frames != [] {
      assert frames[0] in frames && forall f | f in frames[1..] :: f in frames;
      ReadWriteFrame(c, frames[0]);
      ReadWriteFrames(c, frames[1..]);
    }
  }

  lemma {:induction false} WrittenFramesPrintable(c: Codec, frames: seq<Frame>)
    requires Lawful(c)
    requires forall f | f in frames :: f.data.Doc? && PlainName(f.name)
    ensures forall e | e in WriteFrames(c, frames) :: Sse.Printable(e)
  {
    if frames != [] {
      var f := frames[0];
      assert f in frames && forall f | f in frames[1..] :: f in frames;
      WrittenFramesPrintable(c, frames[1..]);
      var text := c.enc(Obj(f.data.fields));
      assert Sse.Split(text) == [text];
    }
  }

  /** Frames written as event-stream text are read back as they were. */
  lemma TextRoundTrip(c: Codec, frames: seq<Frame>)
    requires Lawful(c)
    requires forall f | f in frames :: f.data.Doc? && PlainName(f.name)
    ensures ReadFrames(c, Sse.Parse(Sse.Print(WriteFrames(c, frames)))) == frames
  {
    WrittenFramesPrintable(c, frames);
    Sse.PrintParseRoundTrip(WriteFrames(c, frames));
    ReadWriteFrames(c, frames);
  }
}
