/** The account of a stream read off its usage objects: where they are found, what each of them says, and that a report
    sent is the report logged. */
module UsageReports {
  import opened Text
  import opened Json
  import opened Frames
  import opened Usage
  import opened EventReading

  // ----- counts -----

  function Decimal(n: nat): (s: string)
    ensures s != "" && forall i | 0 <= i < |s| :: '0' <= s[i] <= '9'
  {
    var digit := [('0' as int + n % 10) as char];
    if n < 10 then digit else Decimal(n / 10) + digit
  }

  lemma {:induction false} DigitsOfDecimal(n: nat)
    ensures Digits(Decimal(n)) == Some(n)
  {
    var s := Decimal(n);
    var front := if n < 10 then "" else Decimal(n / 10);
    assert s[..|s| - 1] == front;
    if n >= 10 {
      DigitsOfDecimal(n / 10);
    } else {
      assert Digits("") == Some(0);
    }
  }

  lemma {:induction false} DigitsOnly(s: string)
    requires Digits(s).Some?
    ensures forall i | 0 <= i < |s| :: '0' <= s[i] <= '9'
  {
    if s != "" {
      DigitsOnly(s[..|s| - 1]);
    }
  }

  predicate Fits(v: int) {
    -0x8000_0000_0000_0000 <= v <= 0x7FFF_FFFF_FFFF_FFFF
  }

  lemma NoSpace(c: char)
    requires '0' <= c <= '9' || c == '+' || c == '-'
    ensures !IsSpace(c)
  {
  }

  lemma ReadsNumber(s: string)
    requires s != "" && ('0' <= s[0] <= '9' || s[0] == '+' || s[0] == '-') && '0' <= s[|s| - 1] <= '9'
    ensures Int64Value(Str(s)) == ParseInt(s)
  {
    NoSpace(s[0]);
    NoSpace(s[|s| - 1]);
    hide IsSpace, ParseInt;
    NotTrimmed(s);
  }

  /** Every 64-bit number is read from its decimal text, with or without a sign. */
  lemma DecimalIsRead(n: nat)
    ensures Int64Value(Str(Decimal(n))) == if Fits(n) then n else 0
    ensures Int64Value(Str(['+'] + Decimal(n))) == if Fits(n) then n else 0
    ensures Int64Value(Str(['-'] + Decimal(n))) == if Fits(0 - n) then 0 - n else 0
  {
    DigitsOfDecimal(n);
    var s := Decimal(n);
    ParsesPlain(s, n);
    ParsesSigned('+', s, n);
    ParsesSigned('-', s, n);
    hide Digits, Decimal, ParseInt, Int64Value;
    ReadsNumber(s);
    ReadsNumber(['+'] + s);
    ReadsNumber(['-'] + s);
  }

  lemma ParsesPlain(s: string, n: nat)
    requires s != "" && '0' <= s[0] <= '9' && Digits(s) == Some(n)
    ensures ParseInt(s) == if Fits(n) then n else 0
  {
    hide Digits;
  }

  lemma ParsesSigned(sign: char, s: string, n: nat)
    requires s != "" && Digits(s) == Some(n) && (sign == '+' || sign == '-')
    ensures ParseInt([sign] + s) == (var v: int := if sign == '-' then 0 - n else n; if Fits(v) then v else 0)
  {
    hide Digits;
    assert ([sign] + s)[1..] == s;
  }

  lemma NotTrimmed(s: string)
    requires s != "" && !IsSpace(s[0]) && !IsSpace(s[|s| - 1])
    ensures TrimSpace(s) == s
  {
  }

  /** White space around a count does not matter. */
  lemma PaddingIgnored(text: string)
    ensures Int64Value(Str(text)) == Int64Value(Str(TrimSpace(text)))
  {
    TrimSpaceIdempotent(text);
    hide TrimSpace, ParseInt;
  }

  /** A text that is not a number counts nothing. */
  lemma JunkCountsNothing(text: string)
    ensures ParseInt(text) != 0 ==>
              var body := if text[0] == '-' || text[0] == '+' then text[1..] else text;
              body != "" && (forall i | 0 <= i < |body| :: '0' <= body[i] <= '9') && Fits(ParseInt(text))
    ensures Int64Value(Null) == 0 && Int64Value(Bool(true)) == 0 && Int64Value(Arr([])) == 0
            && Int64Value(Obj(map[])) == 0
  {
    if ParseInt(text) != 0 {
      var body := if text[0] == '-' || text[0] == '+' then text[1..] else text;
      DigitsOnly(body);
    }
  }

  /** A count in a usage object: a number, the text of a number, or zero. */
  function Count(u: Fields, key: string): int {
    if key in u then Int64Value(u[key]) else 0
  }

  predicate FirstCount(u: Fields, key: string, v: Fields, other: string, count: int) {
    if Count(u, key) != 0 then count == Count(u, key) else count == Count(v, other)
  }

  /** Cached tokens by their total, or by the sum of their details when the total is zero. */
  ghost predicate CachedBy(u: Fields, total: string, details: string, count: int) {
    if Count(u, total) != 0 then count == Count(u, total) else count == SumDetails(Inner(u, details))
  }

  /** Some field that only Anthropic reports is set. */
  predicate CountsCacheApart(u: Fields) {
    || Count(u, "cache_creation_input_tokens") > 0 || Count(u, "cache_read_input_tokens") > 0
    || Inner(u, "cache_creation") != map[] || Inner(u, "cache_read") != map[]
  }

  /** What a usage object says. The input always includes the cached tokens. */
  ghost predicate Says(u: Fields, t: Tokens) {
    && FirstCount(u, "output_tokens", u, "completion_tokens", t.output)
    && if CountsCacheApart(u) then
         && FirstCount(u, "input_tokens", u, "prompt_tokens", t.input - t.cache)
         && exists creation, read ::
              && CachedBy(u, "cache_creation_input_tokens", "cache_creation", creation)
              && CachedBy(u, "cache_read_input_tokens", "cache_read", read)
              && t.cache == creation + read
       else
         && FirstCount(u, "input_tokens", u, "prompt_tokens", t.input)
         && FirstCount(Inner(u, "input_tokens_details"), "cached_tokens",
                       Inner(u, "prompt_tokens_details"), "cached_tokens", t.cache)
  }

  lemma Counts(u: Fields, key: string)
    ensures Count(u, key) == Int64Value(Get(u, key))
  {
  }

  lemma CountsApart(u: Fields)
    ensures CountsCacheApart(u) <==> LooksLikeAnthropic(u)
  {
    Counts(u, "cache_creation_input_tokens");
    Counts(u, "cache_read_input_tokens");
    Lookups(u, "cache_creation");
    Lookups(u, "cache_read");
    hide Count, Int64Value, Get, AsObject, Inner;
  }

  lemma NormalizeSays(u: Fields)
    ensures Says(u, Normalize(u))
  {
    CountsApart(u);
    hide CountsCacheApart, LooksLikeAnthropic, Int64Value, Get, SumDetails;
    Counts(u, "input_tokens");
    Counts(u, "prompt_tokens");
    Counts(u, "output_tokens");
    Counts(u, "completion_tokens");
    var t := Normalize(u);
    if CountsCacheApart(u) {
      Counts(u, "cache_creation_input_tokens");
      Counts(u, "cache_read_input_tokens");
      Lookups(u, "cache_creation");
      Lookups(u, "cache_read");
      hide Count, Inner, AsObject;
      var creation := OrDetails(Int64Value(Get(u, "cache_creation_input_tokens")), AsObject(Get(u, "cache_creation")));
      var read := OrDetails(Int64Value(Get(u, "cache_read_input_tokens")), AsObject(Get(u, "cache_read")));
      assert CachedBy(u, "cache_creation_input_tokens", "cache_creation", creation);
      assert CachedBy(u, "cache_read_input_tokens", "cache_read", read);
    } else {
      Lookups(u, "input_tokens_details");
      Lookups(u, "prompt_tokens_details");
      Counts(Inner(u, "input_tokens_details"), "cached_tokens");
      Counts(Inner(u, "prompt_tokens_details"), "cached_tokens");
      hide Count, Inner, AsObject;
    }
  }

  /** A usage object says one thing only. */
  lemma SaysOnce(u: Fields, a: Tokens, b: Tokens)
    requires Says(u, a) && Says(u, b)
    ensures a == b
  {
    hide Count, CountsCacheApart, SumDetails, Inner;
  }

  /** What a usage object is worth is exactly what it says. */
  lemma NormalizeIff(u: Fields, t: Tokens)
    ensures t == Normalize(u) <==> Says(u, t)
  {
    hide Normalize, Says;
    NormalizeSays(u);
    if Says(u, t) {
      SaysOnce(u, t, Normalize(u));
    }
  }

  /** The details of nothing sum to zero, and those of one entry to that entry. */
  lemma SmallSums(key: string, value: Json)
    ensures SumDetails(map[]) == 0 && SumDetails(map[key := value]) == Int64Value(value)
  {
    SumAnyKey(map[key := value], key);
    assert map[key := value] - {key} == map[];
  }

  // ----- where usage is found -----

  /** A frame holds a usage object: under `usage`, `response.usage` or `message.usage`, and not empty. */
  predicate Holds(f: Frame, u: Fields) {
    && f.data.Doc? && u != map[]
    && var p := f.data.fields;
    || u == Inner(p, "usage")
    || u == Inner(Inner(p, "response"), "usage")
    || u == Inner(Inner(p, "message"), "usage")
  }

  lemma FrameBound(f: Frame, bound: Tokens)
    requires AtMost(ZERO, bound)
    ensures AtMost(FrameTokens(f), bound) <==> forall u | Holds(f, u) :: AtMost(Normalize(u), bound)
  {
    if f.data.Doc? {
      var p := f.data.fields;
      Lookups(p, "usage");
      Lookups(p, "response");
      Lookups(p, "message");
      Lookups(Inner(p, "response"), "usage");
      Lookups(Inner(p, "message"), "usage");
      hide Inner, Get, AsObject, Normalize;
      var a, b, c := Inner(p, "usage"), Inner(Inner(p, "response"), "usage"), Inner(Inner(p, "message"), "usage");
      TokensBound(a, bound);
      TokensBound(b, bound);
      TokensBound(c, bound);
      MergeBound(TokensOf(a), TokensOf(b), TokensOf(c), bound);
      hide Merge, TokensOf;
      assert forall u | Holds(f, u) :: u == a || u == b || u == c;
      assert (a != map[] ==> Holds(f, a)) && (b != map[] ==> Holds(f, b)) && (c != map[] ==> Holds(f, c));
    }
  }

  lemma TokensBound(u: Fields, bound: Tokens)
    requires AtMost(ZERO, bound)
    ensures AtMost(TokensOf(u), bound) <==> u == map[] || AtMost(Normalize(u), bound)
  {
    hide Normalize;
  }

  lemma MergeBound(a: Tokens, b: Tokens, c: Tokens, bound: Tokens)
    ensures AtMost(Merge(Merge(a, b), c), bound) <==> AtMost(a, bound) && AtMost(b, bound) && AtMost(c, bound)
  {
  }

  /** The usage logged for a stream is the least bound of what its usage objects say, and not below zero. */
  lemma ExtractBounds(frames: seq<Frame>, bound: Tokens)
    ensures AtMost(ZERO, Extract(frames))
    ensures AtMost(ZERO, bound) ==>
              (AtMost(Extract(frames), bound) <==>
               forall f, u | f in frames && Holds(f, u) :: AtMost(Normalize(u), bound))
  {
    ExtractAtLeastZero(frames);
    if AtMost(ZERO, bound) {
      hide FrameTokens, Extract, Holds, Normalize;
      ExtractIsLeastBound(frames, bound);
      forall f | f in frames
        ensures AtMost(FrameTokens(f), bound) <==> forall u | Holds(f, u) :: AtMost(Normalize(u), bound)
      {
        FrameBound(f, bound);
      }
    }
  }

  /** A stream whose only usage object says `t` is logged with `t`. */
  lemma SingleUsage(frames: seq<Frame>, f: Frame, u: Fields)
    requires f in frames && Holds(f, u) && AtMost(ZERO, Normalize(u))
    requires forall g, v | g in frames && Holds(g, v) :: v == u
    ensures Extract(frames) == Normalize(u)
  {
    hide Extract, Holds, Normalize;
    var t := Normalize(u);
    ExtractBounds(frames, t);
    ExtractBounds(frames, Extract(frames));
  }

  /** The three frames that hold one usage object. */
  function Carriers(u: Fields): (carriers: seq<Fields>)
    ensures |carriers| == 3
  {
    var holder := map["usage" := Obj(u)];
    [holder, map["response" := Obj(holder)], map["message" := Obj(holder)]]
  }

  lemma CarrierHolds(name: string, u: Fields, k: nat)
    requires k < 3 && u != map[]
    ensures Holds(Frame(name, Doc(Carriers(u)[k])), u)
    ensures forall v | Holds(Frame(name, Doc(Carriers(u)[k])), v) :: v == u
  {
    assert "usage" != "response" && "usage" != "message" && "message" != "response";
    assert Inner(map["usage" := Obj(u)], "usage") == u;
    var p := Carriers(u)[k];
    if k == 0 {
      assert Inner(p, "response") == map[] && Inner(p, "message") == map[];
    } else if k == 1 {
      assert Inner(p, "usage") == map[] && Inner(p, "message") == map[];
    } else {
      assert Inner(p, "usage") == map[] && Inner(p, "response") == map[];
    }
    assert Inner(map[], "usage") == map[];
  }

  lemma CarriedUsage(name: string, u: Fields, k: nat)
    requires k < 3 && u != map[] && AtMost(ZERO, Normalize(u))
    ensures Extract([Frame(name, Doc(Carriers(u)[k]))]) == Normalize(u)
  {
    hide Extract, Holds, Normalize, Carriers;
    CarrierHolds(name, u, k);
    var f := Frame(name, Doc(Carriers(u)[k]));
    SingleUsage([f], f, u);
  }

  /** A report sent is the report logged, wherever it is and whichever API's names it uses. */
  lemma ReportIsLogged(name: string, t: Tokens, k: nat)
    requires k < 3 && AtMost(ZERO, t)
    ensures Extract([Frame(name, Doc(Carriers(ReportOf(t))[k]))]) == t
    ensures Extract([Frame(name, Doc(Carriers(ChatReportOf(t))[k]))]) == t
  {
    ReportsAgree(t);
    assert "input_tokens" in ReportOf(t) && "prompt_tokens" in ChatReportOf(t);
    hide Extract, Normalize, Carriers, ReportOf, ChatReportOf;
    CarriedUsage(name, ReportOf(t), k);
    CarriedUsage(name, ChatReportOf(t), k);
  }

  /** A Messages report is logged with its cached tokens counted into the input. */
  lemma MessagesReportIsLogged(name: string, input: nat, output: nat, creation: nat, read: nat, k: nat)
    requires k < 3
    ensures Extract([Frame(name, Doc(Carriers(MessagesReportOf(input, output, creation, read))[k]))])
         == Tokens(input + creation + read, output, creation + read)
  {
    var t := Tokens(input + creation + read, output, creation + read);
    MessagesReportAgrees(input, output, creation, read);
    ReportsAgree(t);
    assert "input_tokens" in MessagesReportOf(input, output, creation, read);
    hide Extract, Normalize, Carriers, ReportOf, ChatReportOf, MessagesReportOf;
    CarriedUsage(name, MessagesReportOf(input, output, creation, read), k);
  }
}
