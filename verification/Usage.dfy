/** Token accounting: what `extractNormalizedTokenUsage` reads from a response. */
module Usage {
  import opened Text
  import opened Json
  import opened Frames
  import Blocks

  datatype Tokens = Tokens(input: int, output: int, cache: int)

  const ZERO := Tokens(0, 0, 0)

  function Max(a: int, b: int): int {
    if b > a then b else a
  }

  /** `mergeNormalizedTokenUsage`. */
  function Merge(a: Tokens, b: Tokens): Tokens {
    Tokens(Max(a.input, b.input), Max(a.output, b.output), Max(a.cache, b.cache))
  }

  predicate AtMost(a: Tokens, b: Tokens) {
    a.input <= b.input && a.output <= b.output && a.cache <= b.cache
  }

  // ----- one usage object -----

  function Digits(s: string): Option<nat> {
    if s == "" then Some(0) else
      var last := s[|s| - 1];
      match Digits(s[..|s| - 1])
      case Some(n) => if '0' <= last <= '9' then Some(10 * n + (last as int - '0' as int)) else None
      case None => None
  }

  /** `strconv.ParseInt(s, 10, 64)`, with 0 for its errors. */
  function ParseInt(s: string): int {
    var signed := s != "" && (s[0] == '-' || s[0] == '+');
    var body := if signed then s[1..] else s;
    match Digits(body)
    case Some(n) =>
      var v: int := if signed && s[0] == '-' then 0 - n else n;
      if body != "" && -0x8000_0000_0000_0000 <= v <= 0x7FFF_FFFF_FFFF_FFFF then v else 0
    case None => 0
  }

  function Int64Value(v: Json): int {
    match v
    case Num(whole, _) => whole
    case Str(s) => ParseInt(TrimSpace(s))
    case _ => 0
  }

  /** The sum of all entries of a details object. */
  ghost function SumDetails(values: Fields): int
    decreases |values|
  {
    if values == map[] then 0 else
      var key :| key in values;
      Int64Value(values[key]) + SumDetails(values - {key})
  }

  /** The sum does not depend on the order in which the entries are visited. */
  lemma {:induction false} SumAnyKey(values: Fields, key: string)
    requires key in values
    ensures SumDetails(values) == Int64Value(values[key]) + SumDetails(values - {key})
    decreases |values|
  {
    var first :| first in values
              && SumDetails(values) == Int64Value(values[first]) + SumDetails(values - {first});
    if first != key {
      SumAnyKey(values - {first}, key);
      SumAnyKey(values - {key}, first);
      assert values - {first} - {key} == values - {key} - {first};
    }
  }

  method SumUsageDetailTokens(values: Fields) returns (total: int)
    ensures total == SumDetails(values)
  {
    total := 0;
    var left := values;
    while left != map[]
      invariant total + SumDetails(left) == SumDetails(values)
      decreases |left|
    {
      ghost var some := Blocks.Pick(left.Keys);
      assert some in left.Keys;
      var key :| key in left;
      SumAnyKey(left, key);
      total := total + Int64Value(left[key]);
      left := left - {key};
    }
  }

  predicate LooksLikeAnthropic(u: Fields) {
    || Int64Value(Get(u, "cache_creation_input_tokens")) > 0
    || Int64Value(Get(u, "cache_read_input_tokens")) > 0
    || AsObject(Get(u, "cache_creation")) != map[]
    || AsObject(Get(u, "cache_read")) != map[]
  }

  ghost function OrDetails(value: int, details: Fields): int {
    if value == 0 then SumDetails(details) else value
  }

  function OrElse(value: int, fallback: int): int {
    if value == 0 then fallback else value
  }

  ghost function AnthropicCache(u: Fields): int {
    OrDetails(Int64Value(Get(u, "cache_creation_input_tokens")), AsObject(Get(u, "cache_creation")))
    + OrDetails(Int64Value(Get(u, "cache_read_input_tokens")), AsObject(Get(u, "cache_read")))
  }

  function CachedTokens(u: Fields, key: string): int {
    Int64Value(Get(AsObject(Get(u, key)), "cached_tokens"))
  }

  /** `normalizeProviderUsage`. */
  ghost function Normalize(u: Fields): Tokens {
    var input := OrElse(Int64Value(Get(u, "input_tokens")), Int64Value(Get(u, "prompt_tokens")));
    var output := OrElse(Int64Value(Get(u, "output_tokens")), Int64Value(Get(u, "completion_tokens")));
    if LooksLikeAnthropic(u) then Tokens(input + AnthropicCache(u), output, AnthropicCache(u))
    else
      Tokens(input, output,
             OrElse(CachedTokens(u, "input_tokens_details"), CachedTokens(u, "prompt_tokens_details")))
  }

  // ----- what the counts mean -----

  /** Counts as the Responses API reports them. */
  function ReportOf(t: Tokens): Fields {
    map["input_tokens" := Int(t.input), "output_tokens" := Int(t.output),
        "input_tokens_details" := Obj(map["cached_tokens" := Int(t.cache)])]
  }

  /** Counts as the Chat Completions API reports them. */
  function ChatReportOf(t: Tokens): Fields {
    map["prompt_tokens" := Int(t.input), "completion_tokens" := Int(t.output),
        "prompt_tokens_details" := Obj(map["cached_tokens" := Int(t.cache)])]
  }

  /** Counts as the Messages API reports them: the cached input is not part of the input. */
  function MessagesReportOf(input: int, output: int, creation: int, read: int): Fields {
    map["input_tokens" := Int(input), "output_tokens" := Int(output),
        "cache_creation_input_tokens" := Int(creation), "cache_read_input_tokens" := Int(read)]
  }

  lemma NotAnthropic(t: Tokens)
    ensures !LooksLikeAnthropic(ReportOf(t)) && !LooksLikeAnthropic(ChatReportOf(t))
  {
  }

  /** The same counts come to the same whichever API reports them. */
  lemma ReportsAgree(t: Tokens)
    ensures Normalize(ReportOf(t)) == t && Normalize(ChatReportOf(t)) == t
  {
    NotAnthropic(t);
    hide LooksLikeAnthropic;
    var u, v := ReportOf(t), ChatReportOf(t);
    assert Get(u, "input_tokens") == Int(t.input) && Get(u, "output_tokens") == Int(t.output);
    assert Get(v, "input_tokens") == Null && Get(v, "output_tokens") == Null;
    assert AsObject(Get(u, "input_tokens_details")) == map["cached_tokens" := Int(t.cache)];
    assert AsObject(Get(v, "prompt_tokens_details")) == map["cached_tokens" := Int(t.cache)];
    assert AsObject(Get(v, "input_tokens_details")) == map[] && AsObject(Get(u, "prompt_tokens_details")) == map[];
  }

  lemma MessagesReportFields(input: int, output: int, creation: int, read: int)
    ensures var u := MessagesReportOf(input, output, creation, read);
            && Get(u, "input_tokens") == Int(input) && Get(u, "output_tokens") == Int(output)
            && Get(u, "cache_creation_input_tokens") == Int(creation) && Get(u, "cache_read_input_tokens") == Int(read)
            && Get(u, "cache_creation") == Null && Get(u, "cache_read") == Null
            && Get(u, "input_tokens_details") == Null && Get(u, "prompt_tokens_details") == Null
            && Get(u, "prompt_tokens") == Null && Get(u, "completion_tokens") == Null
  {
  }

  /** A Messages report is worth the report in which its cached tokens are part of the input. */
  lemma MessagesReportAgrees(input: int, output: int, creation: nat, read: nat)
    ensures Normalize(MessagesReportOf(input, output, creation, read))
         == Normalize(ReportOf(Tokens(input + creation + read, output, creation + read)))
  {
    ReportsAgree(Tokens(input + creation + read, output, creation + read));
    MessagesReportFields(input, output, creation, read);
    hide ReportOf, MessagesReportOf, Get;
    assert Get(map[], "cached_tokens") == Null by { NoField("cached_tokens"); }
    assert SumDetails(map[]) == 0;
  }

  lemma NoField(key: string)
    ensures Get(map[], key) == Null
  {
  }

  /** For Anthropic counts the input holds the cached tokens: they never exceed it unless the rest is negative. */
  lemma CacheIsPartOfInput(u: Fields)
    requires LooksLikeAnthropic(u)
    ensures var rest := OrElse(Int64Value(Get(u, "input_tokens")), Int64Value(Get(u, "prompt_tokens")));
            && Normalize(u).input - Normalize(u).cache == rest
            && (Normalize(u).cache <= Normalize(u).input <==> rest >= 0)
  {
  }

  /** An empty usage object is skipped; merging never goes below zero. */
  ghost function TokensOf(u: Fields): Tokens {
    if u == map[] then ZERO else Merge(ZERO, Normalize(u))
  }

  ghost function Counted(usage: Option<Fields>): Tokens {
    if usage.Some? then TokensOf(usage.value) else ZERO
  }

  // ----- payloads, frames and streams -----

  /** `normalizedTokenUsageFromPayload`. */
  ghost function PayloadTokens(p: Fields): Tokens {
    Merge(Merge(TokensOf(AsObject(Get(p, "usage"))),
                TokensOf(AsObject(Get(AsObject(Get(p, "response")), "usage")))),
          TokensOf(AsObject(Get(AsObject(Get(p, "message")), "usage"))))
  }

  ghost function FrameTokens(f: Frame): Tokens {
    if f.data.Doc? then PayloadTokens(f.data.fields) else ZERO
  }

  /** The usage logged for a stream: the pointwise maximum over its events. */
  ghost function Extract(frames: seq<Frame>): Tokens {
    if frames == [] then ZERO
    else Merge(Extract(frames[..|frames| - 1]), FrameTokens(frames[|frames| - 1]))
  }

  method AnthropicCacheTokens(u: Fields) returns (total: int)
    ensures total == AnthropicCache(u)
  {
    var creation := Int64Value(Get(u, "cache_creation_input_tokens"));
    if creation == 0 {
      creation := SumUsageDetailTokens(AsObject(Get(u, "cache_creation")));
    }
    var read := Int64Value(Get(u, "cache_read_input_tokens"));
    if read == 0 {
      read := SumUsageDetailTokens(AsObject(Get(u, "cache_read")));
    }
    total := creation + read;
  }

  method NormalizeProviderUsage(u: Fields) returns (t: Tokens)
    ensures t == Normalize(u)
  {
    var input := OrElse(Int64Value(Get(u, "input_tokens")), Int64Value(Get(u, "prompt_tokens")));
    var output := OrElse(Int64Value(Get(u, "output_tokens")), Int64Value(Get(u, "completion_tokens")));
    if LooksLikeAnthropic(u) {
      var cache := AnthropicCacheTokens(u);
      return Tokens(input + cache, output, cache);
    }
    t := Tokens(input, output,
                OrElse(CachedTokens(u, "input_tokens_details"), CachedTokens(u, "prompt_tokens_details")));
  }

  method UsageFromPayload(p: Fields) returns (usage: Tokens)
    ensures usage == PayloadTokens(p)
  {
    var candidates := [AsObject(Get(p, "usage")), AsObject(Get(AsObject(Get(p, "response")), "usage")),
                       AsObject(Get(AsObject(Get(p, "message")), "usage"))];
    var a := MergeCandidate(ZERO, candidates[0]);
    var b := MergeCandidate(a, candidates[1]);
    usage := MergeCandidate(b, candidates[2]);
  }

  method MergeCandidate(usage: Tokens, candidate: Fields) returns (r: Tokens)
    requires AtMost(ZERO, usage)
    ensures r == Merge(usage, TokensOf(candidate)) && AtMost(ZERO, r)
  {
    r := usage;
    if candidate != map[] {
      var t := NormalizeProviderUsage(candidate);
      r := Merge(usage, t);
    }
  }

  method ExtractUsage(frames: seq<Frame>) returns (usage: Tokens)
    ensures usage == Extract(frames)
  {
    usage := ZERO;
    for i := 0 to |frames|
      invariant usage == Extract(frames[..i])
    {
      assert frames[..i + 1][..i] == frames[..i];
      ExtractAtLeastZero(frames[..i]);
      if frames[i].data.Doc? {
        var t := UsageFromPayload(frames[i].data.fields);
        usage := Merge(usage, t);
      }
    }
    assert frames[..|frames|] == frames;
  }

  // ----- the maximum as a bound -----

  lemma {:induction false} ExtractAtLeastZero(frames: seq<Frame>)
    ensures AtMost(ZERO, Extract(frames))
  {
    if frames != [] {
      ExtractAtLeastZero(frames[..|frames| - 1]);
    }
  }

  /** The extracted usage is the least bound of all frames. */
  lemma {:induction false} ExtractIsLeastBound(frames: seq<Frame>, bound: Tokens)
    requires AtMost(ZERO, bound)
    ensures AtMost(Extract(frames), bound) <==> forall f | f in frames :: AtMost(FrameTokens(f), bound)
  {
    hide FrameTokens;
    if frames != [] {
      var front, last := frames[..|frames| - 1], frames[|frames| - 1];
      ExtractIsLeastBound(front, bound);
      assert forall f :: f in frames <==> f in front || f == last;
    }
  }

  lemma AtMostBothWays(a: Tokens, b: Tokens)
    requires AtMost(a, b) && AtMost(b, a)
    ensures a == b
  {
  }
}
