/** JSON values as the gateway sees them after `encoding/json` has decoded them into `any`. */
module Json {
  import opened Text

  /** A number keeps the integer it truncates to (`whole`) apart from the digits after the point
      (`frac`): the gateway never looks at more than the former. */
  datatype Json =
    | Null
    | Bool(b: bool)
    | Num(whole: int, frac: nat)
    | Str(s: string)
    | Arr(items: seq<Json>)
    | Obj(fields: Fields)

  type Fields = map<string, Json>

  /** Reading a key of a Go map: a missing key reads as nil, like an explicit null. */
  function Get(o: Fields, key: string): Json {
    if key in o then o[key] else Null
  }

  function AsString(v: Json): string {
    if v.Str? then v.s else ""
  }

  function AsObject(v: Json): Fields {
    if v.Obj? then v.fields else map[]
  }

  function IntValue(v: Json): int {
    if v.Num? then v.whole else 0
  }

  function Int(n: int): Json {
    Num(n, 0)
  }

  /** A usage value is kept only when it is an object. */
  function UsageOf(v: Json): Option<Fields> {
    if v.Obj? then Some(v.fields) else None
  }

  /** Adds `usage` to an object when there is one. */
  function WithUsage(o: Fields, usage: Option<Fields>): Fields {
    if usage.Some? then o["usage" := Obj(usage.value)] else o
  }

  /** Adds a string under `key` unless it is empty. */
  function WithText(o: Fields, key: string, value: string): Fields {
    if value != "" then o[key := Str(value)] else o
  }

  /** The JSON text format: `enc` is `json.Marshal`, `dec` is `json.Unmarshal`. */
  datatype Codec = Codec(enc: Json -> string, dec: string -> Option<Json>)

  /** What the gateway relies on from `encoding/json`: decoding undoes encoding, an encoded value stays
      on one line, is not blank and is not surrounded by white space, and an empty object is `{}`. */
  ghost predicate Lawful(c: Codec) {
    && c.enc(Obj(map[])) == "{}"
    && forall v: Json ::
      && c.dec(c.enc(v)) == Some(v)
      && c.enc(v) != ""
      && TrimSpace(c.enc(v)) == c.enc(v)
      && '\n' !in c.enc(v)
      && '\r' !in c.enc(v)
      && (v.Obj? ==> c.enc(v) != "[DONE]")
  }
}
