/** Parsed JSON values and the field checks the rollout readers make on them. */
module Json {
  import opened Options

  datatype Json =
    | Null
    | Bool(bool)
    | Number(number: real)
    | String(text: string)
    | Array(items: seq<Json>)
    | Record(fields: map<string, Json>)

  /** A parser of JSON texts: the value, or nothing when the text is malformed. */
  type Parser = string -> Option<Json>

  function Field(value: Json, name: string): Option<Json> {
    if value.Record? && name in value.fields then Some(value.fields[name]) else None
  }

  predicate HasText(value: Json, name: string, text: string) {
    Field(value, name) == Some(String(text))
  }

  const MAX_SAFE_INTEGER: int := 9007199254740991

  /** A safe integer that is not negative (src/codex-transcript.ts, lines 137-139). */
  function Ordinal(value: Option<Json>): (ordinal: Option<nat>)
    ensures ordinal.Some? ==> ordinal.value <= MAX_SAFE_INTEGER && value == Some(Number(ordinal.value as real))
    ensures forall n: nat | n <= MAX_SAFE_INTEGER && value == Some(Number(n as real)) :: ordinal == Some(n)
  {
    match value
    case Some(Number(n)) =>
      if n.Floor as real == n && 0 <= n.Floor <= MAX_SAFE_INTEGER then Some(n.Floor) else None
    case _ => None
  }
}
