/** The JSON value that `serde_json` deserialises into (`serde_json::Value`),
    with its number kept in the three internal forms `serde_json` uses. */
module Json {

  /** An unsigned 64-bit integer. */
  newtype U64 = x: int | 0 <= x <= 0xFFFF_FFFF_FFFF_FFFF

  /** A negative integer that fits in an `i64`. */
  type NegI64 = x: int | -0x8000_0000_0000_0000 <= x < 0 witness -1

  /** `serde_json::Number`: an integer literal in the range of `u64` is held
      as `PosInt`, a negative one in the range of `i64` as `NegInt`, and
      anything else (a fraction, an exponent, `-0`, an integer out of those
      ranges) as `Float`, whose value the model does not need, so it keeps
      the literal. */
  datatype Number = PosInt(u: U64) | NegInt(i: NegI64) | Float(literal: string)

  datatype Value =
    | Null
    | Bool(b: bool)
    | Number(n: Number)
    | String(s: string)
    | Array(items: seq<Value>)
    | Object(entries: seq<(string, Value)>)
}
