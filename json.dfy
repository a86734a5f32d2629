/**
 * JSON values as both the Python `json` module and `serde_json::Value` present
 * them, with the accessors the converters and decoders use. Numbers are integers
 * only; the text form of JSON is not modelled (serialisation and parsing are
 * parameters wherever they occur).
 */
module Json {
  import opened Wrappers

  datatype Value =
    | Null
    | Bool(b: bool)
    | Num(n: int)
    | Str(s: string)
    | Arr(items: seq<Value>)
    | Obj(fields: map<string, Value>)

  const U64_LIMIT: int := 0x1_0000_0000_0000_0000
  const U32_LIMIT: int := 0x1_0000_0000

  /** Rust's `u64` and `i32`. */
  type u64 = x: int | 0 <= x < U64_LIMIT
  type i32 = x: int | -0x8000_0000 <= x < 0x8000_0000

  // The two ways a derived serde `Deserialize` reads a struct field.

  /** A field of a type without a default: it must be present and decode. */
  function RequiredField<T>(fields: map<string, Value>, key: string, decode: Value -> Option<T>): (r: Option<T>)
    ensures r.Some? ==> key in fields && decode(fields[key]) == r
  {
    if key in fields then decode(fields[key]) else None
  }

  /** An `Option<T>` field: absent and `null` both read as `None`; anything else must decode. */
  function OptionalField<T>(fields: map<string, Value>, key: string, decode: Value -> Option<T>): (r: Option<Option<T>>)
    ensures key !in fields || fields[key] == Null ==> r == Some(None)
    ensures key in fields && fields[key] != Null ==>
      (r.None? <==> decode(fields[key]).None?) && (r.Some? ==> r.value == decode(fields[key]))
  {
    if key !in fields || fields[key] == Null then Some(None)
    else match decode(fields[key])
      case None => None
      case Some(x) => Some(Some(x))
  }

  function DecodeString(v: Value): Option<string> {
    if v.Str? then Some(v.s) else None
  }

  function DecodeU64(v: Value): Option<u64> {
    if v.Num? && 0 <= v.n < U64_LIMIT then Some(v.n as u64) else None
  }

  function DecodeI32(v: Value): Option<i32> {
    if v.Num? && -0x8000_0000 <= v.n < 0x8000_0000 then Some(v.n as i32) else None
  }

  /** `serde_json::Value` itself accepts every JSON value. */
  function DecodeAny(v: Value): Option<Value> {
    Some(v)
  }

  /** `value.get(key)`: the member of an object; absent for a missing key and for every non-object. */
  function Get(v: Value, key: string): (r: Option<Value>)
    ensures r.Some? <==> v.Obj? && key in v.fields
    ensures r.Some? ==> r.value == v.fields[key]
  {
    if v.Obj? && key in v.fields then Some(v.fields[key]) else None
  }

  /** `as_str()`. */
  function AsStr(v: Option<Value>): (r: Option<string>)
    ensures r.Some? <==> v.Some? && v.value.Str?
    ensures r.Some? ==> v.value == Str(r.value)
  {
    match v
    case Some(Str(s)) => Some(s)
    case _ => None
  }

  /** `as_u64()`: a non-negative integer that fits in 64 bits. */
  function AsU64(v: Option<Value>): (r: Option<nat>)
    ensures r.Some? <==> v.Some? && v.value.Num? && 0 <= v.value.n < U64_LIMIT
    ensures r.Some? ==> v.value == Num(r.value) && r.value < U64_LIMIT
  {
    match v
    case Some(Num(n)) => if 0 <= n < U64_LIMIT then Some(n) else None
    case _ => None
  }

  /** `as_array()`. */
  function AsArray(v: Option<Value>): (r: Option<seq<Value>>)
    ensures r.Some? <==> v.Some? && v.value.Arr?
    ensures r.Some? ==> v.value == Arr(r.value)
  {
    match v
    case Some(Arr(a)) => Some(a)
    case _ => None
  }

  /** Rust's `x as u32` on a `u64`: keeps the low 32 bits. */
  function TruncU32(x: nat): (r: nat)
    ensures r < U32_LIMIT
    ensures x < U32_LIMIT ==> r == x
  {
    x % U32_LIMIT
  }

  /** `saturating_sub(1)`: a 1-based line number made 0-based, with 0 kept at 0. */
  function SaturatingPred(x: nat): (r: nat)
    ensures x > 0 ==> r + 1 == x
    ensures x == 0 ==> r == 0
  {
    if x == 0 then 0 else x - 1
  }
}
