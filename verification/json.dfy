/** The JSON value tree the editing core sends, and the three accessors the
    decoder uses on it (`as_array`, `as_str`, `as_u64`). */
module Json {
  import opened Wrappers

  /** Largest value plus one of an unsigned 64-bit integer. */
  const U64Limit: int := 0x1_0000_0000_0000_0000

  /** A JSON number as the parser keeps it: an integer, or anything else. */
  datatype Number = Int(i: int) | Float(f: real)

  datatype Value =
    | Null
    | Bool(b: bool)
    | Num(n: Number)
    | Str(s: string)
    | Array(items: seq<Value>)
    | Object(members: seq<(string, Value)>)

  /** `as_array`: the elements when the value is an array. */
  function AsArray(v: Value): (r: Option<seq<Value>>)
    ensures r.Some? <==> v.Array?
    ensures r.Some? ==> r.value == v.items
  {
    if v.Array? then Some(v.items) else None
  }

  /** `as_str`: the text when the value is a string. */
  function AsStr(v: Value): (r: Option<string>)
    ensures r.Some? <==> v.Str?
    ensures r.Some? ==> r.value == v.s
  {
    if v.Str? then Some(v.s) else None
  }

  /** `as_u64`: the number when it is an integer that fits in 64 unsigned
      bits; negative integers and floats give nothing. */
  function AsU64(v: Value): (r: Option<nat>)
    ensures r.Some? <==> v.Num? && v.n.Int? && 0 <= v.n.i < U64Limit
    ensures r.Some? ==> r.value == v.n.i && r.value < U64Limit
  {
    if v.Num? && v.n.Int? && 0 <= v.n.i < U64Limit then Some(v.n.i) else None
  }

  /** The JSON value of a column index. */
  function FromNat(n: nat): (v: Value)
    ensures n < U64Limit ==> AsU64(v) == Some(n)
  {
    Num(Int(n))
  }
}
