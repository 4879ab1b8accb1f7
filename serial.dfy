/**
 * The values the durable package stores and sends, and their string form.
 * `superjson.stringify` and `superjson.parse` are modelled by what they
 * guarantee each other: parsing what was stringified gives the value back.
 */
module Serial {
  import opened Wrappers

  /** A structured value: what a payload, a stored item or an RPC argument can be. */
  datatype Value =
    | Null
    | Bool(b: bool)
    | Num(n: int)
    | Str(s: string)
    | Arr(items: seq<Value>)
    | Obj(fields: map<string, Value>)

  /** A stored string: either `superjson.stringify(v)`, or text that does not parse. */
  datatype Serialized = Serialized(v: Value) | Malformed(text: string)

  function Stringify(v: Value): Serialized
  {
    Serialized(v)
  }

  /** `superjson.parse`: None where it throws. */
  function Parse(s: Serialized): Option<Value>
  {
    match s
    case Serialized(v) => Some(v)
    case Malformed(_) => None
  }
}
