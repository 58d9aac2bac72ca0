/** Shared value types of the agent runtime. */
module Common {

  datatype Option<+T> = None | Some(value: T)

  /** Stand-in for Go's `interface{}` payloads: the JSON-shaped values that
      memory entries, tool arguments and tool results carry. `Null` is Go's nil. */
  datatype Value =
    | Null
    | Bool(b: bool)
    | Number(n: int)
    | Str(s: string)
    | List(items: seq<Value>)
    | Object(fields: map<string, Value>)

  /** Outcome of decoding a `Value` payload into a typed record: the record,
      or the name of the field whose JSON shape did not fit. */
  datatype Decoded<T> = Decoded(value: T) | Malformed(field: string)

  /** The set of type tags a handler's `CanHandle` answers true for;
      `AnyType` is the "handle all message types" handlers. */
  datatype Accepts = AnyType | OnlyTypes(types: set<string>)

  predicate Admits(a: Accepts, t: string)
  {
    match a
    case AnyType => true
    case OnlyTypes(ts) => t in ts
  }
}
