/** Inbound frames as `JSON.parse` leaves them. The server never looks inside a
    signaling payload, so a number is kept as the opaque text of its numeral. */
module Json {

  datatype Value =
    | Null
    | Bool(b: bool)
    | Number(text: string)
    | Str(s: string)
    | Array(items: seq<Value>)
    | Object(fields: map<string, Value>)

  /** An inbound text frame: either `JSON.parse` throws on it, or it yields a value. */
  datatype Frame = Malformed | Parsed(value: Value)
}
