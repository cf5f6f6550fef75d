/** JSON documents, and what evaluating a placeholder can yield. */
module JsonValues {

  /** Object members are listed in the order the library iterates over them. */
  datatype Json =
    | Null
    | Bool(b: bool)
    | Int(n: int)
    | Float(x: real)
    | Str(s: string)
    | Arr(items: seq<Json>)
    | Obj(members: seq<Member>)

  datatype Member = Member(key: string, value: Json)

  datatype Value =
    | BoolValue(b: bool)
    | DoubleValue(x: real)
    | LongValue(n: int)
    | StringValue(s: string)
    | JsonValue(j: Json)
    | BytesValue(bytes: seq<int>)

  /** A result, or an exception. */
  datatype Outcome<+T> = Ok(value: T) | Thrown
}
