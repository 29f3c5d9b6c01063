/** Parsed JSON values and the bytes of the files that hold them. */
module Documents {
  import opened Common

  datatype Json =
    | Null
    | Bool(b: bool)
    | Num(n: real)
    | Str(s: string)
    | Arr(items: seq<Json>)
    | Obj(fields: map<string, Json>)

  /** A JSON root object. */
  type Fields = map<string, Json>

  /** What a hand-written byte string parses to. */
  datatype Reading = Malformed | Reads(fields: Fields)

  /**
   * The bytes of a file: nothing (an absent file reads the same way), the
   * deterministic print of an object, or any other text. Printing is injective
   * and parsing inverts it.
   */
  datatype Bytes = Empty | Printed(fields: Fields) | Foreign(text: string, reading: Reading)

  function Parse(bytes: Bytes): Result<Fields> {
    match bytes
    case Empty => Ok(map[])
    case Printed(fields) => Ok(fields)
    case Foreign(_, Reads(fields)) => Ok(fields)
    case Foreign(_, Malformed) => Err("parse existing")
  }

  function Lookup(v: Json, path: seq<string>): Option<Json> {
    if path == [] then Some(v)
    else if v.Obj? && path[0] in v.fields then Lookup(v.fields[path[0]], path[1..])
    else None
  }
}
