/** The values the JSON body parser hands to the ingestion routes. */
module Json {
  import opened Wrappers

  /** A JSON value. Numbers are kept as integers; nothing here does
      arithmetic on them. */
  datatype Value =
    | Null
    | Bool(b: bool)
    | Number(n: int)
    | Text(s: string)
    | Array(items: seq<Value>)
    | Object(members: map<string, Value>)

  /** One element of a posted array: a JSON object. */
  type Raw = map<string, Value>

  /** The server clock, in milliseconds. */
  type Timestamp = int

  /** `received.key`: the member's value, or absent (`undefined`). */
  function Field(raw: Raw, key: string): Option<Value> {
    if key in raw then Some(raw[key]) else None
  }
}
