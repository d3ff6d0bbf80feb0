/** The decoded form of one JSON log record, as `encoding/json` produces it
    into a `map[string]interface{}` when the decoder is told to `UseNumber`. */
module Json {

  /** A dynamically typed JSON value. Numbers keep their literal text
      (`json.Number`), so nothing is lost to floating point. */
  datatype Value =
    | Str(text: string)
    | Num(literal: string)
    | Bool(b: bool)
    | Null
    | Arr(items: seq<Value>)
    | Obj(members: map<string, Value>)

  /** One log record: field name to value. */
  type Event = map<string, Value>

  /** Go's `event[key]`: a missing key reads as the nil interface, which every
      type switch treats exactly like a JSON `null`. */
  function Get(e: Event, key: string): Value
  {
    if key in e then e[key] else Null
  }
}
