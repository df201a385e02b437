/**
 * A stand-in for `serde_json::Value`. The JSON parser itself (`serde_json::from_str`)
 * and typed deserialisation are foreign to this model: every operation that parses
 * takes the parser as a function parameter, so each property holds for any parser.
 */
module Json {
  import opened Wrappers

  /** `serde_json::Value`; `Object` uses the default (key-ordered) `serde_json::Map`. */
  datatype Json =
    | Null
    | Bool(b: bool)
    | Number(n: real)
    | Str(s: string)
    | Array(items: seq<Json>)
    | Object(fields: map<string, Json>)

  /** `serde_json::from_str::<Value>`: `Some` exactly when the text is valid JSON. */
  type ValueParser = string -> Option<Json>
}
