/** JSON values, and the JSON library as the detectors see it. */
module Json {
  import opened Text

  datatype Json =
    | Null
    | Bool(b: bool)
    | Number(repr: string)
    | Str(s: string)
    | Arr(items: seq<Json>)
    | Obj(fields: map<string, Json>)

  /** `json::parse` returns a value, throws `parse_error`, or throws another
  exception (a number out of range). */
  datatype Parsed = Value(json: Json) | ParseError | OtherError

  /** The library calls of the detectors: `json::parse`, `partial_json_loads`
  (`None` when it throws) and `json::dump`. */
  datatype Library = Library(parse: string -> Parsed, loads: string -> Option<Json>, dump: Json -> string)
}
