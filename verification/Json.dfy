/** Parsed JSON or YAML values: objects are maps from member names, and integers
    and finite floats are kept apart as Python keeps `int` and `float` apart. */
module Json {
  datatype Json =
    | Null
    | Bool(b: bool)
    | Int(i: int)
    | Float(x: real)
    | Str(s: string)
    | Arr(items: seq<Json>)
    | Obj(fields: map<string, Json>)
}
