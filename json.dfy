/** The raw, untrusted shape of a model answer: a value as `json.loads` produces it. */
module JsonValue {

  /** JSON integers and non-integers stay apart, as Python's `int` and `float` do. */
  datatype Json =
    | JNull
    | JBool(b: bool)
    | JInt(i: int)
    | JReal(r: real)
    | JString(s: string)
    | JArray(items: seq<Json>)
    | JObject(fields: map<string, Json>)
}
