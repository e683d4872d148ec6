/** The JSON values that the servers build as Python dicts or JavaScript
    objects before handing them to the JSON encoder. Objects keep their
    insertion order as a sequence of (key, value) pairs. */
module Json {
  datatype Json =
    | JNull
    | JBool(b: bool)
    | JInt(i: int)
    | JStr(s: string)
    | JArr(items: seq<Json>)
    | JObj(fields: seq<(string, Json)>)

  /** A JSON encoder (Python's json.dumps, JavaScript's JSON.stringify). The
      exact text it produces is not modelled; it is a parameter. */
  type Encoder = Json -> string
}
