/** Cell values of the SQLite store and the JSON documents some of them hold. */
module Values {

  /** A JSON document as `json.dumps` receives it (a Python list, dict, str, number, bool or None). */
  datatype Json =
    | JNull
    | JBool(b: bool)
    | JInt(i: int)
    | JFloat(f: real)
    | JString(s: string)
    | JArray(items: seq<Json>)
    | JObject(members: seq<(string, Json)>)

  /** A cell as SQLite stores it. `JsonText(doc)` is a TEXT cell whose contents are
      `json.dumps(doc)`; the character-level rendering of that text is not modelled. */
  datatype Value =
    | Null
    | Integer(i: int)
    | Real(r: real)
    | Text(s: string)
    | JsonText(doc: Json)
}
