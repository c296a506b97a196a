/** JSON documents as the Python dictionaries of the client library see them. */
module Json {

  /** A JSON value. Numbers are kept exact; Python's int/float split is not modelled. */
  datatype Json =
    | JNull
    | JBool(b: bool)
    | JNum(n: real)
    | JStr(s: string)
    | JArr(items: seq<Json>)
    | JObj(fields: map<string, Json>)

  /** A JSON object: the `dict` the library passes around. Python's `deepcopy`
      of such a dictionary is the value itself here. */
  type Object = map<string, Json>
}
