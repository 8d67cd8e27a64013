/** Decoded JSON documents, as the standard `json` module produces them. */
module Json {

  /** A JSON value; numbers are kept as integers (see README, "Left out"). */
  datatype Json =
    | JNull
    | JBool(b: bool)
    | JNumber(n: int)
    | JString(s: string)
    | JArray(elems: seq<Json>)
    | JObject(fields: map<string, Json>)

  /** Python can put the decoded value in a set: lists and dicts are unhashable. */
  predicate Hashable(j: Json) {
    !j.JArray? && !j.JObject?
  }
}
