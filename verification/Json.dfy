/** JSON values as `JSON.parse` gives them. */
module Json {

  /** A number too large for a double is read as an infinity. */
  datatype Number = Finite(value: real) | Infinite(negative: bool)

  datatype Json =
    | JNull
    | JBool(flag: bool)
    | JNumber(number: Number)
    | JString(text: string)
    | JArray(items: seq<Json>)
    | JObject(fields: map<string, Json>)
}
