/**
 A JSON value as a tagged sum. Numbers are integers only; object fields are a map from
 key to value (field order plays no part in this model).
 */
module Json {
  import opened Wrappers

  datatype Json =
    | JNull
    | JBool(b: bool)
    | JNumber(n: int)
    | JString(text: string)
    | JArray(elems: seq<Json>)
    | JObject(fields: map<string, Json>)

  /** The node's `field` member on an object that has it; None (a null reference) otherwise. */
  function Get(node: Json, field: string): Option<Json> {
    if node.JObject? && field in node.fields then Some(node.fields[field]) else None
  }

  /** The text of a string node; None (a null reference) for every other kind of node. */
  function TextValue(node: Json): Option<string> {
    if node.JString? then Some(node.text) else None
  }
}
