/**
 * The JSON values that `JSON.parse` can return, as far as the storefront
 * inspects them. `JSON.parse` itself is a foreign function: every member that
 * needs it takes it as a parameter `parse: string -> Option<Json>`, where
 * `None` stands for the `SyntaxError` it throws on malformed text.
 */
module Json {
  datatype Json =
    | JArray(elems: seq<Json>)
    | JString(str: string)
    | JNumber(num: int)
    | JBool(b: bool)
    | JNull
    | JObject

  /** JavaScript truthiness of a parsed value (`0`, `""`, `false`, `null` are falsy). */
  predicate Truthy(j: Json) {
    match j
    case JArray(_) => true
    case JString(s) => s != ""
    case JNumber(n) => n != 0
    case JBool(b) => b
    case JNull => false
    case JObject => true
  }
}

/**
 * The `tags` field of a catalogue record as the API delivers it: declared as
 * `string[] | string`, and possibly missing or of another type.
 */
module Fields {
  datatype TagsField =
    | TagList(list: seq<string>)
    | TagText(text: string)
    | TagAbsent
}
