/** A parsed JSON document, as far as the client reads one. */
module Json {
  import opened Wrappers

  datatype JsonValue =
    | JString(text: string)
    | JNumber(number: int)          // integral numbers only; the client reads them with intValue()
    | JBool(flag: bool)
    | JNull
    | JStructure(rendered: string)  // a nested array or object, by its toString() form

  /** What a JSON reader makes of a document: a syntax error, the literal null, or an object. */
  datatype JsonDocument = Unparsable | NullDocument | Object(members: map<string, JsonValue>)

  /** JsonObject.getString(name, null): the member's text when it is a JSON string, otherwise null. */
  function GetString(members: map<string, JsonValue>, name: string): (r: Option<string>)
    ensures r.Some? <==> name in members && members[name].JString?
    ensures r.Some? ==> members[name] == JString(r.value)
  {
    if name in members && members[name].JString? then Some(members[name].text) else None
  }
}
