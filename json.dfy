/** A parsed JSON request body and the JavaScript reads the route handlers make on it. */
module Json {
  import opened Wrappers

  /** JSON numbers are kept as integers: the handlers only test them for truthiness or pass them to Date. */
  datatype JsonValue =
    | JNull
    | JBool(b: bool)
    | JNumber(n: int)
    | JString(s: string)
    | JArray(items: seq<JsonValue>)
    | JObject(fields: map<string, JsonValue>)

  /**
   * Property read `v.key` (and object destructuring) on a value that is not null;
   * None is `undefined`. Arrays, strings, numbers and booleans have no such own
   * property, so they read as undefined too.
   */
  function Property(v: JsonValue, key: string): (p: Option<JsonValue>)
    requires v != JNull
    ensures p.Some? <==> v.JObject? && key in v.fields
    ensures p.Some? ==> p.value == v.fields[key]
  {
    if v.JObject? && key in v.fields then Some(v.fields[key]) else None
  }

  /** `!x`: undefined, null, false, 0 and "" are falsy; every other JSON value is truthy. */
  function Falsy(p: Option<JsonValue>): (falsy: bool)
    ensures falsy <==> p.None? || p.value in {JNull, JBool(false), JNumber(0), JString("")}
  {
    match p
    case None => true
    case Some(JNull) => true
    case Some(JBool(b)) => !b
    case Some(JNumber(n)) => n == 0
    case Some(JString(s)) => s == ""
    case Some(_) => false
  }
}
