/** JSON values as JavaScript code sees them after `JSON.parse`. The parser
    and the serialiser themselves are left abstract: every operation that
    uses them takes them as parameters. */
module Json {
  import opened Wrappers

  /** Numbers are integers here: the quantities and identifiers the form
      and the server produce are whole numbers. A fractional or non-finite
      number has no representation. */
  datatype Json =
    | JNull
    | JBool(b: bool)
    | JNumber(n: int)
    | JString(s: string)
    | JArray(items: seq<Json>)
    | JObject(fields: map<string, Json>)

  /** `JSON.parse`: `None` is the SyntaxError it throws. */
  type Parser = string -> Option<Json>

  /** `JSON.stringify`. */
  type Stringifier = Json -> string

  const EmptyObject: Json := JObject(map[])

  /** JavaScript truthiness of a property read; `None` is `undefined`.
      Objects and arrays are truthy even when empty. */
  predicate Truthy(v: Option<Json>) {
    match v
    case None => false
    case Some(JNull) => false
    case Some(JBool(b)) => b
    case Some(JNumber(n)) => n != 0
    case Some(JString(s)) => s != ""
    case Some(JArray(_)) => true
    case Some(JObject(_)) => true
  }

  /** `typeof v === 'string'` */
  predicate IsString(v: Option<Json>) {
    v.Some? && v.value.JString?
  }

  /** A quantity map of the form as a JSON object of numbers. */
  function FromQuantities(m: map<string, int>): Json {
    JObject(map k | k in m :: JNumber(m[k]))
  }

  /** The two library functions behave as JSON requires of them: parsing
      what was serialised gives it back, a serialisation is never the empty
      string, and the literal "{}" parses to the empty object. */
  ghost predicate Agree(parse: Parser, stringify: Stringifier) {
    && parse("{}") == Some(EmptyObject)
    && forall j :: stringify(j) != "" && parse(stringify(j)) == Some(j)
  }
}
