/**
 * JSON values as the JavaScript code sees them after `JSON.parse`, with the three
 * pieces of JavaScript semantics the core relies on: truthiness, property access
 * (`undefined` for a missing key, a thrown TypeError on `null`) and `String(v)`.
 * Numbers are integers here.
 */
module Json {
  import opened Optional
  import opened Text

  datatype Json =
    | JNull
    | JBool(b: bool)
    | JNum(n: int)
    | JStr(s: string)
    | JArr(items: seq<Json>)
    | JObj(fields: map<string, Json>)

  /** `!!v`: false exactly for null, false, 0 and the empty string. */
  predicate Truthy(j: Json) {
    match j
    case JNull => false
    case JBool(b) => b
    case JNum(n) => n != 0
    case JStr(s) => s != ""
    case JArr(_) => true
    case JObj(_) => true
  }

  /** Truthiness of a value that may be `undefined` (`None`). */
  predicate TruthyOpt(v: Option<Json>) {
    v.Some? && Truthy(v.value)
  }

  /**
   * `v.key` (or `v?.key`) on a value that is not null: the field of an object,
   * `undefined` for every other value and every missing key.
   */
  function Member(v: Json, key: string): (r: Option<Json>)
    ensures r.Some? <==> v.JObj? && key in v.fields
    ensures r.Some? ==> r.value == v.fields[key]
  {
    if v.JObj? && key in v.fields then Some(v.fields[key]) else None
  }

  /** `a || fallback`. */
  function Or(a: Option<Json>, fallback: Json): (r: Json)
    ensures TruthyOpt(a) ==> Some(r) == a
    ensures !TruthyOpt(a) ==> r == fallback
    ensures Truthy(fallback) ==> Truthy(r)
  {
    if TruthyOpt(a) then a.value else fallback
  }

  /** `String(v)`, as a template literal such as `Bearer ${v}` renders it. */
  function JsString(j: Json): string
    decreases j, 1
  {
    match j
    case JNull => "null"
    case JBool(b) => if b then "true" else "false"
    case JNum(n) => IntToString(n)
    case JStr(s) => s
    case JArr(items) => JoinElements(items)
    case JObj(_) => "[object Object]"
  }

  /** `Array.prototype.join(',')`: null elements print as the empty string. */
  function JoinElements(items: seq<Json>): string
    decreases items, 0
  {
    if items == [] then ""
    else
      (if items[0] == JNull then "" else JsString(items[0]))
      + (if |items| == 1 then "" else "," + JoinElements(items[1..]))
  }

  /** An object literal `{ success, message }` whose `message` may be left undefined. */
  function Envelope(success: bool, message: Option<Json>): (r: Json)
    ensures Member(r, "success") == Some(JBool(success))
    ensures Member(r, "message") == message
  {
    match message
    case None => JObj(map["success" := JBool(success)])
    case Some(m) => JObj(map["success" := JBool(success), "message" := m])
  }
}
