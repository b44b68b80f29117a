/**
 * The HTTP gateway: builds each outgoing request (URL, verb, headers, body) from
 * the gateway's base URL and bearer token, and folds whatever `fetch` produced into
 * the single response envelope `{ success, data, message, requiresOTP }`.
 * `fetch` itself is not modelled: its outcome is an input.
 */
module Api {
  import opened Optional
  import opened Text
  import opened Json

  datatype Method = GET | POST | PUT | DELETE

  /** What the gateway hands to `fetch`. The body is the value before `JSON.stringify`. */
  datatype HttpRequest = HttpRequest(url: string, verb: Method, headers: map<string, string>, body: Option<Json>)

  /**
   * A reply that arrived. `contentType` is the `content-type` header if present;
   * `body` is what `response.json()` resolves to, `None` when it rejects.
   */
  datatype HttpReply = HttpReply(contentType: Option<string>, status: nat, body: Option<Json>)

  /** What awaiting `fetch` produced: a rejection (DNS, timeout, reset) or a reply. */
  datatype FetchOutcome = TransportFailure | Received(reply: HttpReply)

  /** The envelope every gateway call resolves to; absent members are `None`. */
  datatype ApiResponse = ApiResponse(success: bool, data: Option<Json>, message: Option<Json>, requiresOTP: Option<Json>)

  /** One gateway instance: its base URL and the token attached to later requests. */
  datatype Gateway = Gateway(baseUrl: string, authToken: Option<Json>)

  const JsonMediaType := "application/json"
  const NetworkErrorMessage := "Network error. Please check your connection."

  function SetAuthToken(g: Gateway, token: Option<Json>): (g': Gateway)
    ensures g'.baseUrl == g.baseUrl
    ensures HasToken(g') <==> TruthyOpt(token)
    ensures TruthyOpt(token) ==> Headers(g', map[])["Authorization"] == BearerValue(token.value)
    ensures !TruthyOpt(token) ==> "Authorization" !in Headers(g', map[])
  {
    g.(authToken := token)
  }

  /** `if (this.authToken)`: a token is attached only when it is truthy. */
  predicate HasToken(g: Gateway) {
    TruthyOpt(g.authToken)
  }

  function BearerValue(token: Json): string {
    "Bearer " + JsString(token)
  }

  /**
   * `{ 'Content-Type': 'application/json', ...extra }`, then `Authorization` when a
   * token is set. Keys are compared exactly, as JavaScript object keys are.
   */
  function Headers(g: Gateway, extra: map<string, string>): (h: map<string, string>)
    ensures h.Keys == extra.Keys + {"Content-Type"} + (if HasToken(g) then {"Authorization"} else {})
    ensures h["Content-Type"] == (if "Content-Type" in extra then extra["Content-Type"] else JsonMediaType)
    ensures HasToken(g) ==> h["Authorization"] == BearerValue(g.authToken.value)
    ensures forall k | k in extra && k != "Content-Type" && (k != "Authorization" || !HasToken(g)) :: h[k] == extra[k]
  {
    var base := map["Content-Type" := JsonMediaType] + extra;
    if HasToken(g) then base["Authorization" := BearerValue(g.authToken.value)] else base
  }

  /** The request `request(endpoint, { method: verb, body, headers })` dispatches. */
  function Request(g: Gateway, endpoint: string, verb: Method, body: Option<Json>, extra: map<string, string>): (req: HttpRequest)
    ensures req.url == g.baseUrl + endpoint && req.verb == verb && req.body == body
    ensures req.headers == Headers(g, extra)
  {
    HttpRequest(g.baseUrl + endpoint, verb, Headers(g, extra), body)
  }

  /** The headers every verb helper sends: the JSON content type, and the bearer token exactly when one is set. */
  predicate StandardHeaders(g: Gateway, h: map<string, string>) {
    && h.Keys == {"Content-Type"} + (if HasToken(g) then {"Authorization"} else {})
    && h["Content-Type"] == JsonMediaType
    && (HasToken(g) ==> h["Authorization"] == BearerValue(g.authToken.value))
  }

  function Get(g: Gateway, endpoint: string): (req: HttpRequest)
    ensures req.verb == GET && req.body == None && req.url == g.baseUrl + endpoint
    ensures StandardHeaders(g, req.headers)
  {
    Request(g, endpoint, GET, None, map[])
  }

  function Post(g: Gateway, endpoint: string, data: Json): (req: HttpRequest)
    ensures req.verb == POST && req.body == Some(data) && req.url == g.baseUrl + endpoint
    ensures StandardHeaders(g, req.headers)
  {
    Request(g, endpoint, POST, Some(data), map[])
  }

  function Put(g: Gateway, endpoint: string, data: Json): (req: HttpRequest)
    ensures req.verb == PUT && req.body == Some(data) && req.url == g.baseUrl + endpoint
    ensures StandardHeaders(g, req.headers)
  {
    Request(g, endpoint, PUT, Some(data), map[])
  }

  function Delete(g: Gateway, endpoint: string): (req: HttpRequest)
    ensures req.verb == DELETE && req.body == None && req.url == g.baseUrl + endpoint
    ensures StandardHeaders(g, req.headers)
  {
    Request(g, endpoint, DELETE, None, map[])
  }

  /** `response.ok`: a status in the 200 range. */
  predicate IsOk(status: nat) {
    200 <= status <= 299
  }

  /** `s.includes(t)`. */
  predicate Includes(s: string, t: string) {
    exists i | 0 <= i <= |s| - |t| :: t <= s[i..]
  }

  /** `(response.headers.get('content-type') || '').includes('application/json')`. */
  predicate DeclaresJson(r: HttpReply) {
    r.contentType.Some? && Includes(r.contentType.value, JsonMediaType)
  }

  function NetworkError(): ApiResponse {
    ApiResponse(false, None, Some(JStr(NetworkErrorMessage)), None)
  }

  function HttpErrorMessage(status: nat): string {
    "HTTP error! status: " + NatToString(status)
  }

  /**
   * The envelope `request` resolves to. The non-JSON branch throws inside the
   * `try`, as does `response.json()` rejecting and `data.data` on a `null` body,
   * so all of them end in the catch-all network error.
   */
  function Respond(outcome: FetchOutcome): (r: ApiResponse)
    ensures r.success <==>
      && outcome.Received?
      && DeclaresJson(outcome.reply)
      && IsOk(outcome.reply.status)
      && outcome.reply.body.Some?
      && outcome.reply.body.value != JNull
    ensures r.success ==> r.data.Some? && r.data.value != JNull
    ensures r.success ==> var body := outcome.reply.body.value;
      && r.message == Member(body, "message")
      && r.requiresOTP == Member(body, "requiresOTP")
      && (TruthyOpt(Member(body, "data")) ==> r.data == Member(body, "data"))
      && (!TruthyOpt(Member(body, "data")) ==> r.data == Some(body))
    ensures !r.success ==> r.data == None && r.requiresOTP == None && TruthyOpt(r.message)
    ensures outcome.Received? && DeclaresJson(outcome.reply) && outcome.reply.body.Some? && !IsOk(outcome.reply.status) ==>
      var body := outcome.reply.body.value;
      && (TruthyOpt(Member(body, "message")) ==> r.message == Member(body, "message"))
      && (!TruthyOpt(Member(body, "message")) ==> r.message == Some(JStr(HttpErrorMessage(outcome.reply.status))))
    ensures !r.success && !(outcome.Received? && DeclaresJson(outcome.reply) && outcome.reply.body.Some? && !IsOk(outcome.reply.status)) ==>
      r == NetworkError() && r.message == Some(JStr(NetworkErrorMessage))
  {
    match outcome
    case TransportFailure => NetworkError()
    case Received(reply) =>
      if !DeclaresJson(reply) then NetworkError()
      else
        match reply.body
        case None => NetworkError()
        case Some(body) =>
          if !IsOk(reply.status) then
            ApiResponse(false, None, Some(Or(Member(body, "message"), JStr(HttpErrorMessage(reply.status)))), None)
          else if body == JNull then NetworkError()
          else
            ApiResponse(true, Some(Or(Member(body, "data"), body)), Member(body, "message"), Member(body, "requiresOTP"))
  }

  // ------------------------------------------------------------- properties

  /** A reply that does not declare JSON is indistinguishable from a dropped connection. */
  lemma NonJsonIsNetworkError(reply: HttpReply)
    requires !DeclaresJson(reply)
    ensures Respond(Received(reply)) == Respond(TransportFailure)
    ensures Respond(Received(reply)).message == Some(JStr(NetworkErrorMessage))
  {
  }

  /** `setAuthToken(null)` removes the bearer header from every later request. */
  lemma ClearedTokenSendsNoAuthorization(g: Gateway, endpoint: string, data: Json)
    ensures var g' := SetAuthToken(g, None);
      && "Authorization" !in Get(g', endpoint).headers
      && "Authorization" !in Post(g', endpoint, data).headers
      && "Authorization" !in Put(g', endpoint, data).headers
      && "Authorization" !in Delete(g', endpoint).headers
  {
  }

  /** A non-empty string token set on the gateway is sent as `Bearer <token>`. */
  lemma TokenSentAsBearer(g: Gateway, token: string, endpoint: string, data: Json)
    requires token != ""
    ensures var h := Post(SetAuthToken(g, Some(JStr(token))), endpoint, data).headers;
      "Authorization" in h && h["Authorization"] == "Bearer " + token
  {
  }

  /** Caller-supplied headers override the default content type; the token overrides a caller's `Authorization`. */
  lemma HeaderPrecedence(g: Gateway, extra: map<string, string>)
    requires "Content-Type" in extra && "Authorization" in extra && HasToken(g)
    ensures Headers(g, extra)["Content-Type"] == extra["Content-Type"]
    ensures Headers(g, extra)["Authorization"] == BearerValue(g.authToken.value)
  {
  }
}
