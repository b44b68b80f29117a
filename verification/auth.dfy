/**
 * The authentication context: the in-memory session (token, user, the gateway's
 * token, the loading flag) together with the one secure-storage entry under the
 * key "auth", and the operations that move between them. Every operation is one
 * atomic step taking the outcome of its network call as an input.
 */
module Auth {
  import opened Optional
  import opened Json
  import opened Api

  /** What the storage entry yields on reading: text that `JSON.parse` rejects, or the parsed value. */
  datatype StoredValue = Unparsable | Parsed(value: Json)

  /** How the read of the storage entry settles: it resolves with the entry, or it rejects. */
  datatype StorageRead = Resolved | Rejected

  /**
   * `token` and `user` are the React state; `gateway` is the gateway instance with
   * its own copy of the token; `stored` is the storage entry (`None`: no entry).
   * The user profile is held as the server sent it: the core never reads its fields.
   */
  datatype Session = Session(
    token: Option<Json>,
    user: Option<Json>,
    gateway: Gateway,
    stored: Option<StoredValue>,
    isLoading: bool)

  /** The result object of `login`, `register` and the password-reset calls. */
  datatype AuthReply = AuthReply(success: bool, message: Option<Json>, requiresOTP: bool)

  /** The session after a call, the request the call sent, and what it resolved to. */
  datatype Step<R> = Step(session: Session, sent: HttpRequest, reply: R)

  datatype RegisterData = RegisterData(fullName: string, email: string, phone: string, password: string)

  const SomethingWentWrong := "Something went wrong. Please try again."
  const UnexpectedServerResponse := "Unexpected server response"
  const ResetOtpFailed := "Failed to send OTP."
  const ResetFailed := "Password reset failed."

  /** The provider as first mounted, before the stored entry has been read. */
  function Initial(baseUrl: string, stored: Option<StoredValue>): Session {
    Session(None, None, Gateway(baseUrl, None), stored, true)
  }

  /** `!!user && !!token`: a signed-in session whose gateway is in step sends its token. */
  predicate IsAuthenticated(s: Session)
    ensures IsAuthenticated(s) ==> s.user.Some? && s.token.Some? && s.token.value != JNull
    ensures IsAuthenticated(s) && s.gateway.authToken == s.token ==> HasToken(s.gateway)
  {
    TruthyOpt(s.user) && TruthyOpt(s.token)
  }

  /** The gateway carries the same token as the session. */
  predicate Synced(s: Session) {
    s.gateway.authToken == s.token
  }

  /** The storage entry parses to a value with a truthy `token` and a truthy `user`. */
  predicate HoldsSession(stored: Option<StoredValue>) {
    && stored.Some? && stored.value.Parsed?
    && TruthyOpt(Member(stored.value.value, "token"))
    && TruthyOpt(Member(stored.value.value, "user"))
  }

  // ------------------------------------------------------------- storage

  /**
   * The value `storeAuth` writes, as a later read parses it back:
   * `{ token, user, remember }`, where `JSON.stringify` drops undefined members.
   */
  function StoredRecord(token: Option<Json>, user: Option<Json>, remember: bool): (v: StoredValue)
    ensures v.Parsed? && Member(v.value, "token") == token && Member(v.value, "user") == user
    ensures Member(v.value, "remember") == Some(JBool(remember))
    ensures forall key | key != "token" && key != "user" && key != "remember" :: Member(v.value, key) == None
  {
    var base := map["remember" := JBool(remember)];
    var withToken := if token.Some? then base["token" := token.value] else base;
    Parsed(JObj(if user.Some? then withToken["user" := user.value] else withToken))
  }

  /**
   * `loadStoredAuth`: adopts the stored token and user only when the read resolves,
   * the entry parses and both are truthy; otherwise, a rejected read included,
   * changes nothing but the loading flag.
   */
  function LoadStoredAuth(s: Session, read: StorageRead): (s': Session)
    ensures !s'.isLoading && s'.stored == s.stored && s'.gateway.baseUrl == s.gateway.baseUrl
    ensures read.Resolved? && HoldsSession(s.stored) ==>
      var record := s.stored.value.value;
      && s'.token == Member(record, "token")
      && s'.user == Member(record, "user")
      && s'.gateway.authToken == Member(record, "token")
      && IsAuthenticated(s')
    ensures !(read.Resolved? && HoldsSession(s.stored)) ==> s' == s.(isLoading := false)
    ensures Synced(s) ==> Synced(s')
  {
    var s0 := s.(isLoading := false);
    match read
    case Rejected => s0
    case Resolved =>
      if HoldsSession(s.stored) then
        var record := s.stored.value.value;
        var token := Member(record, "token");
        s0.(token := token, user := Member(record, "user"), gateway := SetAuthToken(s.gateway, token))
      else s0
  }

  // --------------------------------------------------------------- login

  function Credentials(email: string, password: string): Json {
    JObj(map["email" := JStr(email), "password" := JStr(password)])
  }

  /**
   * `login`: posts the credentials; only a success without `requiresOTP` adopts
   * `response.data.token` and `.user` and writes them to storage with the remember
   * flag (true when the caller leaves it out).
   */
  function Login(s: Session, email: string, password: string, rememberMe: Option<bool>, outcome: FetchOutcome): (st: Step<AuthReply>)
    ensures st.sent == Post(s.gateway, "/api/login", Credentials(email, password))
    ensures var response := Respond(outcome);
      && st.reply.success == response.success
      && st.reply.message == response.message
      && st.reply.requiresOTP == (response.success && TruthyOpt(response.requiresOTP))
    ensures !(Respond(outcome).success && !TruthyOpt(Respond(outcome).requiresOTP)) ==> st.session == s
    ensures Respond(outcome).success && !TruthyOpt(Respond(outcome).requiresOTP) ==>
      var data := Respond(outcome).data.value;
      && st.session.token == Member(data, "token")
      && st.session.user == Member(data, "user")
      && st.session.gateway == SetAuthToken(s.gateway, Member(data, "token"))
      && st.session.stored == Some(StoredRecord(Member(data, "token"), Member(data, "user"), rememberMe.GetOr(true)))
      && st.session.isLoading == s.isLoading
    ensures Synced(s) ==> Synced(st.session)
  {
    var sent := Post(s.gateway, "/api/login", Credentials(email, password));
    var response := Respond(outcome);
    if response.success then
      if TruthyOpt(response.requiresOTP) then
        Step(s, sent, AuthReply(true, response.message, true))
      else
        var data := response.data.value;
        var token := Member(data, "token");
        var user := Member(data, "user");
        var s' := s.(token := token, user := user, gateway := SetAuthToken(s.gateway, token),
                     stored := Some(StoredRecord(token, user, rememberMe.GetOr(true))));
        Step(s', sent, AuthReply(true, response.message, false))
    else
      Step(s, sent, AuthReply(false, response.message, false))
  }

  // ------------------------------------------------------------ register

  /** The body `register` posts: the full name travels as `name`, the confirmation not at all. */
  function RegisterPayload(data: RegisterData): (j: Json)
    ensures j.JObj? && j.fields.Keys == {"name", "email", "phone", "password"}
    ensures j.fields["name"] == JStr(data.fullName)
  {
    JObj(map["name" := JStr(data.fullName), "email" := JStr(data.email),
             "phone" := JStr(data.phone), "password" := JStr(data.password)])
  }

  /** `register`: never touches the session; a gateway success always asks for an OTP. */
  function Register(s: Session, data: RegisterData, outcome: FetchOutcome): (st: Step<AuthReply>)
    ensures st.session == s
    ensures st.sent == Post(s.gateway, "/api/register", RegisterPayload(data))
    ensures st.reply.success == Respond(outcome).success
    ensures st.reply.requiresOTP == st.reply.success
    ensures st.reply.message == Respond(outcome).message
  {
    var sent := Post(s.gateway, "/api/register", RegisterPayload(data));
    var response := Respond(outcome);
    if response.success then Step(s, sent, AuthReply(true, response.message, true))
    else Step(s, sent, AuthReply(false, response.message, false))
  }

  // ----------------------------------------------------- OTP verify/resend

  /** A bare `fetch` POST with only the JSON content type: no bearer token, not through the gateway. */
  function RawPost(s: Session, endpoint: string, body: Json): (req: HttpRequest)
    ensures var viaGateway := Post(s.gateway, endpoint, body);
      req.verb == viaGateway.verb && req.url == viaGateway.url && req.body == viaGateway.body
    ensures req.headers == map["Content-Type" := JsonMediaType]
    ensures "Authorization" !in req.headers
  {
    HttpRequest(s.gateway.baseUrl + endpoint, POST, map["Content-Type" := JsonMediaType], Some(body))
  }

  /**
   * What `verifyOTP` and `resendOTP` resolve to: the parsed body verbatim when the
   * reply declares JSON (whatever its status), a fixed envelope otherwise.
   */
  function RawReply(outcome: FetchOutcome): (r: Json)
    ensures outcome.Received? && DeclaresJson(outcome.reply) && outcome.reply.body.Some? ==>
      r == outcome.reply.body.value
    ensures outcome.Received? && !DeclaresJson(outcome.reply) ==>
      r == Envelope(false, Some(JStr(UnexpectedServerResponse)))
    ensures outcome.TransportFailure? || (DeclaresJson(outcome.reply) && outcome.reply.body.None?) ==>
      r == Envelope(false, Some(JStr(SomethingWentWrong)))
  {
    match outcome
    case TransportFailure => Envelope(false, Some(JStr(SomethingWentWrong)))
    case Received(reply) =>
      if !DeclaresJson(reply) then Envelope(false, Some(JStr(UnexpectedServerResponse)))
      else
        match reply.body
        case Some(body) => body
        case None => Envelope(false, Some(JStr(SomethingWentWrong)))
  }

  function VerifyOtp(s: Session, otp: string, email: string, outcome: FetchOutcome): (st: Step<Json>)
    ensures st.session == s
    ensures st.sent == RawPost(s, "/api/verify-otp", JObj(map["otp" := JStr(otp), "email" := JStr(email)]))
    ensures st.reply == RawReply(outcome)
  {
    Step(s, RawPost(s, "/api/verify-otp", JObj(map["otp" := JStr(otp), "email" := JStr(email)])), RawReply(outcome))
  }

  function ResendOtp(s: Session, email: string, outcome: FetchOutcome): (st: Step<Json>)
    ensures st.session == s
    ensures st.sent == RawPost(s, "/api/resend-otp", JObj(map["email" := JStr(email)]))
    ensures st.reply == RawReply(outcome)
  {
    Step(s, RawPost(s, "/api/resend-otp", JObj(map["email" := JStr(email)])), RawReply(outcome))
  }

  // ------------------------------------------------------ password reset

  /**
   * The shared shape of `requestPasswordReset` and `resetPassword` as written:
   * on a gateway failure `response.data` is undefined, reading `.message` from it
   * throws, and the catch block finds no `error.response`, so only the fixed
   * fallback is reported.
   */
  function ResetReply(outcome: FetchOutcome, fallback: string): (r: AuthReply)
    ensures r.success == Respond(outcome).success && !r.requiresOTP
    ensures r.success ==> r.message == Member(Respond(outcome).data.value, "message")
    ensures !r.success ==> r.message == Some(JStr(fallback))
  {
    var response := Respond(outcome);
    if response.success then AuthReply(true, Member(response.data.value, "message"), false)
    else AuthReply(false, Some(JStr(fallback)), false)
  }

  function RequestPasswordReset(s: Session, email: string, outcome: FetchOutcome): (st: Step<AuthReply>)
    ensures st.session == s
    ensures st.sent == Post(s.gateway, "/api/forgot-password", JObj(map["email" := JStr(email)]))
    ensures st.reply.success <==> Respond(outcome).success
    ensures !st.reply.success ==> st.reply.message == Some(JStr(ResetOtpFailed))
  {
    Step(s, Post(s.gateway, "/api/forgot-password", JObj(map["email" := JStr(email)])),
         ResetReply(outcome, ResetOtpFailed))
  }

  function ResetPassword(s: Session, email: string, otp: string, password: string, outcome: FetchOutcome): (st: Step<AuthReply>)
    ensures st.session == s
    ensures st.sent == Post(s.gateway, "/api/reset-password",
      JObj(map["email" := JStr(email), "otp" := JStr(otp), "password" := JStr(password)]))
    ensures st.reply.success <==> Respond(outcome).success
    ensures !st.reply.success ==> st.reply.message == Some(JStr(ResetFailed))
  {
    Step(s, Post(s.gateway, "/api/reset-password",
                 JObj(map["email" := JStr(email), "otp" := JStr(otp), "password" := JStr(password)])),
         ResetReply(outcome, ResetFailed))
  }

  /** The evidently intended reset reply: a gateway failure passes the server's message on. */
  function ResetReplyIntended(outcome: FetchOutcome, fallback: string): (r: AuthReply)
    ensures r.success == Respond(outcome).success && !r.requiresOTP
    ensures !r.success ==> r.message == Some(Or(Respond(outcome).message, JStr(fallback)))
  {
    var response := Respond(outcome);
    if response.success then AuthReply(true, Member(response.data.value, "message"), false)
    else AuthReply(false, Some(Or(response.message, JStr(fallback))), false)
  }

  function RequestPasswordResetIntended(s: Session, email: string, outcome: FetchOutcome): (st: Step<AuthReply>)
    ensures st.session == s
    ensures st.reply.success <==> Respond(outcome).success
    ensures !st.reply.success ==> st.reply.message == Respond(outcome).message
  {
    Step(s, Post(s.gateway, "/api/forgot-password", JObj(map["email" := JStr(email)])),
         ResetReplyIntended(outcome, ResetOtpFailed))
  }

  /** A 404 whose JSON body says "Email not found": as written the user sees the fixed fallback instead. */
  lemma PasswordResetDropsServerMessage(s: Session, email: string)
    ensures var reply := HttpReply(Some("application/json"), 404,
                                   Some(JObj(map["message" := JStr("Email not found")])));
      && RequestPasswordReset(s, email, Received(reply)).reply.message == Some(JStr(ResetOtpFailed))
      && RequestPasswordResetIntended(s, email, Received(reply)).reply.message == Some(JStr("Email not found"))
  {
    assert "application/json" <= "application/json"[0..];
  }

  // -------------------------------------------------------------- logout

  /**
   * `logout`: posts to `/auth` with the current bearer token, then clears the
   * user, both copies of the token and the storage entry whatever the call gave.
   */
  function Logout(s: Session, outcome: FetchOutcome): (st: Step<()>)
    ensures st.sent == Post(s.gateway, "/auth", JObj(map[]))
    ensures st.session.token == None && st.session.user == None
    ensures st.session.gateway == Gateway(s.gateway.baseUrl, None)
    ensures st.session.stored == None && st.session.isLoading == s.isLoading
    ensures !IsAuthenticated(st.session) && Synced(st.session)
  {
    var cleared := s.(user := None, token := None, gateway := SetAuthToken(s.gateway, None), stored := None);
    Step(cleared, Post(s.gateway, "/auth", JObj(map[])), ())
  }
}
