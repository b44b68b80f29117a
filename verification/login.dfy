/**
 * The sign-in screen: email, password and a remember-me toggle that starts off,
 * and `handleLogin`, which routes a login to the OTP screen, the tabs, or an alert.
 */
module LoginScreen {
  import opened Optional
  import opened Json
  import opened Api
  import Auth
  import Lifecycle
  import opened Ui

  datatype LoginState = LoginState(email: string, password: string, rememberMe: bool, loading: bool)

  const ValidationTitle := "Validation"
  const MissingFields := "Please enter both email and password."
  const FailedTitle := "Login Failed"
  const FailedFallback := "Invalid credentials"

  function Init(): LoginState {
    LoginState("", "", false, false)
  }

  function ToggleRemember(s: LoginState): (s': LoginState)
    ensures s'.rememberMe == !s.rememberMe
    ensures s'.email == s.email && s'.password == s.password
  {
    s.(rememberMe := !s.rememberMe)
  }

  /**
   * `handleLogin`: an empty email or password only raises the validation alert;
   * otherwise `login` runs with the screen's remember flag, then an OTP-gated
   * success opens the OTP screen, any other success replaces the stack with the
   * tabs, and a failure is alerted.
   */
  function HandleLogin(s: LoginState, session: Auth.Session, outcome: FetchOutcome): (tr: Transition<LoginState>)
    ensures s.email == "" || s.password == "" ==>
      tr == Transition(s, session, [Alert(ValidationTitle, JStr(MissingFields))])
    ensures s.email != "" && s.password != "" ==>
      var response := Respond(outcome);
      && tr.state == s.(loading := false)
      && tr.session == Auth.Login(session, s.email, s.password, Some(s.rememberMe), outcome).session
      && |tr.effects| == 2
      && tr.effects[0] == CallLogin(s.email, s.password, s.rememberMe)
      && (tr.effects[1] == Push(VerifyOtpPath, s.email, "login") <==> response.success && TruthyOpt(response.requiresOTP))
      && (tr.effects[1] == Replace(TabsPath) <==> Lifecycle.DirectLogin(outcome))
      && (!response.success ==> tr.effects[1] == Alert(FailedTitle, Or(response.message, JStr(FailedFallback))))
  {
    if s.email == "" || s.password == "" then
      Transition(s, session, [Alert(ValidationTitle, JStr(MissingFields))])
    else
      var st := Auth.Login(session, s.email, s.password, Some(s.rememberMe), outcome);
      var next :=
        if st.reply.success then
          if st.reply.requiresOTP then Push(VerifyOtpPath, s.email, "login") else Replace(TabsPath)
        else Alert(FailedTitle, Or(st.reply.message, JStr(FailedFallback)));
      Transition(s.(loading := false), st.session, [CallLogin(s.email, s.password, s.rememberMe), next])
  }

  /**
   * The `'Invalid credentials'` fallback is never shown: a failed login always
   * carries a truthy message, and the alert displays it.
   */
  lemma LoginFallbackUnreachable(s: LoginState, session: Auth.Session, outcome: FetchOutcome)
    requires s.email != "" && s.password != "" && !Respond(outcome).success
    ensures Respond(outcome).message.Some?
    ensures HandleLogin(s, session, outcome).effects[1] == Alert(FailedTitle, Respond(outcome).message.value)
    ensures HandleLogin(s, session, outcome).session == session
  {
  }

  /**
   * The screen always passes its flag, so `remember` defaults to true only for other
   * callers: a direct login from the untouched toggle stores `remember: false`.
   */
  lemma ScreenStoresRememberFalse(email: string, password: string, session: Auth.Session, outcome: FetchOutcome)
    requires email != "" && password != "" && Lifecycle.DirectLogin(outcome)
    ensures var tr := HandleLogin(Init().(email := email, password := password), session, outcome);
      && tr.session.stored.Some? && tr.session.stored.value.Parsed?
      && Member(tr.session.stored.value.value, "remember") == Some(JBool(false))
  {
  }

  /** Only a direct login reaches the tabs, and the session it leaves is the one a restart restores when its read resolves. */
  lemma TabsOnlyWithStoredSession(s: LoginState, session: Auth.Session, outcome: FetchOutcome, baseUrl: string, read: Auth.StorageRead)
    requires s.email != "" && s.password != ""
    requires Replace(TabsPath) in HandleLogin(s, session, outcome).effects
    ensures var after := HandleLogin(s, session, outcome).session;
      && after.stored.Some?
      && Auth.IsAuthenticated(Auth.LoadStoredAuth(Auth.Initial(baseUrl, after.stored), read)) == (read.Resolved? && Auth.IsAuthenticated(after))
  {
    var tr := HandleLogin(s, session, outcome);
    assert tr.effects[1] == Replace(TabsPath);
    Lifecycle.LoginSurvivesRestart(session, s.email, s.password, Some(s.rememberMe), outcome, baseUrl, read);
  }
}
