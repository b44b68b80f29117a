/**
 * The authentication context as a state machine: a run is the sequence of
 * operations the screens trigger, each applied atomically with the outcome of
 * its own network call. The lemmas say which events may change the session.
 */
module Lifecycle {
  import opened Optional
  import opened Json
  import opened Api
  import opened Auth

  datatype Event =
    | Mount(read: StorageRead)
    | SignIn(email: string, password: string, rememberMe: Option<bool>, outcome: FetchOutcome)
    | SignUp(data: RegisterData, outcome: FetchOutcome)
    | SubmitOtp(otp: string, email: string, outcome: FetchOutcome)
    | RequestNewOtp(email: string, outcome: FetchOutcome)
    | ForgotPassword(email: string, outcome: FetchOutcome)
    | ChooseNewPassword(email: string, otp: string, password: string, outcome: FetchOutcome)
    | SignOut(outcome: FetchOutcome)

  function Apply(s: Session, e: Event): Session {
    match e
    case Mount(read) => LoadStoredAuth(s, read)
    case SignIn(email, password, remember, outcome) => Login(s, email, password, remember, outcome).session
    case SignUp(data, outcome) => Register(s, data, outcome).session
    case SubmitOtp(otp, email, outcome) => VerifyOtp(s, otp, email, outcome).session
    case RequestNewOtp(email, outcome) => ResendOtp(s, email, outcome).session
    case ForgotPassword(email, outcome) => RequestPasswordReset(s, email, outcome).session
    case ChooseNewPassword(email, otp, password, outcome) => ResetPassword(s, email, otp, password, outcome).session
    case SignOut(outcome) => Logout(s, outcome).session
  }

  function Run(s: Session, events: seq<Event>): Session
    decreases |events|
  {
    if events == [] then s else Run(Apply(s, events[0]), events[1..])
  }

  /** A login that the gateway accepts without asking for an OTP: the only login that adopts a session. */
  predicate DirectLogin(outcome: FetchOutcome) {
    Respond(outcome).success && !TruthyOpt(Respond(outcome).requiresOTP)
  }

  /** The events that may change token, user, gateway token or storage. */
  predicate MayChangeSession(e: Event) {
    e.Mount? || e.SignOut? || (e.SignIn? && DirectLogin(e.outcome))
  }

  /** The gateway's token never drifts from the session's, whatever the run. */
  lemma {:induction false} RunKeepsSynced(s: Session, events: seq<Event>)
    requires Synced(s)
    ensures Synced(Run(s, events))
    decreases |events|
  {
    if events != [] {
      var s' := Apply(s, events[0]);
      match events[0] {
        case Mount(read) => assert Synced(s');
        case SignIn(email, password, remember, outcome) => assert Synced(s');
        case SignOut(outcome) => assert Synced(s');
        case _ => assert s' == s;
      }
      RunKeepsSynced(s', events[1..]);
    }
  }

  /**
   * Registering, verifying or resending an OTP, the password-reset calls and an
   * OTP-gated or failed login leave token, user, gateway and storage exactly as
   * they were: in particular an OTP verification never persists a session.
   */
  lemma {:induction false} QuietRunLeavesSession(s: Session, events: seq<Event>)
    requires forall i | 0 <= i < |events| :: !MayChangeSession(events[i])
    ensures Run(s, events) == s
    decreases |events|
  {
    if events != [] {
      assert !MayChangeSession(events[0]);
      assert Apply(s, events[0]) == s;
      QuietRunLeavesSession(s, events[1..]);
    }
  }

  /** The OTP sign-in path: a login answered with `requiresOTP`, then a verification of any outcome. */
  lemma OtpLoginNeverPersists(s: Session, email: string, password: string, remember: Option<bool>,
                              login: FetchOutcome, otp: string, verify: FetchOutcome)
    requires Respond(login).success && TruthyOpt(Respond(login).requiresOTP)
    ensures Login(s, email, password, remember, login).reply == AuthReply(true, Respond(login).message, true)
    ensures Run(s, [SignIn(email, password, remember, login), SubmitOtp(otp, email, verify)]) == s
  {
    QuietRunLeavesSession(s, [SignIn(email, password, remember, login), SubmitOtp(otp, email, verify)]);
  }

  /**
   * A session is restored at startup exactly when the read resolves and storage
   * holds a truthy token and user; a rejected read ends as an absent entry does.
   */
  lemma StartupAuthenticatedIff(baseUrl: string, stored: Option<StoredValue>, read: StorageRead)
    ensures IsAuthenticated(Run(Initial(baseUrl, stored), [Mount(read)])) <==> read.Resolved? && HoldsSession(stored)
    ensures !Run(Initial(baseUrl, stored), [Mount(read)]).isLoading
    ensures read.Rejected? ==> Run(Initial(baseUrl, stored), [Mount(read)]) == Run(Initial(baseUrl, None), [Mount(Resolved)]).(stored := stored)
  {
    assert Run(Initial(baseUrl, stored), [Mount(read)]) == LoadStoredAuth(Initial(baseUrl, stored), read);
    assert Run(Initial(baseUrl, None), [Mount(Resolved)]) == LoadStoredAuth(Initial(baseUrl, None), Resolved);
  }

  /**
   * What a direct login stores is what the next start of the app restores, when
   * that start's read of the entry resolves.
   */
  lemma LoginSurvivesRestart(s: Session, email: string, password: string, remember: Option<bool>,
                             outcome: FetchOutcome, baseUrl: string, read: StorageRead)
    requires DirectLogin(outcome)
    ensures var after := Login(s, email, password, remember, outcome).session;
      var restored := LoadStoredAuth(Initial(baseUrl, after.stored), read);
      && IsAuthenticated(restored) == (read.Resolved? && IsAuthenticated(after))
      && (read.Resolved? && IsAuthenticated(after) ==>
            && restored.token == after.token
            && restored.user == after.user
            && restored.gateway.authToken == after.gateway.authToken)
  {
  }

  /** After logout the next start of the app finds no session, whatever the server said. */
  lemma LogoutSurvivesRestart(s: Session, outcome: FetchOutcome, baseUrl: string, read: StorageRead)
    ensures var after := Logout(s, outcome).session;
      && !IsAuthenticated(after)
      && !IsAuthenticated(LoadStoredAuth(Initial(baseUrl, after.stored), read))
  {
  }

  /**
   * A direct login whose data lacks a truthy token still writes an entry: the
   * bundle is stored partially, and the next start of the app ignores it.
   */
  lemma PartialBundleStored(s: Session, email: string, password: string, remember: Option<bool>,
                            outcome: FetchOutcome, baseUrl: string, read: StorageRead)
    requires DirectLogin(outcome) && !TruthyOpt(Member(Respond(outcome).data.value, "token"))
    ensures var after := Login(s, email, password, remember, outcome).session;
      && after.stored.Some? && !HoldsSession(after.stored)
      && !IsAuthenticated(after)
      && !IsAuthenticated(LoadStoredAuth(Initial(baseUrl, after.stored), read))
  {
  }
}
