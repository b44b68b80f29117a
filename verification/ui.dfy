/**
 * What a screen handler does besides updating its own state: calls into the
 * authentication context, navigation and alerts, as values in the order issued.
 */
module Ui {
  import opened Json
  import opened Auth

  const VerifyOtpPath := "/auth/verify-otp"
  const TabsPath := "/(tabs)"
  const SomethingWentWrongText := "Something went wrong. Please try again."

  datatype Effect =
    | CallLogin(email: string, password: string, rememberMe: bool)
    | CallRegister(data: RegisterData)
    | CallVerifyOtp(otp: string, email: string)
    | CallResendOtp(email: string)
    /** `router.push({ pathname, params: { email, type } })`, with `type` as `kind`. */
    | Push(pathname: string, email: string, kind: string)
    /** `router.replace(pathname)`. */
    | Replace(target: string)
    /** `Alert.alert(title, body)`. */
    | Alert(title: string, body: Json)

  /** A handler's result: the screen state, the authentication context after any call, and the effects. */
  datatype Transition<S> = Transition(state: S, session: Session, effects: seq<Effect>)

  /** Whether any effect is a call into the authentication context. */
  predicate CallsAuth(effects: seq<Effect>) {
    exists k | 0 <= k < |effects| ::
      effects[k].CallLogin? || effects[k].CallRegister? || effects[k].CallVerifyOtp? || effects[k].CallResendOtp?
  }
}
