/**
 * The OTP verification screen: the resend countdown, its `m:ss` rendering, the
 * verify and resend handlers, and the rule that a complete code clears the error.
 */
module VerifyOtpScreen {
  import opened Optional
  import opened Text
  import opened Json
  import opened Api
  import Validation
  import Auth
  import OtpInput
  import opened ClockText
  import opened Ui

  /** `error` holds whatever was passed to `setError`; the empty string is "no error". */
  datatype VerifyState = VerifyState(
    otp: string,
    countdown: int,
    canResend: bool,
    error: Json,
    isLoading: bool,
    isResending: bool)

  const ResendSeconds := 60
  const InvalidOtpFallback := "Invalid OTP. Please try again."
  const ResentText := "OTP has been resent to your email"
  const ResendFallback := "Failed to resend OTP"

  function Init(): VerifyState {
    VerifyState("", ResendSeconds, false, JStr(""), false, false)
  }

  // ------------------------------------------------------------ countdown

  /** One second of the interval: a count at or below 1 becomes 0 and unlocks resending. */
  function Tick(s: VerifyState): (s': VerifyState)
    ensures s'.countdown == if s.countdown <= 1 then 0 else s.countdown - 1
    ensures s'.canResend == (s.canResend || s.countdown <= 1)
    ensures s'.otp == s.otp && s'.error == s.error
  {
    if s.countdown <= 1 then s.(countdown := 0, canResend := true)
    else s.(countdown := s.countdown - 1)
  }

  function Ticks(s: VerifyState, n: nat): VerifyState
    decreases n
  {
    if n == 0 then s else Ticks(Tick(s), n - 1)
  }

  /** From a count `c >= 1` with resending locked, `n` seconds later the count is `max(c - n, 0)`, unlocked from second `c` on. */
  lemma {:induction false} CountdownAfter(s: VerifyState, n: nat)
    requires s.countdown >= 1 && !s.canResend
    ensures Ticks(s, n).countdown == if n >= s.countdown then 0 else s.countdown - n
    ensures Ticks(s, n).canResend <==> n >= s.countdown
    decreases n
  {
    if n > 0 && s.countdown > 1 {
      CountdownAfter(Tick(s), n - 1);
    } else if n > 0 {
      StaysAtZero(Tick(s), n - 1);
    }
  }

  lemma {:induction false} StaysAtZero(s: VerifyState, n: nat)
    requires s.countdown == 0 && s.canResend
    ensures Ticks(s, n).countdown == 0 && Ticks(s, n).canResend
    decreases n
  {
    if n > 0 {
      StaysAtZero(Tick(s), n - 1);
    }
  }

  /** The screen's own countdown never goes negative and unlocks resending after exactly 60 ticks. */
  lemma CountdownFromStart(n: nat)
    ensures 0 <= Ticks(Init(), n).countdown <= ResendSeconds
    ensures Ticks(Init(), n).canResend <==> n >= ResendSeconds
    ensures n >= ResendSeconds ==> Ticks(Init(), n).countdown == 0
  {
    CountdownAfter(Init(), n);
  }

  // ----------------------------------------------------------- formatTime

  /**
   * `formatTime`: whole minutes, a colon, the seconds padded to two digits. It
   * loses nothing: the text reads back as the count it was given.
   */
  function FormatTime(seconds: nat): (t: string)
    ensures ParseClock(t) == Some(seconds)
  {
    var m, r := seconds / 60, seconds % 60;
    assert 60 * m + r == seconds;
    Clock(m, r)
  }

  lemma MinutesAndSeconds(seconds: nat, m: nat, r: nat)
    requires r < 60 && seconds == 60 * m + r
    ensures seconds / 60 == m && seconds % 60 == r
  {
  }

  /** `formatTime` of `60 * m + r` writes exactly the clock of `m` minutes and `r` seconds. */
  lemma FormatTimeClock(seconds: nat, m: nat, r: nat)
    requires r < 60 && seconds == 60 * m + r
    ensures FormatTime(seconds) == Clock(m, r)
  {
    MinutesAndSeconds(seconds, m, r);
  }

  /** The clock has one written form: any text that reads back as a count is what `formatTime` prints for it. */
  lemma ClockCanonical(t: string, seconds: nat)
    requires ParseClock(t) == Some(seconds)
    ensures t == FormatTime(seconds)
  {
    var m, r := ParsedClock(t);
    FormatTimeClock(seconds, m, r);
  }

  // ---------------------------------------------------------- code entry

  /**
   * `setOtp`, then the effect on `[otp]`, which runs only when the code actually
   * changes: a new complete six-character code clears the error, and setting the
   * same code again keeps it.
   */
  function OtpChanged(s: VerifyState, otp: string): (s': VerifyState)
    ensures s'.otp == otp
    ensures |otp| == 6 && otp != s.otp ==> s'.error == JStr("")
    ensures |otp| != 6 || otp == s.otp ==> s'.error == s.error
    ensures s'.countdown == s.countdown && s'.canResend == s.canResend
  {
    s.(otp := otp, error := if |otp| == 6 && otp != s.otp then JStr("") else s.error)
  }

  /**
   * Typing the sixth character into the input, whose focus then stays on the
   * last slot, completes a new code and clears any error shown.
   */
  lemma SixthCharacterClearsError(s: VerifyState, c: char)
    requires |s.otp| == 5
    ensures var change := OtpInput.HandleChangeText(s.otp, 6, 5, [c]);
      && change.focus == None
      && |change.value| == 6
      && OtpChanged(s, change.value).error == JStr("")
  {
  }

  /**
   * Retyping a slot of a complete code with the character it already shows
   * leaves the code as it was, so the error stays.
   */
  lemma RetypedCodeKeepsError(s: VerifyState, k: nat)
    requires |s.otp| == 6 && k < 6
    ensures var change := OtpInput.HandleChangeText(s.otp, 6, k, [s.otp[k]]);
      && change.value == s.otp
      && OtpChanged(s, change.value).error == s.error
  {
    var change := OtpInput.HandleChangeText(s.otp, 6, k, [s.otp[k]]);
    assert change.value == s.otp;
  }

  /** `disabled={otp.length !== 6}` on the verify button: every code the validator accepts enables it. */
  predicate VerifyEnabled(s: VerifyState)
    ensures Validation.ValidateOtp(s.otp).isValid ==> VerifyEnabled(s)
  {
    |s.otp| == 6
  }

  // -------------------------------------------------------------- verify

  /**
   * `handleVerifyOTP`: a code the validator rejects only sets its message; otherwise
   * `verifyOTP` runs and its result routes to the tabs or sets the error. A `null`
   * JSON body makes `result.success` throw, which the handler's catch reports.
   */
  function HandleVerifyOtp(s: VerifyState, session: Auth.Session, email: string, outcome: FetchOutcome): (tr: Transition<VerifyState>)
    ensures !Validation.ValidateOtp(s.otp).isValid ==>
      && tr.effects == []
      && tr.state == s.(error := JStr(Validation.ValidateOtp(s.otp).error.value))
    ensures Validation.ValidateOtp(s.otp).isValid ==>
      var result := Auth.RawReply(outcome);
      && |tr.effects| >= 1 && tr.effects[0] == CallVerifyOtp(s.otp, email)
      && !tr.state.isLoading
      && (result != JNull && TruthyOpt(Member(result, "success")) <==> tr.effects == [CallVerifyOtp(s.otp, email), Replace(TabsPath)])
      && (result != JNull && !TruthyOpt(Member(result, "success")) ==>
            tr.effects == [CallVerifyOtp(s.otp, email)]
            && tr.state.error == Or(Member(result, "message"), JStr(InvalidOtpFallback)))
    ensures Validation.ValidateOtp(s.otp).isValid && Auth.RawReply(outcome) == JNull ==>
      tr.state.error == JStr(SomethingWentWrongText) && tr.effects == [CallVerifyOtp(s.otp, email)]
    ensures Validation.ValidateOtp(s.otp).isValid && Auth.RawReply(outcome) != JNull
            && TruthyOpt(Member(Auth.RawReply(outcome), "success")) ==>
      tr.state.error == JStr("")
    ensures tr.session == session
    ensures tr.state.otp == s.otp && tr.state.countdown == s.countdown && tr.state.canResend == s.canResend
    ensures tr.state.isResending == s.isResending
  {
    var validation := Validation.ValidateOtp(s.otp);
    if !validation.isValid then
      Transition(s.(error := JStr(validation.error.value)), session, [])
    else
      var st := Auth.VerifyOtp(session, s.otp, email, outcome);
      var result := st.reply;
      var call := CallVerifyOtp(s.otp, email);
      var done := s.(isLoading := false);
      if result == JNull then
        Transition(done.(error := JStr(SomethingWentWrongText)), st.session, [call])
      else if TruthyOpt(Member(result, "success")) then
        Transition(done.(error := JStr("")), st.session, [call, Replace(TabsPath)])
      else
        Transition(done.(error := Or(Member(result, "message"), JStr(InvalidOtpFallback))), st.session, [call])
  }

  /** Pressing the verify button: nothing happens while the code is not six characters long. */
  function PressVerify(s: VerifyState, session: Auth.Session, email: string, outcome: FetchOutcome): (tr: Transition<VerifyState>)
    ensures !VerifyEnabled(s) ==> tr == Transition(s, session, [])
    ensures VerifyEnabled(s) ==> tr == HandleVerifyOtp(s, session, email, outcome)
  {
    if VerifyEnabled(s) then HandleVerifyOtp(s, session, email, outcome) else Transition(s, session, [])
  }

  /**
   * Through the button, the only validator message the screen can show is the
   * digits-only one: the required and length checks are unreachable.
   */
  lemma ButtonShowsOnlyDigitsMessage(s: VerifyState, session: Auth.Session, email: string, outcome: FetchOutcome)
    requires !Validation.ValidateOtp(s.otp).isValid
    ensures var tr := PressVerify(s, session, email, outcome);
      !CallsAuth(tr.effects)
      && (VerifyEnabled(s) ==> tr.state.error == JStr(Validation.OtpNotNumeric))
      && (!VerifyEnabled(s) ==> tr.state == s)
  {
  }

  /** Six digits typed one per slot from an empty input make a code the screen sends. */
  lemma TypedDigitsAreSent(digits: string, session: Auth.Session, email: string, outcome: FetchOutcome)
    requires |digits| == 6 && AllDigits(digits)
    ensures var s := OtpChanged(Init(), OtpInput.TypeAll("", 0, 6, digits));
      && s.otp == digits
      && PressVerify(s, session, email, outcome).effects[0] == CallVerifyOtp(digits, email)
  {
    OtpInput.TypingAppends("", 6, digits);
    assert "" + digits == digits;
  }

  // -------------------------------------------------------------- resend

  /**
   * `handleResendOTP`, reachable only through the link the screen renders once the
   * countdown has unlocked resending: a success restarts the countdown and empties
   * the code, and the `finally` leaves the sending flag cleared on every path.
   */
  function HandleResendOtp(s: VerifyState, session: Auth.Session, email: string, outcome: FetchOutcome): (tr: Transition<VerifyState>)
    ensures !s.canResend ==> tr == Transition(s, session, [])
    ensures s.canResend ==>
      var result := Auth.RawReply(outcome);
      && |tr.effects| >= 1 && tr.effects[0] == CallResendOtp(email)
      && !tr.state.isResending
      && (result != JNull && TruthyOpt(Member(result, "success")) ==>
            && tr.state.countdown == ResendSeconds && !tr.state.canResend && tr.state.otp == ""
            && tr.state.error == s.error && tr.state.isLoading == s.isLoading
            && tr.effects == [CallResendOtp(email), Alert("Success", JStr(ResentText))])
      && (!(result != JNull && TruthyOpt(Member(result, "success"))) ==>
            && tr.state == s.(isResending := false)
            && |tr.effects| == 2)
      && (result == JNull ==> tr.effects[1] == Alert("Error", JStr(SomethingWentWrongText)))
      && (result != JNull && !TruthyOpt(Member(result, "success")) ==>
            tr.effects[1] == Alert("Error", Or(Member(result, "message"), JStr(ResendFallback))))
    ensures tr.session == session
  {
    if !s.canResend then Transition(s, session, [])
    else
      var st := Auth.ResendOtp(session, email, outcome);
      var result := st.reply;
      var call := CallResendOtp(email);
      var done := s.(isResending := false);
      if result == JNull then
        Transition(done, st.session, [call, Alert("Error", JStr(SomethingWentWrongText))])
      else if TruthyOpt(Member(result, "success")) then
        Transition(done.(countdown := ResendSeconds, canResend := false, otp := ""), st.session,
                   [call, Alert("Success", JStr(ResentText))])
      else
        Transition(done, st.session, [call, Alert("Error", Or(Member(result, "message"), JStr(ResendFallback)))])
  }

  /** The interval never touches the code or the error. */
  lemma {:induction false} TicksKeepCode(s: VerifyState, n: nat)
    ensures Ticks(s, n).otp == s.otp && Ticks(s, n).error == s.error
    decreases n
  {
    if n > 0 {
      TicksKeepCode(Tick(s), n - 1);
    }
  }

  /**
   * After a successful resend the screen is back where it started: the code stays
   * empty, and the resend link comes back exactly 60 seconds later.
   */
  lemma ResendRestartsCountdown(s: VerifyState, session: Auth.Session, email: string, outcome: FetchOutcome, n: nat)
    requires s.canResend
    requires Auth.RawReply(outcome) != JNull && TruthyOpt(Member(Auth.RawReply(outcome), "success"))
    ensures var after := Ticks(HandleResendOtp(s, session, email, outcome).state, n);
      && (after.canResend <==> n >= ResendSeconds)
      && after.countdown == (if n >= ResendSeconds then 0 else ResendSeconds - n)
      && after.otp == ""
  {
    var st := HandleResendOtp(s, session, email, outcome).state;
    CountdownAfter(st, n);
    TicksKeepCode(st, n);
  }
}
