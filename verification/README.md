# Authentication core of the mobile learning app, in Dafny

This project models the client-side session lifecycle of a React Native app for
an educational platform. It covers:

- the form validators (`utils/validation.ts`);
- the HTTP gateway that attaches a bearer token and folds every reply into one
  response envelope (`services/api.ts`);
- the authentication context that logs in, registers, verifies and resends OTPs,
  requests and performs password resets, logs out, and persists the session in
  secure storage (`contexts/AuthContext.tsx`);
- the one-digit-per-slot OTP input (`components/ui/OTPInput.tsx`);
- the three screens that drive it: sign-in (`app/auth/index.tsx`), registration
  (`app/auth/register.tsx`) and OTP verification (`app/auth/verify-otp.tsx`).

## Structure

| file | module | contents |
|---|---|---|
| `text.dfy` | `Optional`, `Text` | `Option`; character classes (`\d`, `[a-zA-Z]`, the exact `\s` set); decimal printing and reading; `padStart(2, '0')` |
| `json.dfy` | `Json` | JSON values after `JSON.parse`; JavaScript truthiness, property access, `a \|\| b`, `String(v)` |
| `validation.dfy` | `Validation` | the five validators as ordered check lists, and plain readings of their regular expressions |
| `api.dfy` | `Api` | request construction (URL, verb, headers, body) and `Respond`, the envelope for every `fetch` outcome |
| `auth.dfy` | `Auth` | the session (token, user, gateway token, storage entry, loading flag) and every context operation |
| `lifecycle.dfy` | `Lifecycle` | runs of context operations; which operations may change the session |
| `ui.dfy` | `Ui` | screen effects (context calls, navigation, alerts) as values |
| `otp_input.dfy` | `OtpInput` | the split/assign/join edit of the OTP value and focus movement |
| `clock.dfy` | `ClockText` | the `m:ss` clock text: how it is written and read back |
| `verify_otp.dfy` | `VerifyOtpScreen` | countdown, `formatTime`, the verify and resend handlers |
| `register.dfy` | `RegisterScreen` | the form, the error record, `handleRegister` |
| `login.dfy` | `LoginScreen` | `handleLogin` and the remember-me flag |

Everything the code cannot decide by itself is an input:

- `fetch` is an outcome: a transport failure, or a reply with a content type, a
  status and the result of `response.json()`, where a rejection is `None`.
- The secure-storage entry is part of the session. Reading it yields nothing, text
  that `JSON.parse` rejects, or the parsed value.

Every handler is one atomic step. It receives the outcome of its own network call
and returns the new state together with the effects it issued, in order.

Behaviours of the code worth stating:

- A reply that does not declare JSON ends as the generic network error
  ("Network error. Please check your connection."). The `Error('Server response
  was not JSON.')` is thrown inside the same `try` and swallowed by its catch
  (`Api.NonJsonIsNetworkError`).
- `verifyOTP` is a bare `fetch` that returns the parsed body. It never sets a
  token and never writes storage, so an OTP-gated login does not end with a
  persisted session (`Lifecycle.OtpLoginNeverPersists`).
- The sign-in screen always passes its remember-me flag, which starts off. It is
  the only caller of `login` (app/auth/index.tsx:30), so the app never uses the
  default of true (`LoginScreen.ScreenStoresRememberFalse`).
- `storeAuth` writes whatever token and user the login returned. A bundle can
  therefore be stored partially (`Lifecycle.PartialBundleStored`).

Other facts the contracts make explicit:

- Every failed gateway call carries a truthy message. So the screens' fallbacks
  'Invalid credentials' and 'Please try again' are never shown
  (`LoginScreen.LoginFallbackUnreachable`,
  `RegisterScreen.RegisterFallbackUnreachable`).
- The `catch` blocks of `login`, `register` and of the two screens that call
  them cannot be reached.
- `handleVerifyOTP` does reach its catch when the verify endpoint answers with a
  JSON `null`, because reading `result.success` then throws.
- The validator's full-name message says "less than 50 characters", but a
  50-character name is accepted (`Validation.FiftyLetterNameAccepted`).

## Model

| member | source | states |
|---|---|---|
| Validation.FirstFailure | utils/validation.ts:6-17 | an ordered list of checks is valid exactly when every check passes; otherwise the error is the message of the first failing check, and a result carries an error iff it is invalid |
| Validation.EmailPatternIff | utils/validation.ts:11 | the email pattern (three runs of non-space, non-'@' characters joined by '@' and then '.') accepts exactly the strings with no whitespace, one '@' with text before it, and a '.' after it that has text on both sides |
| Validation.ValidateEmail | utils/validation.ts:6-17 | valid iff the pattern matches; the empty string reports 'Email is required', any other mismatch 'Please enter a valid email address' |
| Validation.StripSeparators | utils/validation.ts:25 | the stripped number is no longer than the input and holds no whitespace, '-', '(' or ')' |
| Validation.StripSeparatorsKeeps | utils/validation.ts:24-25 | removing whitespace, '-', '(' and ')' keeps exactly the characters that are not separators |
| Validation.ValidatePhone | utils/validation.ts:19-34 | valid iff the text is non-empty and, without separators, is an optional '+' then 10 to 15 digits not starting with 0; messages for empty and malformed input |
| Validation.ValidPhoneShape | utils/validation.ts:27-28 | an accepted number, once stripped, is 10 to 16 characters long, all digits except possibly a leading '+' |
| Validation.PhoneIgnoresSeparator | utils/validation.ts:24-25 | inserting a separator anywhere into non-empty input changes neither the verdict nor the message |
| Validation.ValidatePassword | utils/validation.ts:36-53 | valid iff at least 8 characters with an ASCII digit and an ASCII letter; the required, too-short and composition messages each in their case |
| Validation.PasswordExtension | utils/validation.ts:41-50 | appending characters to a valid password keeps it valid |
| Validation.ValidateFullName | utils/validation.ts:55-74 | valid iff 2 to 50 characters, all ASCII letters or whitespace; the required, too-short, too-long and character-set messages each in their case |
| Validation.FiftyLetterNameAccepted | utils/validation.ts:64-66 | every name of exactly 50 letters and spaces is accepted, and one more character of any kind gets the too-long message |
| Validation.ValidateOtp | utils/validation.ts:76-91 | valid iff exactly 6 ASCII digits; the required, length and digits-only messages each in their case |
| Text.NatToString | services/api.ts:57 | the decimal form of a status code is non-empty, all digits, one digit exactly for values below 10, and has no leading zero unless the value is 0 |
| Text.ParseNatToString | services/api.ts:57 | printing a number in decimal and reading it back gives the number |
| Text.PadTwo | app/auth/verify-otp.tsx:99 | `padStart(2, '0')` yields two characters from a shorter string, leaves longer ones alone, and ends with its input |
| Text.PaddedDecimal | app/auth/verify-otp.tsx:98-99 | the padded seconds are all digits, read back as the number, and are two characters long below 100 |
| Text.ParseNatCanonical | app/auth/verify-otp.tsx:97-99 | a digit string with no leading zero is exactly how its own value prints |
| Text.PadTwoCanonical | app/auth/verify-otp.tsx:99 | any two digits are the padded decimal form of the number they spell |
| Json.Or | services/api.ts:57 | `a \|\| b` gives `a` when it is truthy and `b` otherwise; a truthy fallback makes the result truthy |
| Json.Envelope | contexts/AuthContext.tsx:159 | a `{ success, message }` literal reads back its two members, with `message` undefined when left out |
| Api.Headers | services/api.ts:28-35 | the header keys are the content type, the caller's keys, and `Authorization` exactly when the token is truthy; caller headers override the content type; the token sets `Bearer <token>` |
| Api.SetAuthToken | services/api.ts:18-20 | the base URL is kept; later requests carry `Authorization: Bearer <token>` exactly when the new token is truthy, and no `Authorization` header otherwise |
| Api.Request | services/api.ts:22-35 | the request goes to the base URL followed by the endpoint, with the caller's verb and body and the merged headers |
| Api.Get | services/api.ts:76-78 | GET with no body and the standard headers |
| Api.Post | services/api.ts:80-85 | POST carrying the data as the body, with the standard headers |
| Api.Put | services/api.ts:87-92 | PUT carrying the data as the body, with the standard headers |
| Api.Delete | services/api.ts:94-96 | DELETE with no body and the standard headers |
| Api.Respond | services/api.ts:37-73 | success iff a reply arrived declaring JSON with a 2xx status and a parsable non-null body; on success the envelope carries the body's `data` (or the body), `message` and `requiresOTP`; on failure there is no data and the message is truthy: for a non-2xx JSON reply the server's own truthy message, else the HTTP status message; every other failure (no reply, a reply not declaring JSON, an unparsable body, a 2xx `null` body) is the network-error envelope |
| Api.NonJsonIsNetworkError | services/api.ts:46-73 | a reply not declaring JSON gives the same envelope as a dropped connection, with the network-error message |
| Api.ClearedTokenSendsNoAuthorization | services/api.ts:18-35 | after `setAuthToken(null)` no verb sends an `Authorization` header |
| Api.TokenSentAsBearer | services/api.ts:33-35 | a non-empty string token is sent as `Bearer ` followed by the token |
| Api.HeaderPrecedence | services/api.ts:28-35 | a caller's content type wins over the default, and the token wins over a caller's `Authorization` |
| Auth.IsAuthenticated | contexts/AuthContext.tsx:42 | an authenticated session has a user and a non-null token, and when its gateway is in step the gateway sends that token |
| Auth.StoredRecord | contexts/AuthContext.tsx:67-78 | the stored entry parses back to the token, the user and the remember flag, with undefined members dropped, and has no other key |
| Auth.LoadStoredAuth | contexts/AuthContext.tsx:48-65 | startup adopts the stored token and user, in session and gateway, exactly when the read resolves, the entry parses and both are truthy; otherwise, a rejected read included, only loading ends; storage is untouched |
| Auth.Login | contexts/AuthContext.tsx:88-112 | posts the credentials to `/api/login`; reports success, message and `requiresOTP`; only a success without `requiresOTP` adopts `data.token` and `data.user` and stores them with the remember flag (true when omitted); every other outcome leaves the session unchanged |
| Auth.RegisterPayload | contexts/AuthContext.tsx:121-126 | the posted body has exactly the keys name, email, phone and password, with the full name sent as `name` |
| Auth.Register | contexts/AuthContext.tsx:114-139 | posts to `/api/register` and never changes the session; a success always asks for an OTP |
| Auth.RawReply | contexts/AuthContext.tsx:151-164 | a reply declaring JSON yields its parsed body whatever the status; a non-JSON reply yields 'Unexpected server response'; a transport failure or an unparsable body yields 'Something went wrong. Please try again.' |
| Auth.RawPost | contexts/AuthContext.tsx:143-149 | the bare `fetch` of the OTP calls posts to the same URL with the same body as the gateway's `post` would, but with only the JSON content type and never a bearer token |
| Auth.VerifyOtp | contexts/AuthContext.tsx:141-165 | posts otp and email to `/api/verify-otp` and leaves the session unchanged |
| Auth.ResendOtp | contexts/AuthContext.tsx:167-191 | posts the email to `/api/resend-otp` and leaves the session unchanged |
| Auth.ResetReply | contexts/AuthContext.tsx:193-207 | as written: success mirrors the gateway, and a failure reports only the fixed fallback |
| Auth.RequestPasswordReset | contexts/AuthContext.tsx:193-207 | posts to `/api/forgot-password`, leaves the session unchanged, succeeds iff the gateway does, and reports 'Failed to send OTP.' on every failure |
| Auth.ResetPassword | contexts/AuthContext.tsx:209-228 | posts email, otp and password to `/api/reset-password`, leaves the session unchanged, and reports 'Password reset failed.' on every failure |
| Auth.ResetReplyIntended | contexts/AuthContext.tsx:193-207 | corrected: a failure reports the server's message, or the fallback when there is none |
| Auth.RequestPasswordResetIntended | contexts/AuthContext.tsx:193-207 | corrected: a failed request reports the gateway's own message |
| Auth.PasswordResetDropsServerMessage | contexts/AuthContext.tsx:193-207 | for a 404 JSON reply saying 'Email not found', the code as written shows 'Failed to send OTP.' and the corrected version shows 'Email not found' |
| Auth.Logout | contexts/AuthContext.tsx:230-241 | posts to `/auth` with the current token, then clears user, token, gateway token and storage whatever the reply |
| Lifecycle.RunKeepsSynced | contexts/AuthContext.tsx:48-241 | in every run of context operations the gateway's token stays equal to the session's token |
| Lifecycle.QuietRunLeavesSession | contexts/AuthContext.tsx:114-228 | a run of registrations, OTP calls, password-reset calls and logins that are OTP-gated or failed leaves the session exactly as it was |
| Lifecycle.OtpLoginNeverPersists | contexts/AuthContext.tsx:92-95 | a login answered with `requiresOTP`, followed by any OTP verification, leaves the session and storage unchanged |
| Lifecycle.StartupAuthenticatedIff | contexts/AuthContext.tsx:42-65 | after startup the user is authenticated iff the read of the entry resolves and storage holds a truthy token and user; loading has ended; a rejected read ends exactly as an absent entry does |
| Lifecycle.LoginSurvivesRestart | contexts/AuthContext.tsx:97-102 | after a direct login, a restart whose read resolves restores the same authentication status, and the same token and user when authenticated; a restart whose read rejects is unauthenticated |
| Lifecycle.LogoutSurvivesRestart | contexts/AuthContext.tsx:230-241 | after logout the user is unauthenticated, and so is the next start of the app, however its read settles |
| Lifecycle.PartialBundleStored | contexts/AuthContext.tsx:97-102 | a direct login without a truthy token still writes an entry, which the next start ignores |
| OtpInput.Assign | components/ui/OTPInput.tsx:22 | assigning inside the array replaces one element; past the end it grows with holes up to the index |
| OtpInput.JoinSplit | components/ui/OTPInput.tsx:21-23 | joining a split value gives the value back |
| OtpInput.SetSlot | components/ui/OTPInput.tsx:21-23 | the edit replaces the slot's character inside the value (an empty text deletes it and shifts the rest), and appends the text at or past the end |
| OtpInput.LastChar | components/ui/OTPInput.tsx:66 | `text.slice(-1)` passes on at most one character: the last one typed, or nothing for empty text |
| OtpInput.HandleChangeText | components/ui/OTPInput.tsx:20-31 | the new value per case (replace, delete, append); focus moves to the next slot iff text was typed and the slot is not the last |
| OtpInput.HandleKeyPress | components/ui/OTPInput.tsx:33-40 | Backspace in an empty slot other than the first moves focus back one slot, and nothing else moves focus |
| OtpInput.Slot | components/ui/OTPInput.tsx:65 | a slot displays at most one character, and is empty exactly at or past the value's end |
| OtpInput.BackspaceFollowsSlots | components/ui/OTPInput.tsx:33-40 | Backspace moves focus back exactly from a slot that displays empty and is not the first; no other key moves focus |
| OtpInput.ClearingShiftsLeft | components/ui/OTPInput.tsx:20-40 | clearing a filled slot keeps focus, shifts the later characters one slot left and empties the last filled slot, so Backspace there moves focus back while Backspace on a still-filled slot does not |
| OtpInput.TypingAppends | components/ui/OTPInput.tsx:20-31 | typing characters one by one into the focused slot, starting at the value's end, appends them all |
| VerifyOtpScreen.Tick | app/auth/verify-otp.tsx:31-43 | one second lowers the count by one, and a count at or below 1 becomes 0 and unlocks resending for good; the code and the error are untouched |
| VerifyOtpScreen.CountdownAfter | app/auth/verify-otp.tsx:31-43 | from a locked count `c`, after `n` seconds the count is `max(c - n, 0)` and resending is unlocked iff `n >= c` |
| VerifyOtpScreen.StaysAtZero | app/auth/verify-otp.tsx:33-37 | once at zero and unlocked, the countdown stays there |
| VerifyOtpScreen.CountdownFromStart | app/auth/verify-otp.tsx:25-43 | from the screen's start the count stays within 0..60, and resending unlocks exactly after 60 seconds |
| VerifyOtpScreen.FormatTime | app/auth/verify-otp.tsx:96-100 | the text reads back, as minutes without a leading zero, a colon and two digits of seconds below 60, as the number of seconds |
| VerifyOtpScreen.ClockCanonical | app/auth/verify-otp.tsx:96-100 | any text that reads back as a count is exactly what `formatTime` prints for it, so `m:ss` has one written form per count |
| ClockText.Clock | app/auth/verify-otp.tsx:97-99 | the template of whole minutes, a colon and seconds padded to two digits reads back as `60 * m + r` |
| ClockText.ParsedClock | app/auth/verify-otp.tsx:97-99 | every text the clock reader accepts is the template of the minutes and seconds it reads as |
| ClockText.OffFormRejected | app/auth/verify-otp.tsx:97-99 | "0:60" and "01:00" are not clock texts: the seconds stay below 60 and the minutes carry no leading zero |
| VerifyOtpScreen.OtpChanged | app/auth/verify-otp.tsx:45-49 | a changed code of six characters clears the error; a code of any other length, or the same code set again, keeps it |
| VerifyOtpScreen.SixthCharacterClearsError | app/auth/verify-otp.tsx:45-49 | typing the sixth character into the input completes a new code, keeps focus on the last slot and clears the error |
| VerifyOtpScreen.RetypedCodeKeepsError | app/auth/verify-otp.tsx:45-49 | retyping a slot of a complete code with the character it shows leaves the code unchanged, so the error stays |
| VerifyOtpScreen.HandleVerifyOtp | app/auth/verify-otp.tsx:51-74 | a code the validator rejects only shows its message; otherwise `verifyOTP` is called and a truthy `success` replaces the route with the tabs; a success also clears the error; a failure shows the server's message or 'Invalid OTP. Please try again.'; a JSON `null` reply shows 'Something went wrong. Please try again.' with no navigation; the session, the code, the countdown and the sending flag are unchanged |
| VerifyOtpScreen.VerifyEnabled | app/auth/verify-otp.tsx:153 | every code the validator accepts enables the verify button |
| VerifyOtpScreen.PressVerify | app/auth/verify-otp.tsx:149-156 | the button does nothing unless the code is six characters long |
| VerifyOtpScreen.ButtonShowsOnlyDigitsMessage | app/auth/verify-otp.tsx:51-56 | through the button an invalid code never calls the context, and the only validator message shown is 'OTP must contain only numbers' |
| VerifyOtpScreen.TypedDigitsAreSent | app/auth/verify-otp.tsx:138-156 | six digits typed into the empty input become the code that the button sends |
| VerifyOtpScreen.HandleResendOtp | app/auth/verify-otp.tsx:76-94 | nothing happens while the countdown still locks the resend link; otherwise `resendOTP` is called, a success restarts the 60-second countdown, empties the code and alerts, keeping the error and the loading flag; a failure leaves the state unchanged and alerts 'Error' with the server's message or 'Failed to resend OTP', or with 'Something went wrong. Please try again.' for a JSON `null` reply; the sending flag ends cleared |
| VerifyOtpScreen.TicksKeepCode | app/auth/verify-otp.tsx:31-43 | the countdown never changes the code or the error |
| VerifyOtpScreen.ResendRestartsCountdown | app/auth/verify-otp.tsx:76-86 | after a successful resend the code stays empty and the link comes back exactly 60 seconds later, the count reading `max(60 - n, 0)` after `n` seconds |
| RegisterScreen.UpdateFormData | app/auth/register.tsx:39-44 | typing sets the field and blanks a shown error for it, without removing the key; other errors and the terms flag are unchanged |
| RegisterScreen.ToggleTerms | app/auth/register.tsx:126 | the checkbox flips the terms flag and leaves the form and the error record alone |
| RegisterScreen.Collect | app/auth/register.tsx:46-69 | the error record has an entry for exactly the failed rules, each holding that rule's message |
| RegisterScreen.ValidateForm | app/auth/register.tsx:46-69 | rule by rule, which fields get an error, stated without the validators, plus mismatched passwords and unaccepted terms |
| RegisterScreen.ValidateFormErrors | app/auth/register.tsx:46-69 | every message a submit records is non-empty, so each one is shown |
| RegisterScreen.FormValidIff | app/auth/register.tsx:46-69 | the error record is empty iff every field rule holds, the passwords match and the terms are accepted |
| RegisterScreen.HandleRegister | app/auth/register.tsx:71-96 | an unacceptable form only updates the error record; otherwise `register` is called, a success opens the OTP screen for the form's email with type 'register', and a failure alerts; the session is unchanged |
| RegisterScreen.RegisterFallbackUnreachable | app/auth/register.tsx:88-90 | a failed registration alerts the gateway's own message, never the fallback |
| RegisterScreen.RegisterSendsForm | app/auth/register.tsx:76-81 | an acceptable form submits a `register` call whose posted body holds the form's name, email, phone and password, and not the confirmation |
| LoginScreen.ToggleRemember | app/auth/index.tsx:78 | the toggle flips the remember flag and leaves email and password alone |
| LoginScreen.HandleLogin | app/auth/index.tsx:22-48 | an empty email or password only raises the validation alert; otherwise `login` is called with the screen's flag, and the screen opens the OTP screen iff the login is OTP-gated, opens the tabs iff it is direct, and otherwise alerts the failure |
| LoginScreen.LoginFallbackUnreachable | app/auth/index.tsx:40-42 | a failed login alerts the gateway's own message and leaves the session unchanged |
| LoginScreen.ScreenStoresRememberFalse | app/auth/index.tsx:19-30 | a direct login from the untouched toggle stores `remember: false` |
| LoginScreen.TabsOnlyWithStoredSession | app/auth/index.tsx:31-39 | when the screen opens the tabs, an entry has been stored, and a restart whose read resolves finds the same authentication status |

## Findings

| source | as written | input that shows it | evidently intended | confidence | as-written member | corrected member |
|---|---|---|---|---|---|---|
| contexts/AuthContext.tsx:193-207 | on a failed request, `response.data` is undefined, so `response.data.message` throws; the catch finds no `error.response` (the gateway never throws one) and reports 'Failed to send OTP.' | a 404 reply with content type `application/json` and body `{"message": "Email not found"}` | report the server's message, falling back to the fixed text only when there is none | not executed | Auth.RequestPasswordReset | Auth.RequestPasswordResetIntended |

`Auth.PasswordResetDropsServerMessage` shows the input above against both members.
`resetPassword` (contexts/AuthContext.tsx:209-228) has the same shape, and
`Auth.ResetPassword` models it as written.

## Left out

- `fetch`, `SecureStore`, `JSON.parse` and `JSON.stringify` are not modelled as code. Their results are inputs: a fetch outcome, a storage entry that is absent, unparsable or parsed, and whether the startup read of that entry resolves or rejects.
- Auth.StoredRecord: a failed storage write or delete is not modelled. Both are caught and only logged, so the model treats them as succeeding.
- `response.text()` rejecting on a non-JSON reply is not modelled. In `request` (services/api.ts:48-51) that makes no difference: both ways end in the same catch with the network-error message.
- Auth.RawReply: its non-JSON clause assumes `response.text()` resolves. In `verifyOTP` and `resendOTP` (contexts/AuthContext.tsx:157, 183) a rejecting `text()` would reach the catch and give 'Something went wrong. Please try again.' instead of 'Unexpected server response'.
- Lengths count Unicode code points, not UTF-16 code units. The two differ only for characters outside the Basic Multilingual Plane.
- JSON numbers are integers. Fractions do not affect any branch of the core.
- The loading flags while a call is in flight (`setLoading(true)`, `setIsLoading(true)`, `setIsResending(true)`) are not modelled. Each handler is one atomic step, so only the final flag value is modelled, and the disabled-while-loading buttons are not modelled either.
- Concurrency between handlers is not modelled. The screens' `async` handlers could interleave, but the model runs them one after another.
- The `setInterval` timer, React hooks, rendering and styles are not modelled. The countdown is modelled as explicit ticks.
- `console` logging is not modelled.
- `handleFocus` (components/ui/OTPInput.tsx:42-48) is not modelled, because it only selects text.
- The initial focus of the first OTP slot is not modelled.
- `useAuth`'s check for a missing provider is not modelled.
- `Button`, `Checkbox`, `SplashScreen`, the forgot-password and reset-password screens, `app/index.tsx`, the layouts, and the configuration and constants files are not part of this model.
- `API_BASE_URL` is a parameter, the gateway's `baseUrl`.
- Navigation back (`router.back()`) and the links between screens are not modelled, because they do not involve the authentication core.
