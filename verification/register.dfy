/**
 * The registration screen: a five-field form, a terms checkbox, the per-field
 * error map `validateForm` rebuilds on every submit, and `handleRegister`, which
 * calls `register` only for a valid form and routes on its result.
 */
module RegisterScreen {
  import opened Optional
  import opened Json
  import opened Api
  import Validation
  import Text
  import Auth
  import opened Ui

  datatype FormField = FullName | Email | Phone | Password | ConfirmPassword

  /** The keys of the error record: one per form field, and `terms`. */
  datatype ErrorKey = Field(field: FormField) | Terms

  datatype RegisterForm = RegisterForm(
    fullName: string,
    email: string,
    phone: string,
    password: string,
    confirmPassword: string)

  datatype RegisterState = RegisterState(
    form: RegisterForm,
    acceptTerms: bool,
    errors: map<ErrorKey, string>,
    loading: bool)

  const PasswordsDiffer := "Passwords do not match"
  const TermsRequired := "You must accept the terms"
  const FailedTitle := "Registration Failed"
  const FailedFallback := "Please try again"

  function Init(): RegisterState {
    RegisterState(RegisterForm("", "", "", "", ""), false, map[], false)
  }

  function Get(form: RegisterForm, f: FormField): string {
    match f
    case FullName => form.fullName
    case Email => form.email
    case Phone => form.phone
    case Password => form.password
    case ConfirmPassword => form.confirmPassword
  }

  /** `{ ...prev, [key]: value }`. */
  function Set(form: RegisterForm, f: FormField, value: string): (form': RegisterForm)
    ensures Get(form', f) == value
    ensures forall g :: g != f ==> Get(form', g) == Get(form, g)
  {
    match f
    case FullName => form.(fullName := value)
    case Email => form.(email := value)
    case Phone => form.(phone := value)
    case Password => form.(password := value)
    case ConfirmPassword => form.(confirmPassword := value)
  }

  /** `{errors[key] && <Text>{errors[key]}</Text>}`: an absent or empty message shows nothing. */
  predicate Shown(errors: map<ErrorKey, string>, k: ErrorKey) {
    k in errors && errors[k] != ""
  }

  /**
   * `updateFormData`: sets the field, and blanks (does not remove) its error when
   * one is shown. The terms error is not a field and is never touched here.
   */
  function UpdateFormData(s: RegisterState, f: FormField, value: string): (s': RegisterState)
    ensures Get(s'.form, f) == value
    ensures forall g :: g != f ==> Get(s'.form, g) == Get(s.form, g)
    ensures s'.errors.Keys == s.errors.Keys
    ensures !Shown(s'.errors, Field(f))
    ensures forall k | k in s.errors && k != Field(f) :: s'.errors[k] == s.errors[k]
    ensures s'.acceptTerms == s.acceptTerms && s'.loading == s.loading
  {
    var errors := if Shown(s.errors, Field(f)) then s.errors[Field(f) := ""] else s.errors;
    s.(form := Set(s.form, f, value), errors := errors)
  }

  /** The checkbox: flips the flag and leaves a shown terms error in place until the next submit. */
  function ToggleTerms(s: RegisterState): (s': RegisterState)
    ensures s'.acceptTerms == !s.acceptTerms
    ensures s'.errors == s.errors && s'.form == s.form
  {
    s.(acceptTerms := !s.acceptTerms)
  }

  /**
   * The error record from the six rule outcomes: an entry for each failed rule,
   * holding its message, and no other entry.
   */
  function Collect(name: Validation.ValidationResult, email: Validation.ValidationResult,
                   phone: Validation.ValidationResult, password: Validation.ValidationResult,
                   matching: bool, acceptTerms: bool): (errors: map<ErrorKey, string>)
    requires Validation.WellFormed(name) && Validation.WellFormed(email)
    requires Validation.WellFormed(phone) && Validation.WellFormed(password)
    ensures Field(FullName) in errors <==> !name.isValid
    ensures Field(Email) in errors <==> !email.isValid
    ensures Field(Phone) in errors <==> !phone.isValid
    ensures Field(Password) in errors <==> !password.isValid
    ensures Field(ConfirmPassword) in errors <==> !matching
    ensures Terms in errors <==> !acceptTerms
    ensures Field(FullName) in errors ==> Some(errors[Field(FullName)]) == name.error
    ensures Field(Email) in errors ==> Some(errors[Field(Email)]) == email.error
    ensures Field(Phone) in errors ==> Some(errors[Field(Phone)]) == phone.error
    ensures Field(Password) in errors ==> Some(errors[Field(Password)]) == password.error
    ensures Field(ConfirmPassword) in errors ==> errors[Field(ConfirmPassword)] == PasswordsDiffer
    ensures Terms in errors ==> errors[Terms] == TermsRequired
  {
    var e0: map<ErrorKey, string> := map[];
    var e1 := if !name.isValid then e0[Field(FullName) := name.error.value] else e0;
    var e2 := if !email.isValid then e1[Field(Email) := email.error.value] else e1;
    var e3 := if !phone.isValid then e2[Field(Phone) := phone.error.value] else e2;
    var e4 := if !password.isValid then e3[Field(Password) := password.error.value] else e3;
    var e5 := if !matching then e4[Field(ConfirmPassword) := PasswordsDiffer] else e4;
    if !acceptTerms then e5[Terms := TermsRequired] else e5
  }

  /**
   * `validateForm`: which entries a submit records, rule by rule, stated without
   * the validators.
   */
  function ValidateForm(form: RegisterForm, acceptTerms: bool): (errors: map<ErrorKey, string>)
    ensures Field(FullName) in errors <==> !(2 <= |form.fullName| <= 50 && Validation.NameChars(form.fullName))
    ensures Field(Email) in errors <==> !Validation.EmailPattern(form.email)
    ensures Field(Phone) in errors <==>
      !(form.phone != "" && Validation.IsPhoneNumber(Validation.StripSeparators(form.phone)))
    ensures Field(Password) in errors <==>
      !(|form.password| >= 8 && Text.HasDigit(form.password) && Text.HasAsciiLetter(form.password))
    ensures Field(ConfirmPassword) in errors <==> form.password != form.confirmPassword
    ensures Terms in errors <==> !acceptTerms
  {
    Collect(Validation.ValidateFullName(form.fullName), Validation.ValidateEmail(form.email),
            Validation.ValidatePhone(form.phone), Validation.ValidatePassword(form.password),
            form.password == form.confirmPassword, acceptTerms)
  }

  /** Every rule the form must meet before `register` is called, stated without the validators. */
  ghost predicate Acceptable(form: RegisterForm, acceptTerms: bool) {
    && 2 <= |form.fullName| <= 50 && Validation.NameChars(form.fullName)
    && Validation.EmailPattern(form.email)
    && form.phone != "" && Validation.IsPhoneNumber(Validation.StripSeparators(form.phone))
    && |form.password| >= 8 && Text.HasDigit(form.password) && Text.HasAsciiLetter(form.password)
    && form.password == form.confirmPassword
    && acceptTerms
  }

  /** Every message a submit records is non-empty, so each one is shown. */
  lemma ValidateFormErrors(form: RegisterForm, acceptTerms: bool)
    ensures var errors := ValidateForm(form, acceptTerms);
      forall k | k in errors :: Shown(errors, k)
  {
    var errors := ValidateForm(form, acceptTerms);
    forall k | k in errors ensures Shown(errors, k) {
      match k {
        case Terms =>
        case Field(f) =>
          match f {
            case FullName => assert Validation.ValidateFullName(form.fullName).error.value != "";
            case Email => assert Validation.ValidateEmail(form.email).error.value != "";
            case Phone => assert Validation.ValidatePhone(form.phone).error.value != "";
            case Password => assert Validation.ValidatePassword(form.password).error.value != "";
            case ConfirmPassword =>
          }
      }
    }
  }

  /** `Object.keys(newErrors).length === 0` holds exactly for an acceptable form. */
  lemma FormValidIff(form: RegisterForm, acceptTerms: bool)
    ensures ValidateForm(form, acceptTerms) == map[] <==> Acceptable(form, acceptTerms)
  {
    var errors := ValidateForm(form, acceptTerms);
    if !Acceptable(form, acceptTerms) {
      assert exists k :: k in errors;
    }
  }

  function Payload(form: RegisterForm): Auth.RegisterData {
    Auth.RegisterData(form.fullName, form.email, form.phone, form.password)
  }

  /**
   * `handleRegister`: an invalid form only replaces the error record; a valid one
   * calls `register`, then opens the OTP screen for the form's email or alerts the
   * failure. The session is never changed: registering does not sign in.
   */
  function HandleRegister(s: RegisterState, session: Auth.Session, outcome: FetchOutcome): (tr: Transition<RegisterState>)
    ensures tr.state.errors == ValidateForm(s.form, s.acceptTerms)
    ensures tr.state.form == s.form && tr.state.acceptTerms == s.acceptTerms
    ensures tr.session == session
    ensures !Acceptable(s.form, s.acceptTerms) ==> tr.effects == [] && tr.state.loading == s.loading
    ensures Acceptable(s.form, s.acceptTerms) ==>
      && !tr.state.loading
      && |tr.effects| == 2
      && tr.effects[0] == CallRegister(Payload(s.form))
      && (Respond(outcome).success <==> tr.effects[1] == Push(VerifyOtpPath, s.form.email, "register"))
      && (!Respond(outcome).success ==>
            tr.effects[1] == Alert(FailedTitle, Or(Respond(outcome).message, JStr(FailedFallback))))
  {
    var errors := ValidateForm(s.form, s.acceptTerms);
    FormValidIff(s.form, s.acceptTerms);
    if errors != map[] then
      Transition(s.(errors := errors), session, [])
    else
      var data := Payload(s.form);
      var st := Auth.Register(session, data, outcome);
      var next :=
        if st.reply.success then Push(VerifyOtpPath, s.form.email, "register")
        else Alert(FailedTitle, Or(st.reply.message, JStr(FailedFallback)));
      Transition(s.(errors := errors, loading := false), st.session, [CallRegister(data), next])
  }

  /**
   * The `'Please try again'` fallback is never shown: every failed call carries a
   * truthy message, which the alert displays as the gateway produced it.
   */
  lemma RegisterFallbackUnreachable(s: RegisterState, session: Auth.Session, outcome: FetchOutcome)
    requires Acceptable(s.form, s.acceptTerms) && !Respond(outcome).success
    ensures Respond(outcome).message.Some?
    ensures HandleRegister(s, session, outcome).effects[1] == Alert(FailedTitle, Respond(outcome).message.value)
  {
  }

  /**
   * What an acceptable form submits is what `register` posts: the name, email,
   * phone and password typed, and never the confirmation.
   */
  lemma RegisterSendsForm(s: RegisterState, session: Auth.Session, outcome: FetchOutcome)
    requires Acceptable(s.form, s.acceptTerms)
    ensures var call := HandleRegister(s, session, outcome).effects[0];
      && call.CallRegister?
      && var sent := Auth.Register(session, call.data, outcome).sent;
      && sent.body.Some? && sent.body.value.JObj?
      && sent.body.value.fields == map["name" := JStr(s.form.fullName), "email" := JStr(s.form.email),
                                       "phone" := JStr(s.form.phone), "password" := JStr(s.form.password)]
  {
  }
}
