/**
 * The field validators of the sign-up and sign-in forms. Each validator runs an
 * ordered list of checks and reports the message of the first one that fails.
 */
module Validation {
  import opened Optional
  import opened Text

  datatype ValidationResult = ValidationResult(isValid: bool, error: Option<string>)

  /** A valid result carries no error; an invalid one always carries one. */
  predicate WellFormed(r: ValidationResult) {
    r.isValid <==> r.error.None?
  }

  /** One check of a validator: whether it passes, and the message it reports when it is the first to fail. */
  datatype Check = Check(passes: bool, message: string)

  /** Every check of `checks` passes. */
  predicate Passing(checks: seq<Check>) {
    forall j | 0 <= j < |checks| :: checks[j].passes
  }

  /** Runs the checks in order and stops at the first failing one. */
  function FirstFailure(checks: seq<Check>): (r: ValidationResult)
    ensures WellFormed(r)
    ensures r.isValid <==> Passing(checks)
    ensures forall i | 0 <= i < |checks| && !checks[i].passes && Passing(checks[..i]) ::
      r.error == Some(checks[i].message)
  {
    if checks == [] then ValidationResult(true, None)
    else if !checks[0].passes then ValidationResult(false, Some(checks[0].message))
    else
      var r := FirstFailure(checks[1..]);
      ShiftPassing(checks);
      r
  }

  /** Dropping a passing first check shifts every prefix by one. */
  lemma ShiftPassing(checks: seq<Check>)
    requires checks != [] && checks[0].passes
    ensures Passing(checks) <==> Passing(checks[1..])
    ensures forall i | 1 <= i <= |checks| :: Passing(checks[..i]) <==> Passing(checks[1..][..i - 1])
  {
    forall i | 1 <= i <= |checks|
      ensures Passing(checks[..i]) <==> Passing(checks[1..][..i - 1])
    {
      assert checks[1..][..i - 1] == checks[..i][1..];
      assert forall j | 1 <= j < i :: checks[..i][j] == checks[..i][1..][j - 1];
    }
    assert forall j | 1 <= j < |checks| :: checks[j] == checks[1..][j - 1];
  }

  // ---------------------------------------------------------------- email

  const EmailRequired := "Email is required"
  const EmailMalformed := "Please enter a valid email address"

  /** `[^\s@]`. */
  predicate EmailChar(c: char) {
    !IsSpace(c) && c != '@'
  }

  predicate EmailChars(t: string) {
    forall k | 0 <= k < |t| :: EmailChar(t[k])
  }

  /**
   * What `/^[^\s@]+@[^\s@]+\.[^\s@]+$/` matches: three non-empty runs of characters
   * that are neither whitespace nor '@', joined by an '@' and then by a '.'.
   */
  ghost predicate EmailPattern(s: string) {
    exists i, j | 0 < i && i + 1 < j && j + 1 < |s| ::
      && s[i] == '@' && s[j] == '.'
      && EmailChars(s[..i]) && EmailChars(s[i + 1..j]) && EmailChars(s[j + 1..])
  }

  predicate NoSpace(s: string) {
    forall k | 0 <= k < |s| :: !IsSpace(s[k])
  }

  /** `d` has a '.' that is neither its first nor its last character. */
  predicate HasInnerDot(d: string) {
    |d| >= 3 && '.' in d[1..|d| - 1]
  }

  /**
   * The plain reading of the email pattern: no whitespace, exactly one '@' with
   * something before it, and after it a '.' with text on both sides.
   */
  predicate IsEmailAddress(s: string) {
    && NoSpace(s)
    && match IndexOf(s, '@')
       case None => false
       case Some(i) => 0 < i && '@' !in s[i + 1..] && HasInnerDot(s[i + 1..])
  }

  /** Every character of a pattern match except its '@' is an email character. */
  lemma EmailPatternChars(s: string, i: int, j: int)
    requires 0 < i && i + 1 < j && j + 1 < |s| && s[j] == '.'
    requires EmailChars(s[..i]) && EmailChars(s[i + 1..j]) && EmailChars(s[j + 1..])
    ensures forall k | 0 <= k < |s| && k != i :: EmailChar(s[k])
  {
    forall k | 0 <= k < |s| && k != i
      ensures EmailChar(s[k])
    {
      if k < i {
        assert s[k] == s[..i][k];
      } else if i < k < j {
        assert s[k] == s[i + 1..j][k - i - 1];
      } else if j < k {
        assert s[k] == s[j + 1..][k - j - 1];
      }
    }
  }

  /** A string whose only '@' is at `i` has no whitespace, and `i` is its first and last '@'. */
  lemma OnlyAt(s: string, i: nat)
    requires i < |s| && s[i] == '@'
    requires forall k | 0 <= k < |s| && k != i :: EmailChar(s[k])
    ensures NoSpace(s) && IndexOf(s, '@') == Some(i) && '@' !in s[i + 1..]
  {
    assert '@' !in s[..i] by {
      forall k | 0 <= k < i ensures s[..i][k] != '@' { assert s[..i][k] == s[k]; }
    }
    var d := s[i + 1..];
    assert '@' !in d by {
      forall k | 0 <= k < |d| ensures d[k] != '@' { assert d[k] == s[i + 1 + k]; }
    }
  }

  lemma EmailPatternSound(s: string)
    requires EmailPattern(s)
    ensures IsEmailAddress(s)
  {
    var i, j :| 0 < i && i + 1 < j && j + 1 < |s| && s[i] == '@' && s[j] == '.'
      && EmailChars(s[..i]) && EmailChars(s[i + 1..j]) && EmailChars(s[j + 1..]);
    EmailPatternChars(s, i, j);
    OnlyAt(s, i);
    var d := s[i + 1..];
    assert d[1..|d| - 1][j - i - 2] == '.';
  }

  lemma EmailPatternComplete(s: string)
    requires IsEmailAddress(s)
    ensures EmailPattern(s)
  {
    var i := IndexOf(s, '@').value;
    var d := s[i + 1..];
    var m := d[1..|d| - 1];
    var k :| 0 <= k < |m| && m[k] == '.';
    var j := i + 2 + k;
    assert s[j] == '.';
    forall p | 0 <= p < |s| && p != i ensures EmailChar(s[p]) {
      if p < i {
        assert s[p] == s[..i][p];
      } else {
        assert s[p] == d[p - i - 1];
      }
    }
    assert EmailChars(s[..i]);
    assert EmailChars(s[i + 1..j]);
    assert EmailChars(s[j + 1..]);
  }

  /** The regular expression and its plain reading accept the same strings. */
  lemma EmailPatternIff(s: string)
    ensures EmailPattern(s) <==> IsEmailAddress(s)
  {
    if EmailPattern(s) { EmailPatternSound(s); }
    if IsEmailAddress(s) { EmailPatternComplete(s); }
  }

  function EmailChecks(email: string): seq<Check> {
    [ Check(email != "", EmailRequired),
      Check(IsEmailAddress(email), EmailMalformed) ]
  }

  function ValidateEmail(email: string): (r: ValidationResult)
    ensures WellFormed(r)
    ensures r.isValid <==> EmailPattern(email)
    ensures email == "" ==> r.error == Some(EmailRequired)
    ensures email != "" && !EmailPattern(email) ==> r.error == Some(EmailMalformed)
  {
    EmailPatternIff(email);
    var checks := EmailChecks(email);
    assert checks == [checks[0], checks[1]];
    FirstFailure(checks)
  }

  // ---------------------------------------------------------------- phone

  const PhoneRequired := "Phone number is required"
  const PhoneMalformed := "Please enter a valid phone number with country code"

  /** `[\s\-\(\)]`: the characters removed before the phone pattern is applied. */
  predicate Separator(c: char) {
    IsSpace(c) || c == '-' || c == '(' || c == ')'
  }

  /** `phone.replace(/[\s\-\(\)]/g, '')`. */
  function StripSeparators(s: string): (r: string)
    ensures |r| <= |s|
    ensures forall k | 0 <= k < |r| :: !Separator(r[k])
  {
    if s == [] then []
    else (if Separator(s[0]) then [] else [s[0]]) + StripSeparators(s[1..])
  }

  /** Stripping keeps exactly the characters that are not separators. */
  lemma {:induction false} StripSeparatorsKeeps(s: string, c: char)
    ensures c in StripSeparators(s) <==> c in s && !Separator(c)
    decreases |s|
  {
    if s != [] {
      StripSeparatorsKeeps(s[1..], c);
      assert s == [s[0]] + s[1..];
    }
  }

  lemma {:induction false} StripSeparatorsAppend(a: string, b: string)
    ensures StripSeparators(a + b) == StripSeparators(a) + StripSeparators(b)
    decreases |a|
  {
    if a == [] {
      assert a + b == b;
    } else {
      var head := if Separator(a[0]) then [] else [a[0]];
      assert (a + b)[0] == a[0];
      assert (a + b)[1..] == a[1..] + b;
      StripSeparatorsAppend(a[1..], b);
      calc {
        StripSeparators(a + b);
        head + StripSeparators(a[1..] + b);
        head + (StripSeparators(a[1..]) + StripSeparators(b));
        (head + StripSeparators(a[1..])) + StripSeparators(b);
        StripSeparators(a) + StripSeparators(b);
      }
    }
  }

  /** Removing one separator from the raw text does not change the stripped text. */
  lemma StripSeparatorsSkips(a: string, x: char, b: string)
    requires Separator(x)
    ensures StripSeparators(a + [x] + b) == StripSeparators(a + b)
  {
    assert [x][1..] == [];
    assert StripSeparators([x]) == [];
    StripSeparatorsAppend([x], b);
    assert StripSeparators([x] + b) == StripSeparators(b);
    StripSeparatorsAppend(a, [x] + b);
    StripSeparatorsAppend(a, b);
    calc {
      StripSeparators(a + [x] + b);
      { assert a + [x] + b == a + ([x] + b); }
      StripSeparators(a + ([x] + b));
      StripSeparators(a) + StripSeparators([x] + b);
      StripSeparators(a) + StripSeparators(b);
      StripSeparators(a + b);
    }
  }

  /** `[1-9]\d{9,14}`: 10 to 15 digits, the first not zero. */
  predicate PhoneDigits(d: string) {
    10 <= |d| <= 15 && AllDigits(d) && d[0] != '0'
  }

  /** `/^\+?[1-9]\d{9,14}$/`. */
  predicate IsPhoneNumber(c: string) {
    if |c| > 0 && c[0] == '+' then PhoneDigits(c[1..]) else PhoneDigits(c)
  }

  function PhoneChecks(phone: string): seq<Check> {
    [ Check(phone != "", PhoneRequired),
      Check(IsPhoneNumber(StripSeparators(phone)), PhoneMalformed) ]
  }

  function ValidatePhone(phone: string): (r: ValidationResult)
    ensures WellFormed(r)
    ensures r.isValid <==> phone != "" && IsPhoneNumber(StripSeparators(phone))
    ensures phone == "" ==> r.error == Some(PhoneRequired)
    ensures phone != "" && !r.isValid ==> r.error == Some(PhoneMalformed)
  {
    var checks := PhoneChecks(phone);
    assert checks == [checks[0], checks[1]];
    FirstFailure(checks)
  }

  /** A valid phone number, once its separators are gone, is all digits but for one optional leading '+'. */
  lemma ValidPhoneShape(phone: string)
    requires ValidatePhone(phone).isValid
    ensures var c := StripSeparators(phone);
      && 10 <= |c| <= 16
      && forall k | 0 <= k < |c| :: IsDigit(c[k]) || (k == 0 && c[k] == '+')
  {
    var c := StripSeparators(phone);
    if c[0] == '+' {
      assert forall k | 1 <= k < |c| :: c[k] == c[1..][k - 1];
    }
  }

  /** Separators typed anywhere in a non-empty number do not change its verdict or message. */
  lemma PhoneIgnoresSeparator(a: string, x: char, b: string)
    requires Separator(x) && a + b != ""
    ensures ValidatePhone(a + [x] + b) == ValidatePhone(a + b)
  {
    StripSeparatorsSkips(a, x, b);
    assert PhoneChecks(a + [x] + b) == PhoneChecks(a + b);
  }

  // ------------------------------------------------------------- password

  const PasswordRequired := "Password is required"
  const PasswordTooShort := "Password must be at least 8 characters long"
  const PasswordComposition := "Password must contain both letters and numbers"

  function PasswordChecks(password: string): seq<Check> {
    [ Check(password != "", PasswordRequired),
      Check(|password| >= 8, PasswordTooShort),
      Check(HasDigit(password) && HasAsciiLetter(password), PasswordComposition) ]
  }

  function ValidatePassword(password: string): (r: ValidationResult)
    ensures WellFormed(r)
    ensures r.isValid <==> |password| >= 8 && HasDigit(password) && HasAsciiLetter(password)
    ensures password == "" ==> r.error == Some(PasswordRequired)
    ensures 0 < |password| < 8 ==> r.error == Some(PasswordTooShort)
    ensures |password| >= 8 && !r.isValid ==> r.error == Some(PasswordComposition)
  {
    var checks := PasswordChecks(password);
    assert checks == [checks[0], checks[1], checks[2]];
    FirstFailure(checks)
  }

  /** Typing more characters after a valid password keeps it valid. */
  lemma PasswordExtension(password: string, more: string)
    requires ValidatePassword(password).isValid
    ensures ValidatePassword(password + more).isValid
  {
    var p := password + more;
    var d :| 0 <= d < |password| && IsDigit(password[d]);
    var l :| 0 <= l < |password| && IsAsciiLetter(password[l]);
    assert IsDigit(p[d]) && IsAsciiLetter(p[l]);
  }

  // ------------------------------------------------------------ full name

  const NameRequired := "Full name is required"
  const NameTooShort := "Full name must be at least 2 characters long"
  const NameTooLong := "Full name must be less than 50 characters"
  const NameCharacters := "Full name can only contain letters and spaces"

  /** `[a-zA-Z\s]`. */
  predicate NameChar(c: char) {
    IsAsciiLetter(c) || IsSpace(c)
  }

  predicate NameChars(s: string) {
    forall k | 0 <= k < |s| :: NameChar(s[k])
  }

  function FullNameChecks(name: string): seq<Check> {
    [ Check(name != "", NameRequired),
      Check(|name| >= 2, NameTooShort),
      Check(|name| <= 50, NameTooLong),
      Check(NameChars(name), NameCharacters) ]
  }

  function ValidateFullName(name: string): (r: ValidationResult)
    ensures WellFormed(r)
    ensures r.isValid <==> 2 <= |name| <= 50 && NameChars(name)
    ensures name == "" ==> r.error == Some(NameRequired)
    ensures |name| == 1 ==> r.error == Some(NameTooShort)
    ensures |name| > 50 ==> r.error == Some(NameTooLong)
    ensures 2 <= |name| <= 50 && !r.isValid ==> r.error == Some(NameCharacters)
  {
    var checks := FullNameChecks(name);
    assert checks == [checks[0], checks[1], checks[2], checks[3]];
    FirstFailure(checks)
  }

  /**
   * Every well-formed name of exactly 50 characters is accepted, although the
   * message for long names says "less than 50"; one more character of any kind
   * gets that message.
   */
  lemma FiftyLetterNameAccepted(name: string, c: char)
    requires |name| == 50 && NameChars(name)
    ensures ValidateFullName(name).isValid
    ensures ValidateFullName(name + [c]).error == Some(NameTooLong)
  {
  }

  // ------------------------------------------------------------------ OTP

  const OtpRequired := "OTP is required"
  const OtpWrongLength := "OTP must be 6 digits"
  const OtpNotNumeric := "OTP must contain only numbers"

  function OtpChecks(otp: string): seq<Check> {
    [ Check(otp != "", OtpRequired),
      Check(|otp| == 6, OtpWrongLength),
      Check(AllDigits(otp), OtpNotNumeric) ]
  }

  function ValidateOtp(otp: string): (r: ValidationResult)
    ensures WellFormed(r)
    ensures r.isValid <==> |otp| == 6 && AllDigits(otp)
    ensures otp == "" ==> r.error == Some(OtpRequired)
    ensures otp != "" && |otp| != 6 ==> r.error == Some(OtpWrongLength)
    ensures |otp| == 6 && !r.isValid ==> r.error == Some(OtpNotNumeric)
  {
    var checks := OtpChecks(otp);
    assert checks == [checks[0], checks[1], checks[2]];
    FirstFailure(checks)
  }
}
