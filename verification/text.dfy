/** The optional value used wherever the source has `undefined`/`null` or an absent key. */
module Optional {

  datatype Option<+T> = None | Some(value: T) {

    /** The value, or `default` when there is none (a JavaScript default parameter). */
    function GetOr(default: T): T {
      match this
      case Some(v) => v
      case None => default
    }
  }
}

/** Character classes and decimal text shared by the validators, the gateway and the screens. */
module Text {
  import opened Optional

  /** `\d` of a JavaScript regular expression: the ASCII digits only. */
  predicate IsDigit(c: char) {
    '0' <= c <= '9'
  }

  /** `[a-zA-Z]`. */
  predicate IsAsciiLetter(c: char) {
    'a' <= c <= 'z' || 'A' <= c <= 'Z'
  }

  /** `\s` of a JavaScript regular expression: the ECMAScript WhiteSpace and LineTerminator code points. */
  predicate IsSpace(c: char) {
    || c == ' ' || c == '\t' || c == '\n' || c == '\r' || c == '\U{0B}' || c == '\U{0C}'
    || c == '\U{A0}' || c == '\U{1680}' || ('\U{2000}' <= c <= '\U{200A}')
    || c == '\U{2028}' || c == '\U{2029}' || c == '\U{202F}' || c == '\U{205F}'
    || c == '\U{3000}' || c == '\U{FEFF}'
  }

  predicate AllDigits(s: string) {
    forall k | 0 <= k < |s| :: IsDigit(s[k])
  }

  predicate HasDigit(s: string) {
    exists k | 0 <= k < |s| :: IsDigit(s[k])
  }

  predicate HasAsciiLetter(s: string) {
    exists k | 0 <= k < |s| :: IsAsciiLetter(s[k])
  }

  function DigitChar(d: nat): (c: char)
    requires d < 10
    ensures IsDigit(c)
  {
    ('0' as int + d) as char
  }

  function DigitValue(c: char): (d: nat)
    requires IsDigit(c)
    ensures d < 10 && DigitChar(d) == c
  {
    c as int - '0' as int
  }

  /** `String(n)` / a template literal for a non-negative integer: shortest decimal form. */
  function NatToString(n: nat): (s: string)
    ensures 1 <= |s| && AllDigits(s)
    ensures n < 10 <==> |s| == 1
    ensures s[0] == '0' ==> n == 0
    decreases n
  {
    if n < 10 then [DigitChar(n)] else NatToString(n / 10) + [DigitChar(n % 10)]
  }

  /** `String(i)` for any integer: a minus sign before the decimal form of negatives. */
  function IntToString(i: int): (s: string)
    ensures 1 <= |s|
    ensures s[0] == '-' <==> i < 0
  {
    if i < 0 then "-" + NatToString(-i) else NatToString(i)
  }

  /** Reads a string of decimal digits back as a number (the empty string reads as 0). */
  function ParseNat(s: string): nat
    requires AllDigits(s)
  {
    if s == [] then 0 else ParseNat(s[..|s| - 1]) * 10 + DigitValue(s[|s| - 1])
  }

  /** Decimal printing and reading are inverse. */
  lemma {:induction false} ParseNatToString(n: nat)
    ensures ParseNat(NatToString(n)) == n
    decreases n
  {
    var s := NatToString(n);
    if n >= 10 {
      ParseNatToString(n / 10);
      assert s[..|s| - 1] == NatToString(n / 10);
    }
  }

  /** A leading zero does not change the value read. */
  lemma {:induction false} ParseNatLeadingZero(s: string)
    requires AllDigits(s)
    ensures AllDigits("0" + s) && ParseNat("0" + s) == ParseNat(s)
    decreases |s|
  {
    if s != [] {
      var t := "0" + s;
      assert t[..|t| - 1] == "0" + s[..|s| - 1];
      ParseNatLeadingZero(s[..|s| - 1]);
    }
  }

  /** `s.padStart(2, '0')`. */
  function PadTwo(s: string): (r: string)
    ensures |s| < 2 ==> |r| == 2
    ensures |s| >= 2 ==> r == s
    ensures r[|r| - |s|..] == s
  {
    if |s| == 0 then "00" else if |s| == 1 then "0" + s else s
  }

  /** A number printed and padded to two places still reads back as itself. */
  lemma PaddedDecimal(n: nat)
    ensures AllDigits(PadTwo(NatToString(n)))
    ensures ParseNat(PadTwo(NatToString(n))) == n
    ensures n < 100 ==> |PadTwo(NatToString(n))| == 2
  {
    ParseNatToString(n);
    if n < 10 {
      ParseNatLeadingZero(NatToString(n));
    } else if n < 100 {
      assert n / 10 < 10;
    }
  }

  /** Two digits read as ten times the first plus the second. */
  lemma ParseTwoDigits(s: string)
    requires AllDigits(s) && |s| == 2
    ensures ParseNat(s) == 10 * DigitValue(s[0]) + DigitValue(s[1])
  {
    assert s[..1][..0] == [];
    assert ParseNat(s[..1]) == DigitValue(s[0]);
  }

  /** A single digit prints as itself. */
  lemma PrintDigit(d: nat)
    requires d < 10
    ensures NatToString(d) == [DigitChar(d)]
  {
  }

  /** A number of two or more digits prints as its leading part followed by its last digit. */
  lemma PrintAppend(n: nat, q: nat, d: nat)
    requires n == 10 * q + d && 1 <= q && d < 10
    ensures NatToString(n) == NatToString(q) + [DigitChar(d)]
  {
    assert n / 10 == q && n % 10 == d;
  }

  /** Shortest decimal form: digits, at least one, and no leading zero unless the number is 0. */
  predicate Canonical(s: string) {
    AllDigits(s) && s != [] && (|s| == 1 || s[0] != '0')
  }

  /** A canonical decimal is exactly how its own value prints. */
  lemma {:induction false} ParseNatCanonical(s: string)
    requires Canonical(s)
    ensures NatToString(ParseNat(s)) == s
    ensures s[0] != '0' ==> ParseNat(s) >= 1
    decreases |s|
  {
    if |s| == 1 {
      assert s[..0] == [];
      PrintDigit(DigitValue(s[0]));
    } else {
      var p := s[..|s| - 1];
      assert p[0] == s[0];
      ParseNatCanonical(p);
      PrintAppend(ParseNat(s), ParseNat(p), DigitValue(s[|s| - 1]));
      assert s == p + [s[|s| - 1]];
    }
  }

  /** A number below 100 prints, padded, as its tens digit and its units digit. */
  lemma PadTwoDigits(n: nat, high: nat, low: nat)
    requires n == 10 * high + low && high < 10 && low < 10
    ensures PadTwo(NatToString(n)) == [DigitChar(high), DigitChar(low)]
  {
    if high == 0 {
      PrintDigit(n);
    } else {
      PrintAppend(n, high, low);
      PrintDigit(high);
    }
  }

  /** Two digits are exactly the padded decimal form of the number they spell. */
  lemma PadTwoCanonical(s: string)
    requires AllDigits(s) && |s| == 2
    ensures PadTwo(NatToString(ParseNat(s))) == s
  {
    ParseTwoDigits(s);
    PadTwoOf(s, ParseNat(s));
  }

  /** Two digits are the padded decimal form of ten times the first plus the second. */
  lemma PadTwoOf(s: string, n: nat)
    requires AllDigits(s) && |s| == 2
    requires n == 10 * DigitValue(s[0]) + DigitValue(s[1])
    ensures PadTwo(NatToString(n)) == s
  {
    PadTwoDigits(n, DigitValue(s[0]), DigitValue(s[1]));
    assert s == [s[0], s[1]];
  }

  /** The position of the first occurrence of `c` in `s`. */
  function IndexOf(s: string, c: char): (r: Option<nat>)
    ensures r.None? <==> c !in s
    ensures r.Some? ==> r.value < |s| && s[r.value] == c && c !in s[..r.value]
  {
    if s == [] then None
    else if s[0] == c then Some(0)
    else
      match IndexOf(s[1..], c)
      case None => None
      case Some(k) =>
        assert s[..k + 1] == [s[0]] + s[1..][..k];
        Some(k + 1)
  }
}
