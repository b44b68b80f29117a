/**
 * The `m:ss` clock the OTP screen shows under the resend link: how minutes and
 * seconds are written, and how such a text reads back.
 */
module ClockText {
  import opened Optional
  import opened Text

  /**
   * The two halves of an `m:ss` clock as `formatTime` writes them: minutes in
   * shortest decimal form, and exactly two digits of seconds below 60.
   */
  predicate ClockParts(mins: string, secs: string) {
    && Canonical(mins)
    && AllDigits(secs) && |secs| == 2 && ParseNat(secs) < 60
  }

  /** Reads an `m:ss` clock back as a number of seconds; anything else reads as nothing. */
  function ParseClock(t: string): Option<nat> {
    match IndexOf(t, ':')
    case None => None
    case Some(i) =>
      if ClockParts(t[..i], t[i + 1..])
      then Some(60 * ParseNat(t[..i]) + ParseNat(t[i + 1..]))
      else None
  }

  /** Clock halves joined by a colon: the colon is the first one, and the two parts come back out. */
  lemma SplitAtColon(mins: string, secs: string, m: nat, r: nat)
    requires ClockParts(mins, secs)
    requires ParseNat(mins) == m && ParseNat(secs) == r
    ensures ParseClock(mins + ":" + secs) == Some(60 * m + r)
  {
    var t := mins + ":" + secs;
    assert t[..|mins|] == mins;
    assert t[|mins| + 1..] == secs;
    assert IndexOf(t, ':') == Some(|mins|);
    assert ClockParts(t[..|mins|], t[|mins| + 1..]);
    assert ParseNat(t[..|mins|]) == ParseNat(mins) && ParseNat(t[|mins| + 1..]) == ParseNat(secs);
  }

  /** The template `${mins}:${padded secs}`: it reads back as `60 * m + r` for any seconds `r < 60`. */
  function Clock(m: nat, r: nat): (t: string)
    requires r < 60
    ensures ParseClock(t) == Some(60 * m + r)
  {
    var mins := NatToString(m);
    var secs := PadTwo(NatToString(r));
    PaddedDecimal(r);
    ParseNatToString(m);
    SplitAtColon(mins, secs, m, r);
    mins + ":" + secs
  }

  /** A clock text has one written form: it is the clock of the minutes and seconds it reads as. */
  lemma ParsedClock(t: string) returns (m: nat, r: nat)
    requires ParseClock(t).Some?
    ensures r < 60 && ParseClock(t) == Some(60 * m + r)
    ensures t == Clock(m, r)
  {
    var mins, secs := ColonSplit(t);
    PartsClock(mins, secs);
    m, r := ParseNat(mins), ParseNat(secs);
  }

  /** A text the reader accepts is its two halves joined at the first colon. */
  lemma ColonSplit(t: string) returns (mins: string, secs: string)
    requires ParseClock(t).Some?
    ensures t == mins + ":" + secs && ClockParts(mins, secs)
    ensures ParseClock(t) == Some(60 * ParseNat(mins) + ParseNat(secs))
  {
    var i := IndexOf(t, ':').value;
    mins, secs := t[..i], t[i + 1..];
    assert t == mins + ":" + secs;
  }

  /** Clock halves as the reader accepts them are exactly the template of the numbers they spell. */
  lemma PartsClock(mins: string, secs: string)
    requires ClockParts(mins, secs)
    ensures Clock(ParseNat(mins), ParseNat(secs)) == mins + ":" + secs
  {
    PadTwoCanonical(secs);
    ParseNatCanonical(mins);
    ClockOfParts(mins, secs, ParseNat(mins), ParseNat(secs));
  }

  lemma ClockOfParts(mins: string, secs: string, m: nat, r: nat)
    requires r < 60 && NatToString(m) == mins && PadTwo(NatToString(r)) == secs
    ensures Clock(m, r) == mins + ":" + secs
  {
  }

  /** Seconds past 59 and minutes with a leading zero are not clock texts. */
  lemma OffFormRejected()
    ensures ParseClock("0:60") == None
    ensures ParseClock("01:00") == None
  {
    assert IndexOf("0:60", ':') == Some(1);
    assert "0:60"[2..] == "60";
    assert IndexOf("01:00", ':') == Some(2);
    assert "01:00"[..2] == "01";
    ParseTwoDigits("60");
  }
}
