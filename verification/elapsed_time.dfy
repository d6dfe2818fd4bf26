/**
 * The duration labels shown next to attempts: "h год m хв s сек" (hours
 * form), "m хв s сек" (minutes form) and the "m:ss" clock. Each label is
 * paired with a reader that recovers the number of seconds, which shows
 * that no two durations share a label.
 */
module ElapsedTime {
  import opened Wrappers
  import opened JsText

  /** `Math.floor(seconds / 3600)`, `Math.floor((seconds % 3600) / 60)`, `seconds % 60` */
  function HoursPart(seconds: int): int { seconds / 3600 }
  function MinutesPart(seconds: int): int { JsRem(seconds, 3600) / 60 }
  function SecondsPart(seconds: int): int { JsRem(seconds, 60) }

  /** The three spelled-out label shapes, from their amounts written as text. */
  function HoursLabel(h: string, m: string, s: string): string { Join([h, "год", m, "хв", s, "сек"], " ") }
  function MinutesLabel(m: string, s: string): string { Join([m, "хв", s, "сек"], " ") }
  function SecondsLabel(s: string): string { Join([s, "сек"], " ") }

  /**
   * The hours form: the hour and minute amounts are written only while they
   * are positive. A non-negative duration is recovered from its label, so no
   * two of them share one.
   */
  function FormatElapsed(seconds: int): (r: string)
    ensures seconds >= 0 ==> ParseElapsed(r) == Some(seconds)
  {
    if seconds >= 0 then ReadHoursFormOf(seconds); HoursForm(HoursPart(seconds), MinutesPart(seconds), SecondsPart(seconds))
    else HoursForm(HoursPart(seconds), MinutesPart(seconds), SecondsPart(seconds))
  }

  function HoursForm(h: int, m: int, s: int): string
  {
    if h > 0 then HoursLabel(IntToString(h), IntToString(m), IntToString(s))
    else if m > 0 then MinutesLabel(IntToString(m), IntToString(s))
    else SecondsLabel(IntToString(s))
  }

  /**
   * The minutes form: `Math.floor(seconds / 60)` minutes, written unless they
   * are zero. A non-negative duration is recovered from its label.
   */
  function FormatMinutes(seconds: int): (r: string)
    ensures seconds >= 0 ==> ParseElapsed(r) == Some(seconds)
  {
    if seconds >= 0 then ReadMinutesFormOf(seconds); MinutesForm(seconds / 60, SecondsPart(seconds))
    else MinutesForm(seconds / 60, SecondsPart(seconds))
  }

  function MinutesForm(m: int, s: int): string
  {
    if m != 0 then MinutesLabel(IntToString(m), IntToString(s))
    else SecondsLabel(IntToString(s))
  }

  function ClockLabel(m: int, s: int): string { Join([IntToString(m), PadStart(IntToString(s), 2, '0')], ":") }

  /** The clock form `m:ss`, seconds padded to two digits; a non-negative duration is recovered from it. */
  function FormatClock(seconds: int): (r: string)
    ensures seconds >= 0 ==> ParseClock(r) == Some(seconds)
  {
    if seconds >= 0 then ReadClockOf(seconds); ClockLabel(seconds / 60, SecondsPart(seconds))
    else ClockLabel(seconds / 60, SecondsPart(seconds))
  }

  predicate IsNumeral(t: string) { |t| > 0 && AllDigits(t) }

  /** Reads back a label of either spelled-out form. */
  function ParseElapsed(text: string): Option<int>
  {
    ParseTokens(Split(text, " "))
  }

  function ParseTokens(t: seq<string>): (r: Option<int>)
    ensures r.Some? ==> r.value >= 0
  {
    if |t| == 6 && t[1] == "год" && t[3] == "хв" && t[5] == "сек"
       && IsNumeral(t[0]) && IsNumeral(t[2]) && IsNumeral(t[4]) then
      Some(3600 * DigitsValue(t[0]) + 60 * DigitsValue(t[2]) + DigitsValue(t[4]))
    else if |t| == 4 && t[1] == "хв" && t[3] == "сек" && IsNumeral(t[0]) && IsNumeral(t[2]) then
      Some(60 * DigitsValue(t[0]) + DigitsValue(t[2]))
    else if |t| == 2 && t[1] == "сек" && IsNumeral(t[0]) then
      Some(DigitsValue(t[0]))
    else None
  }

  /** Reads back a clock label. */
  function ParseClock(text: string): Option<int>
  {
    ParseClockTokens(Split(text, ":"))
  }

  function ParseClockTokens(t: seq<string>): (r: Option<int>)
    ensures r.Some? ==> r.value >= 0
  {
    if |t| == 2 && IsNumeral(t[0]) && IsNumeral(t[1]) then
      Some(60 * DigitsValue(t[0]) + DigitsValue(t[1]))
    else None
  }

  lemma NumeralOfNat(n: nat)
    ensures IsNumeral(IntToString(n))
    ensures DigitsValue(IntToString(n)) == n
    ensures ' ' !in IntToString(n) && ':' !in IntToString(n)
  {
    DigitsValueOfNat(n);
  }

  lemma HourSplit(x: int)
    requires x >= 0
    ensures HoursPart(x) >= 0 && 0 <= MinutesPart(x) < 60 && 0 <= SecondsPart(x) < 60
    ensures x == 3600 * HoursPart(x) + 60 * MinutesPart(x) + SecondsPart(x)
  {
    var q := x / 3600;
    var r := x % 3600;
    assert x == 3600 * q + r;
    var k := r / 60;
    assert r == 60 * k + r % 60;
    assert x == 60 * (60 * q + k) + r % 60;
    assert x % 60 == r % 60;
  }

  lemma MinuteSplit(x: int)
    requires x >= 0
    ensures x / 60 >= 0 && 0 <= SecondsPart(x) < 60 && x == 60 * (x / 60) + SecondsPart(x)
  {
  }

  lemma SplitWords(parts: seq<string>)
    requires |parts| >= 1 && forall k :: 0 <= k < |parts| ==> ' ' !in parts[k]
    ensures Split(Join(parts, " "), " ") == parts
  {
    SplitJoin(parts, ' ');
  }

  lemma UnitsHaveNoSpace()
    ensures ' ' !in "год" && ' ' !in "хв" && ' ' !in "сек"
  {
  }

  /** The six words of an hours label read as its three amounts. */
  lemma ReadSixTokens(a: string, c: string, e: string)
    requires IsNumeral(a) && IsNumeral(c) && IsNumeral(e)
    ensures ParseTokens([a, "год", c, "хв", e, "сек"]) == Some(3600 * DigitsValue(a) + 60 * DigitsValue(c) + DigitsValue(e))
  {
  }

  /** An hours label splits into its six words. */
  lemma SplitSix(a: string, c: string, e: string)
    requires ' ' !in a && ' ' !in c && ' ' !in e
    ensures Split(HoursLabel(a, c, e), " ") == [a, "год", c, "хв", e, "сек"]
  {
    UnitsHaveNoSpace();
    SplitWords([a, "год", c, "хв", e, "сек"]);
  }

  /** An hours label reads back as its three amounts. */
  lemma ReadSix(a: string, c: string, e: string)
    requires IsNumeral(a) && IsNumeral(c) && IsNumeral(e)
    requires ' ' !in a && ' ' !in c && ' ' !in e
    ensures ParseElapsed(HoursLabel(a, c, e)) == Some(3600 * DigitsValue(a) + 60 * DigitsValue(c) + DigitsValue(e))
  {
    SplitSix(a, c, e);
    ReadSixTokens(a, c, e);
  }

  /** The four words of a minutes label read as its two amounts. */
  lemma ReadFourTokens(c: string, e: string)
    requires IsNumeral(c) && IsNumeral(e)
    ensures ParseTokens([c, "хв", e, "сек"]) == Some(60 * DigitsValue(c) + DigitsValue(e))
  {
  }

  /** A minutes label splits into its four words. */
  lemma SplitFour(c: string, e: string)
    requires ' ' !in c && ' ' !in e
    ensures Split(MinutesLabel(c, e), " ") == [c, "хв", e, "сек"]
  {
    UnitsHaveNoSpace();
    SplitWords([c, "хв", e, "сек"]);
  }

  /** A minutes label reads back as its two amounts. */
  lemma ReadFour(c: string, e: string)
    requires IsNumeral(c) && IsNumeral(e)
    requires ' ' !in c && ' ' !in e
    ensures ParseElapsed(MinutesLabel(c, e)) == Some(60 * DigitsValue(c) + DigitsValue(e))
  {
    SplitFour(c, e);
    ReadFourTokens(c, e);
  }

  /** The two words of a seconds label read as its amount. */
  lemma ReadTwoTokens(e: string)
    requires IsNumeral(e)
    ensures ParseTokens([e, "сек"]) == Some(DigitsValue(e))
  {
  }

  /** A seconds label splits into its two words. */
  lemma SplitTwo(e: string)
    requires ' ' !in e
    ensures Split(SecondsLabel(e), " ") == [e, "сек"]
  {
    UnitsHaveNoSpace();
    SplitWords([e, "сек"]);
  }

  /** A seconds label reads back as its amount. */
  lemma ReadTwo(e: string)
    requires IsNumeral(e) && ' ' !in e
    ensures ParseElapsed(SecondsLabel(e)) == Some(DigitsValue(e))
  {
    SplitTwo(e);
    ReadTwoTokens(e);
  }

  /*
   * The lemmas below take the label as a parameter `x` equal to the shape, so
   * that each proof mentions the reader applied to a single label.
   */

  lemma ReadHoursLabel(x: string, h: nat, m: nat, s: nat)
    requires x == HoursLabel(IntToString(h), IntToString(m), IntToString(s))
    ensures ParseElapsed(x) == Some(3600 * h + 60 * m + s)
  {
    NumeralOfNat(h);
    NumeralOfNat(m);
    NumeralOfNat(s);
    ReadSix(IntToString(h), IntToString(m), IntToString(s));
  }

  lemma ReadMinutesLabel(x: string, m: nat, s: nat)
    requires x == MinutesLabel(IntToString(m), IntToString(s))
    ensures ParseElapsed(x) == Some(60 * m + s)
  {
    NumeralOfNat(m);
    NumeralOfNat(s);
    ReadFour(IntToString(m), IntToString(s));
  }

  lemma ReadSecondsLabel(x: string, s: nat)
    requires x == SecondsLabel(IntToString(s))
    ensures ParseElapsed(x) == Some(s)
  {
    NumeralOfNat(s);
    ReadTwo(IntToString(s));
  }

  /** Which label each form writes. */
  lemma MinutesFormShape(m: int, s: int)
    ensures m != 0 ==> MinutesForm(m, s) == MinutesLabel(IntToString(m), IntToString(s))
    ensures m == 0 ==> MinutesForm(m, s) == SecondsLabel(IntToString(s))
  {
  }

  lemma HoursFormShape(h: int, m: int, s: int)
    ensures h > 0 ==> HoursForm(h, m, s) == HoursLabel(IntToString(h), IntToString(m), IntToString(s))
    ensures h <= 0 && m > 0 ==> HoursForm(h, m, s) == MinutesLabel(IntToString(m), IntToString(s))
    ensures h <= 0 && m <= 0 ==> HoursForm(h, m, s) == SecondsLabel(IntToString(s))
  {
  }

  lemma ReadMinutesForm(x: string, m: nat, s: nat)
    requires x == MinutesForm(m, s)
    ensures ParseElapsed(x) == Some(60 * m + s)
  {
    MinutesFormShape(m, s);
    if m != 0 {
      ReadMinutesLabel(x, m, s);
    } else {
      ReadSecondsLabel(x, s);
    }
  }

  lemma ReadHoursForm(x: string, h: nat, m: nat, s: nat)
    requires x == HoursForm(h, m, s)
    ensures ParseElapsed(x) == Some(3600 * h + 60 * m + s)
  {
    HoursFormShape(h, m, s);
    if h > 0 {
      ReadHoursLabel(x, h, m, s);
    } else if m > 0 {
      ReadMinutesLabel(x, m, s);
    } else {
      ReadSecondsLabel(x, s);
    }
  }

  /**
   * A negative duration: the minutes form writes the minutes because they are
   * not zero, while the hours form, which wants them positive, leaves them out
   * (`NegativeHoursFormLabel`).
   */
  lemma NegativeMinutesFormLabel()
    ensures FormatMinutes(-30) == "-1 хв -30 сек"
  {
    assert IntToString(-1) == "-1" && IntToString(-30) == "-30";
    assert FormatMinutes(-30) == MinutesLabel("-1", "-30");
  }

  lemma NegativeHoursFormLabel()
    ensures FormatElapsed(-30) == "-30 сек"
  {
    assert IntToString(-30) == "-30";
    assert FormatElapsed(-30) == SecondsLabel("-30");
  }

  lemma {:induction false} DigitsValueLeadingZero(t: string)
    requires AllDigits(t)
    ensures AllDigits(['0'] + t) && DigitsValue(['0'] + t) == DigitsValue(t)
    decreases |t|
  {
    if |t| > 0 {
      var z := ['0'] + t;
      assert z[..|z| - 1] == ['0'] + t[..|t| - 1];
      DigitsValueLeadingZero(t[..|t| - 1]);
    }
  }

  /** A clock label splits into its two amounts. */
  lemma SplitClock(a: string, b: string)
    requires ':' !in a && ':' !in b
    ensures Split(Join([a, b], ":"), ":") == [a, b]
  {
    SplitJoin([a, b], ':');
  }

  /** The two amounts of a clock label read as minutes and seconds. */
  lemma ReadClockTokens(a: string, b: string)
    requires IsNumeral(a) && IsNumeral(b)
    ensures ParseClockTokens([a, b]) == Some(60 * DigitsValue(a) + DigitsValue(b))
  {
  }

  lemma ReadClock(a: string, b: string)
    requires IsNumeral(a) && IsNumeral(b) && ':' !in a && ':' !in b
    ensures ParseClock(Join([a, b], ":")) == Some(60 * DigitsValue(a) + DigitsValue(b))
  {
    SplitClock(a, b);
    ReadClockTokens(a, b);
  }

  /** The seconds amount padded to two digits is still a numeral of the same value. */
  lemma PaddedSeconds(s: nat)
    ensures IsNumeral(PadStart(IntToString(s), 2, '0')) && ':' !in PadStart(IntToString(s), 2, '0')
    ensures DigitsValue(PadStart(IntToString(s), 2, '0')) == s
  {
    NumeralOfNat(s);
    var digits := IntToString(s);
    var padded := PadStart(digits, 2, '0');
    if |digits| < 2 {
      assert padded == ['0'] + digits;
      DigitsValueLeadingZero(digits);
    } else {
      assert padded == digits;
    }
  }

  /** A clock label written from natural amounts reads back as those amounts. */
  lemma ReadClockAmounts(m: nat, s: nat)
    ensures ParseClock(ClockLabel(m, s)) == Some(60 * m + s)
  {
    NumeralOfNat(m);
    PaddedSeconds(s);
    ReadClock(IntToString(m), PadStart(IntToString(s), 2, '0'));
  }

  /** Every non-negative duration is recovered from its hours-form label. */
  lemma {:induction false} ReadHoursFormOf(seconds: int)
    requires seconds >= 0
    ensures ParseElapsed(HoursForm(HoursPart(seconds), MinutesPart(seconds), SecondsPart(seconds))) == Some(seconds)
  {
    HourSplit(seconds);
    ReadHoursForm(HoursForm(HoursPart(seconds), MinutesPart(seconds), SecondsPart(seconds)), HoursPart(seconds), MinutesPart(seconds), SecondsPart(seconds));
  }

  /** Every non-negative duration is recovered from its minutes-form label. */
  lemma {:induction false} ReadMinutesFormOf(seconds: int)
    requires seconds >= 0
    ensures ParseElapsed(MinutesForm(seconds / 60, SecondsPart(seconds))) == Some(seconds)
  {
    MinuteSplit(seconds);
    ReadMinutesForm(MinutesForm(seconds / 60, SecondsPart(seconds)), seconds / 60, SecondsPart(seconds));
  }

  /** Every non-negative duration is recovered from its clock label. */
  lemma {:induction false} ReadClockOf(seconds: int)
    requires seconds >= 0
    ensures ParseClock(ClockLabel(seconds / 60, SecondsPart(seconds))) == Some(seconds)
  {
    MinuteSplit(seconds);
    ReadClockAmounts(seconds / 60, SecondsPart(seconds));
  }
}
