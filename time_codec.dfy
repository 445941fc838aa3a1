/**
 * Time conversions of the media manager: `progressToCMTime` (a progress
 * fraction of a chapter into seconds) and `showStringTime` (seconds into
 * the "M:SS" text the player shows), with the two helpers the formatter
 * is built from.
 *
 * The formatter works on the text of a floating-point number: it prints
 * `seconds / 60`, keeps the characters before the ".", parses them back
 * as the whole minutes, prints the remaining seconds and again keeps the
 * characters before the ".". `DoubleText` models that printing for finite
 * values written in positional notation: an optional "-", the decimal
 * digits of the integer part, ".", and fraction digits.
 */
module TimeCodec {
  import opened Optional

  predicate IsDigit(c: char) {
    '0' <= c <= '9'
  }

  predicate AllDigits(s: string) {
    forall i | 0 <= i < |s| :: IsDigit(s[i])
  }

  function DigitChar(d: int): (c: char)
    requires 0 <= d < 10
    ensures IsDigit(c)
  {
    ('0' as int + d) as char
  }

  function DigitValue(c: char): (d: int)
    requires IsDigit(c)
    ensures 0 <= d < 10
  {
    c as int - '0' as int
  }

  /** The decimal digits of `n`, most significant first, without leading zeros. */
  function Digits(n: nat): (s: string)
    ensures 1 <= |s| && AllDigits(s)
    ensures n < 10 <==> |s| == 1
  {
    if n < 10 then [DigitChar(n)] else Digits(n / 10) + [DigitChar(n % 10)]
  }

  /** The number a string of decimal digits denotes. */
  function DigitsValue(s: string): nat
    requires AllDigits(s)
  {
    if s == [] then 0 else DigitsValue(s[..|s| - 1]) * 10 + DigitValue(s[|s| - 1])
  }

  lemma {:induction false} DigitsRoundTrip(n: nat)
    ensures DigitsValue(Digits(n)) == n
  {
    if n >= 10 {
      DigitsRoundTrip(n / 10);
      var s := Digits(n);
      assert s[..|s| - 1] == Digits(n / 10);
    }
  }

  /** Integer conversion of a floating-point value (`Int(x)`): truncation toward zero. */
  function Truncate(x: real): (n: int)
    ensures 0.0 <= x ==> n as real <= x < n as real + 1.0
    ensures x < 0.0 ==> n as real - 1.0 < x <= n as real
  {
    if x < 0.0 then -((-x).Floor) else x.Floor
  }

  /** Up to `count` decimal digits of a fraction in [0, 1), stopping when nothing is left. */
  function FractionDigits(f: real, count: nat): (s: string)
    requires 0.0 <= f < 1.0
    ensures AllDigits(s)
    decreases count
  {
    if count == 0 || f == 0.0 then ""
    else
      var d := (f * 10.0).Floor;
      [DigitChar(d)] + FractionDigits(f * 10.0 - d as real, count - 1)
  }

  /** The sign and integer digits of the printed form of `x`. */
  function IntegerPartText(x: real): string {
    var magnitude := if x < 0.0 then -x else x;
    (if x < 0.0 then "-" else "") + Digits(magnitude.Floor)
  }

  /** The printed form of a finite `Double` (`String(x)`), always with a "." in it. */
  function DoubleText(x: real): string {
    IntegerPartText(x) + "." + FractionPartText(x)
  }

  /** The digits after the "." of the printed form of `x`: "0" for a whole number. */
  function FractionPartText(x: real): string {
    var magnitude := if x < 0.0 then -x else x;
    var fraction := FractionDigits(magnitude - magnitude.Floor as real, 16);
    if fraction == "" then "0" else fraction
  }

  /** `firstIndex(of:)`: the position of the first occurrence of `c` in `t`. */
  function FirstIndexOf(t: string, c: char): (r: Option<nat>)
    ensures r.Some? ==> r.value < |t| && t[r.value] == c && c !in t[..r.value]
    ensures r.None? ==> c !in t
  {
    if t == [] then None
    else if t[0] == c then Some(0)
    else
      match FirstIndexOf(t[1..], c)
      case None => None
      case Some(k) => Some(k + 1)
  }

  /** The characters of `text` before its first ".", or "" when it has none. */
  function BeforeDot(text: string): string {
    match FirstIndexOf(text, '.')
    case None => ""
    case Some(k) => text[..k]
  }

  /**
   * `Double(text)` on the texts the formatter hands it: an optional "-"
   * followed by decimal digits. Anything else, the empty string in
   * particular, does not parse.
   */
  function ParseWhole(t: string): (r: Option<int>)
    ensures t == "" ==> r.None?
  {
    if 2 <= |t| && t[0] == '-' && AllDigits(t[1..]) then Some(0 - DigitsValue(t[1..]))
    else if 1 <= |t| && AllDigits(t) then Some(DigitsValue(t))
    else None
  }

  /** `getMinutesFromSeconds`. */
  function MinutesText(seconds: real): string {
    BeforeDot(DoubleText(seconds / 60.0))
  }

  /** The padding step of `getSecondsAfterDot`: a single character gets a leading "0". */
  function PadSeconds(num: string): string {
    if |num| == 1 then "0" + num else num
  }

  /** `getSecondsAfterDot`. */
  function SecondsText(seconds: real): string {
    SecondsAfter(seconds, ParseWhole(MinutesText(seconds)))
  }

  /** The seconds text once the minutes text has been parsed (or has failed to parse). */
  function SecondsAfter(seconds: real, minutes: Option<int>): string {
    match minutes
    case None => ""
    case Some(m) => PadSeconds(BeforeDot(DoubleText(seconds - m as real * 60.0)))
  }

  /** `showStringTime`. */
  function TimeText(seconds: real): string {
    MinutesText(seconds) + ":" + SecondsText(seconds)
  }

  /** Reference reading of "M:SS": whole minutes, then the remaining seconds as two digits. */
  function Clock(n: nat): string {
    var secs := n % 60;
    Digits(n / 60) + ":" + [DigitChar(secs / 10), DigitChar(secs % 10)]
  }

  predicate NoDot(s: string) {
    forall i | 0 <= i < |s| :: s[i] != '.'
  }

  lemma {:induction false} FirstDotOfJoin(a: string, b: string)
    requires NoDot(a)
    ensures FirstIndexOf(a + "." + b, '.') == Some(|a|)
  {
    if a != [] {
      var t := a + "." + b;
      assert t[0] == a[0];
      assert t[1..] == a[1..] + "." + b;
      FirstDotOfJoin(a[1..], b);
    }
  }

  lemma BeforeDotOfJoin(a: string, b: string)
    requires NoDot(a)
    ensures BeforeDot(a + "." + b) == a
  {
    FirstDotOfJoin(a, b);
    assert (a + "." + b)[..|a|] == a;
  }

  /** The minutes text (and the seconds text before padding) is the printed integer part. */
  lemma BeforeDotOfDoubleText(x: real)
    ensures BeforeDot(DoubleText(x)) == IntegerPartText(x)
  {
    IntegerPartHasNoDot(x);
    BeforeDotOfJoin(IntegerPartText(x), FractionPartText(x));
  }

  lemma IntegerPartHasNoDot(x: real)
    ensures NoDot(IntegerPartText(x))
  {
    var digits := Digits((if x < 0.0 then -x else x).Floor);
    assert AllDigits(digits);
    assert IntegerPartText(x) == (if x < 0.0 then "-" else "") + digits;
  }

  /** Parsing the printed integer part gives back the truncated value. */
  lemma ParseIntegerPart(x: real)
    ensures ParseWhole(IntegerPartText(x)) == Some(Truncate(x))
  {
    var magnitude := if x < 0.0 then -x else x;
    var digits := Digits(magnitude.Floor);
    DigitsRoundTrip(magnitude.Floor);
    if x < 0.0 {
      var t := "-" + digits;
      assert t[1..] == digits;
    } else {
      assert IntegerPartText(x) == digits;
      assert IsDigit(digits[0]);
    }
  }

  lemma PadTwoDigits(r: nat)
    requires r < 60
    ensures PadSeconds(Digits(r)) == [DigitChar(r / 10), DigitChar(r % 10)]
  {
    if r >= 10 {
      assert Digits(r) == Digits(r / 10) + [DigitChar(r % 10)];
    }
  }

  /** Whole minutes of a non-negative time: the floor of x / 60 is the whole seconds divided by 60. */
  lemma WholeMinutes(x: real)
    requires 0.0 <= x
    ensures (x / 60.0).Floor == x.Floor / 60
  {
    var n := x.Floor;
    var m := (x / 60.0).Floor;
    assert m as real <= x / 60.0 < m as real + 1.0;
    assert m as real * 60.0 <= x < m as real * 60.0 + 60.0;
    assert m * 60 <= n < m * 60 + 60;
  }

  /** What is left after the whole minutes has the whole seconds modulo 60 as its integer part. */
  lemma LeftoverSeconds(x: real, m: int)
    requires 0.0 <= x && m == x.Floor / 60
    ensures 0.0 <= x - m as real * 60.0
    ensures (x - m as real * 60.0).Floor == x.Floor % 60
  {
    var n := x.Floor;
    assert n == m * 60 + n % 60;
    assert (n - m * 60) as real <= x - m as real * 60.0 < (n - m * 60) as real + 1.0;
  }

  /** For a non-negative number of seconds the minutes text is the digits of the whole minutes, and parses back to them. */
  lemma ShowsMinutes(x: real)
    requires 0.0 <= x
    ensures MinutesText(x) == Digits(x.Floor / 60)
    ensures ParseWhole(MinutesText(x)) == Some(x.Floor / 60)
  {
    WholeMinutes(x);
    BeforeDotOfDoubleText(x / 60.0);
    assert IntegerPartText(x / 60.0) == Digits(x.Floor / 60);
    ParseIntegerPart(x / 60.0);
  }

  /** After the whole minutes of a non-negative time, the seconds text is two digits: the whole seconds modulo 60. */
  lemma SecondsAfterWholeMinutes(x: real, m: int)
    requires 0.0 <= x && m == x.Floor / 60
    ensures SecondsAfter(x, Some(m)) == [DigitChar(x.Floor % 60 / 10), DigitChar(x.Floor % 60 % 10)]
  {
    var n := x.Floor;
    LeftoverSeconds(x, m);
    var y := x - m as real * 60.0;
    BeforeDotOfDoubleText(y);
    assert IntegerPartText(y) == Digits(n % 60);
    PadTwoDigits(n % 60);
  }

  /** For a non-negative number of seconds the seconds text is exactly two digits: the whole seconds modulo 60. */
  lemma ShowsSeconds(x: real)
    requires 0.0 <= x
    ensures SecondsText(x) == [DigitChar(x.Floor % 60 / 10), DigitChar(x.Floor % 60 % 10)]
  {
    ShowsMinutes(x);
    SecondsAfterWholeMinutes(x, x.Floor / 60);
  }

  /**
   * For a non-negative number of seconds, `showStringTime` shows the whole
   * minutes, ":", and the remaining whole seconds as exactly two digits.
   */
  lemma ShowsClock(x: real)
    requires 0.0 <= x
    ensures TimeText(x) == Clock(x.Floor)
  {
    ShowsMinutes(x);
    ShowsSeconds(x);
  }

  lemma ClockExamples()
    ensures Clock(0) == "0:00"
    ensures Clock(65) == "1:05"
  {
    assert Digits(1) == "1";
  }

  lemma TimeTextExamples()
    ensures TimeText(0.0) == "0:00"
    ensures TimeText(65.0) == "1:05"
  {
    ShowsClock(0.0);
    ShowsClock(65.0);
    ClockExamples();
  }

  /**
   * A negative position (a chapter-relative time before the chapter's
   * start) is shown with a sign on both parts: -65 seconds reads "-1:-5".
   */
  lemma NegativeSecondsExample()
    ensures TimeText(-65.0) == "-1:-5"
  {
    NegativeMinutesExample();
    NegativeLeftoverExample();
  }

  lemma NegativeMinutesExample()
    ensures MinutesText(-65.0) == "-1"
    ensures ParseWhole(MinutesText(-65.0)) == Some(-1)
  {
    var x := -65.0;
    BeforeDotOfDoubleText(x / 60.0);
    assert (65.0 / 60.0).Floor == 1;
    ParseIntegerPart(x / 60.0);
  }

  lemma NegativeLeftoverExample()
    ensures SecondsAfter(-65.0, Some(-1)) == "-5"
  {
    BeforeDotOfDoubleText(-5.0);
    assert IntegerPartText(-5.0) == "-5";
  }

  /** The minutes text always parses, so the "" branch of `getSecondsAfterDot` is not taken. */
  lemma MinutesAlwaysParse(x: real)
    ensures ParseWhole(MinutesText(x)) == Some(Truncate(x / 60.0))
  {
    BeforeDotOfDoubleText(x / 60.0);
    ParseIntegerPart(x / 60.0);
  }

  /** The loop both helpers of `showStringTime` run: copy the characters before the ".". */
  method CharactersBeforeDot(text: string) returns (num: string)
    ensures num == BeforeDot(text)
  {
    num := "";
    var dotIndex := FirstIndexOf(text, '.');
    if dotIndex.Some? {
      var distance := dotIndex.value;
      var index := 0;
      while index < |text|
        invariant 0 <= index <= |text|
        invariant num == text[..if index < distance then index else distance]
      {
        if index < distance {
          num := num + [text[index]];
        }
        index := index + 1;
      }
    }
  }

  method GetMinutesFromSeconds(number: real) returns (num: string)
    ensures num == MinutesText(number)
  {
    num := CharactersBeforeDot(DoubleText(number / 60.0));
  }

  method GetSecondsAfterDot(number: real) returns (secondsText: string)
    ensures secondsText == SecondsText(number)
  {
    var minutesText := GetMinutesFromSeconds(number);
    var minutes := ParseWhole(minutesText);
    assert minutes == ParseWhole(MinutesText(number));
    if minutes.Some? {
      var secondsInWholeMinutes := minutes.value as real * 60.0;
      var incompleteSeconds := number - secondsInWholeMinutes;
      var num := CharactersBeforeDot(DoubleText(incompleteSeconds));
      assert PadSeconds(num) == SecondsText(number);
      if |num| == 1 {
        num := "0" + num;
      }
      secondsText := num;
    } else {
      secondsText := "";
    }
  }

  method ShowStringTime(seconds: real) returns (text: string)
    ensures text == TimeText(seconds)
    ensures 0.0 <= seconds ==> text == Clock(seconds.Floor)
  {
    var minutesString := GetMinutesFromSeconds(seconds);
    var secondsString := GetSecondsAfterDot(seconds);
    text := minutesString + ":" + secondsString;
    if 0.0 <= seconds {
      ShowsClock(seconds);
    }
  }

  /**
   * `progressToCMTime`: the position `value` of the way through `total`
   * seconds, computed as `total / (1 / value)`. At value 0 the reciprocal is
   * +infinity and the quotient 0.
   */
  function ProgressToSeconds(value: real, total: real): (seconds: real)
    ensures seconds == total * value
    ensures 0.0 <= value && 0.0 <= total ==> 0.0 <= seconds
    ensures 0.0 <= value <= 1.0 && 0.0 <= total ==> 0.0 <= seconds <= total
  {
    if value == 0.0 then 0.0 else total / (1.0 / value)
  }
}
