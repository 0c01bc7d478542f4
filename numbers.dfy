/**
 * Number formatting of the front end: decimal rendering of integers, JavaScript's
 * `Math.round`, and the compact delay text of `formatDelay`.
 */
module Numbers {

  import opened Common

  predicate IsDigit(c: char) { '0' <= c <= '9' }

  function DigitChar(d: int): (c: char)
    requires 0 <= d < 10
    ensures IsDigit(c)
  {
    "0123456789"[d]
  }

  function DigitValue(c: char): int
    requires IsDigit(c)
  {
    c as int - '0' as int
  }

  lemma DigitCharValue(d: int)
    requires 0 <= d < 10
    ensures DigitValue(DigitChar(d)) == d
  {
  }

  /** Decimal text of a natural number, without leading zeros (template-string rendering). */
  function NatToString(n: nat): (s: string)
    ensures |s| >= 1 && forall i :: 0 <= i < |s| ==> IsDigit(s[i])
  {
    if n < 10 then [DigitChar(n)] else NatToString(n / 10) + [DigitChar(n % 10)]
  }

  /** Decimal text of an integer: a minus sign before a negative one. */
  function IntToString(n: int): string
  {
    if n < 0 then "-" + NatToString(-n) else NatToString(n)
  }

  /** The value of a string of digits, read left to right. */
  function DigitsValue(s: string): nat
    requires forall i :: 0 <= i < |s| ==> IsDigit(s[i])
  {
    if s == [] then 0 else DigitsValue(s[..|s| - 1]) * 10 + DigitValue(s[|s| - 1])
  }

  /** A non-empty string of digits, read as a number. */
  function ParseNat(s: string): Option<nat>
  {
    if |s| >= 1 && forall i :: 0 <= i < |s| ==> IsDigit(s[i]) then Some(DigitsValue(s)) else None
  }

  lemma {:induction false} NatToStringValue(n: nat)
    ensures DigitsValue(NatToString(n)) == n
  {
    if n < 10 {
      DigitCharValue(n);
    } else {
      var s := NatToString(n);
      assert s[..|s| - 1] == NatToString(n / 10);
      NatToStringValue(n / 10);
      DigitCharValue(n % 10);
    }
  }

  /** Reading back the decimal text gives the number. */
  lemma NatToStringRoundTrip(n: nat)
    ensures ParseNat(NatToString(n)) == Some(n)
  {
    NatToStringValue(n);
  }

  /** The decimal text of an integer: an optional leading minus, then digits only. */
  lemma IntToStringShape(n: int)
    ensures |IntToString(n)| >= 1
    ensures forall i :: 1 <= i < |IntToString(n)| ==> IsDigit(IntToString(n)[i])
    ensures IsDigit(IntToString(n)[0]) <==> n >= 0
  {
  }

  /** Distinct naturals have distinct decimal texts. */
  lemma NatToStringInjective(a: nat, b: nat)
    requires NatToString(a) == NatToString(b)
    ensures a == b
  {
    NatToStringValue(a);
    NatToStringValue(b);
  }

  /** A negative number's text starts with '-', a natural's with a digit. */
  lemma NegativeTextDiffers(a: int, b: int)
    requires a < 0 <= b
    ensures IntToString(a) != IntToString(b)
  {
    assert IntToString(a)[0] == '-';
    assert IsDigit(IntToString(b)[0]);
  }

  /** Distinct integers have distinct decimal texts. */
  lemma IntToStringInjective(a: int, b: int)
    requires IntToString(a) == IntToString(b)
    ensures a == b
  {
    if a < 0 && b < 0 {
      var sa, sb := NatToString(-a), NatToString(-b);
      assert sa == ("-" + sa)[1..];
      assert sb == ("-" + sb)[1..];
      NatToStringInjective(-a, -b);
    } else if a < 0 {
      NegativeTextDiffers(a, b);
      assert false;
    } else if b < 0 {
      NegativeTextDiffers(b, a);
      assert false;
    } else {
      NatToStringInjective(a, b);
    }
  }

  /** `Math.round`: the nearest integer, halves rounded towards +infinity. */
  function Round(x: real): (r: int)
    ensures x - 0.5 < r as real <= x + 0.5
  {
    (x + 0.5).Floor
  }

  function Abs(n: int): nat { if n < 0 then -n else n }

  /**
   * A delay in minutes as a short text: "0", "+7min", "-7min", or hours and
   * unpadded minutes such as "+1h5", with whole hours as "+2h".
   */
  function FormatDelay(delayMinutes: real): string
  {
    FormatRounded(Round(delayMinutes))
  }

  /** The text of an already rounded number of minutes. */
  function FormatRounded(rounded: int): string
  {
    if rounded == 0 then "0"
    else
      var absRounded := Abs(rounded);
      if absRounded >= 60 then
        var hours := absRounded / 60;
        var minutes := absRounded % 60;
        var sign := if rounded > 0 then "+" else "-";
        if minutes == 0 then sign + NatToString(hours) + "h"
        else sign + NatToString(hours) + "h" + NatToString(minutes)
      else if rounded > 0 then "+" + NatToString(rounded) + "min"
      else IntToString(rounded) + "min"
  }

  /** Position of the first `c` in `s`. */
  function IndexOf(s: string, c: char): (r: Option<nat>)
    ensures r.Some? ==> r.value < |s| && s[r.value] == c && c !in s[..r.value]
    ensures r.None? ==> c !in s
  {
    if s == [] then None
    else if s[0] == c then Some(0)
    else match IndexOf(s[1..], c)
      case None => None
      case Some(i) => (assert s[..i + 1] == [s[0]] + s[1..][..i]; Some(i + 1))
  }

  predicate EndsWithMin(s: string) { |s| > 3 && s[|s| - 3..] == "min" }

  /** The magnitude part of a text, after its sign. */
  function ParseMagnitude(s: string): Option<nat>
  {
    if EndsWithMin(s) then ParseNat(s[..|s| - 3]) else ParseHours(s)
  }

  /** Hours, an "h", then optional minutes. */
  function ParseHours(s: string): Option<nat>
  {
    match IndexOf(s, 'h')
    case None => None
    case Some(i) => HoursAndMinutes(ParseNat(s[..i]), s[i + 1..])
  }

  function HoursAndMinutes(hours: Option<nat>, rest: string): Option<nat>
  {
    if hours.None? then None
    else if rest == "" then Some(hours.value * 60)
    else match ParseNat(rest)
      case Some(m) => Some(hours.value * 60 + m)
      case None => None
  }

  /** Reads a text back: the inverse of `FormatDelay` on rounded minutes. */
  function ParseDelay(s: string): Option<int>
  {
    if s == "0" then Some(0)
    else if |s| >= 1 && s[0] == '+' then
      match ParseMagnitude(s[1..])
      case Some(m) => Some(m as int)
      case None => None
    else if |s| >= 1 && s[0] == '-' then
      match ParseMagnitude(s[1..])
      case Some(m) => Some(-(m as int))
      case None => None
    else None
  }

  /** After a run of digits, the first non-digit `c` is the one that ends the run. */
  lemma {:induction false} IndexOfAfterDigits(d: string, c: char, rest: string)
    requires forall i :: 0 <= i < |d| ==> IsDigit(d[i])
    requires !IsDigit(c)
    ensures IndexOf(d + [c] + rest, c) == Some(|d|)
  {
    if d != [] {
      assert (d + [c] + rest)[1..] == d[1..] + [c] + rest;
      IndexOfAfterDigits(d[1..], c, rest);
    }
  }

  /** A label body with an "h" splits at it into hours and minutes. */
  lemma ParseMagnitudeAtH(hs: string, tail: string)
    requires |hs| >= 1 && forall i :: 0 <= i < |hs| ==> IsDigit(hs[i])
    requires tail == [] || IsDigit(tail[|tail| - 1])
    ensures ParseMagnitude(hs + "h" + tail) == HoursAndMinutes(ParseNat(hs), tail)
  {
    var s := hs + "h" + tail;
    assert !EndsWithMin(s) by {
      if tail != "" {
        assert s[|s| - 1] == tail[|tail| - 1];
      } else {
        assert s[|s| - 1] == 'h';
      }
    }
    IndexOfAfterDigits(hs, 'h', tail);
    assert s[..|hs|] == hs && s[|hs| + 1..] == tail;
  }

  lemma HoursRoundTrip(hs: string, tail: string, hours: nat, minutes: nat)
    requires hs == NatToString(hours) && minutes < 60
    requires tail == if minutes == 0 then "" else NatToString(minutes)
    ensures ParseMagnitude(hs + "h" + tail) == Some(hours * 60 + minutes)
  {
    ParseMagnitudeAtH(hs, tail);
    NatToStringRoundTrip(hours);
    if minutes != 0 {
      NatToStringRoundTrip(minutes);
    }
  }

  lemma MinutesRoundTrip(n: nat)
    ensures ParseMagnitude(NatToString(n) + "min") == Some(n)
  {
    var s := NatToString(n) + "min";
    assert s[|s| - 3..] == "min" && s[..|s| - 3] == NatToString(n);
    NatToStringRoundTrip(n);
  }

  /** A sign followed by a readable magnitude reads back as the signed magnitude. */
  lemma SignedRoundTrip(s: string, m: nat)
    requires |s| >= 2 && (s[0] == '+' || s[0] == '-') && ParseMagnitude(s[1..]) == Some(m)
    ensures ParseDelay(s) == Some(if s[0] == '+' then m as int else -(m as int))
  {
  }

  lemma HoursLabelShape(r: int, sign: string, hs: string, tail: string)
    requires Abs(r) >= 60 && sign == (if r > 0 then "+" else "-") && hs == NatToString(Abs(r) / 60)
    requires tail == if Abs(r) % 60 == 0 then "" else NatToString(Abs(r) % 60)
    ensures FormatRounded(r) == sign + (hs + "h" + tail)
  {
    if Abs(r) % 60 == 0 {
      assert hs + "h" + tail == hs + "h";
    }
  }

  lemma HoursLabelRoundTrip(r: int)
    requires Abs(r) >= 60
    ensures ParseDelay(FormatRounded(r)) == Some(r)
  {
    var hs := NatToString(Abs(r) / 60);
    var sign := if r > 0 then "+" else "-";
    var tail := if Abs(r) % 60 == 0 then "" else NatToString(Abs(r) % 60);
    HoursLabelShape(r, sign, hs, tail);
    HoursBodyRoundTrip(Abs(r), hs, tail);
    SignedLabel(r, sign, hs + "h" + tail);
  }

  lemma HoursBodyRoundTrip(a: nat, hs: string, tail: string)
    requires hs == NatToString(a / 60)
    requires tail == if a % 60 == 0 then "" else NatToString(a % 60)
    ensures ParseMagnitude(hs + "h" + tail) == Some(a)
  {
    var h, m := a / 60, a % 60;
    assert h * 60 + m == a;
    HoursRoundTrip(hs, tail, h, m);
  }

  lemma SignedLabel(r: int, sign: string, body: string)
    requires r != 0 && sign == (if r > 0 then "+" else "-") && |body| >= 1
    requires ParseMagnitude(body) == Some(Abs(r))
    ensures ParseDelay(sign + body) == Some(r)
  {
    var text := sign + body;
    assert text[1..] == body;
    SignedRoundTrip(text, Abs(r));
  }

  lemma MinutesLabelRoundTrip(r: int)
    requires 0 < Abs(r) < 60
    ensures ParseDelay(FormatRounded(r)) == Some(r)
  {
    var a := Abs(r);
    var text := FormatRounded(r);
    MinutesRoundTrip(a);
    assert text == (if r > 0 then "+" else "-") + NatToString(a) + "min" by {
      if r < 0 {
        assert text == IntToString(r) + "min";
      }
    }
    assert text[1..] == NatToString(a) + "min";
    SignedRoundTrip(text, a);
  }

  /** A text always reads back as the rounded number of minutes it was made from. */
  lemma FormatDelayRoundTrip(delayMinutes: real)
    ensures ParseDelay(FormatDelay(delayMinutes)) == Some(Round(delayMinutes))
  {
    var r := Round(delayMinutes);
    if Abs(r) >= 60 {
      HoursLabelRoundTrip(r);
    } else if r != 0 {
      MinutesLabelRoundTrip(r);
    }
  }

  /** The text's shape: zero, a signed minute count below one hour, or hours with a sign. */
  lemma FormatDelayShape(delayMinutes: real)
    ensures var r := Round(delayMinutes); var s := FormatDelay(delayMinutes);
      (r == 0 <==> s == "0")
      && (r != 0 ==> |s| >= 2 && (s[0] == '+' <==> r > 0) && (s[0] == '-' <==> r < 0))
      && (0 < Abs(r) < 60 ==> s[|s| - 3..] == "min")
      && (Abs(r) >= 60 ==> 'h' in s && s[|s| - 3..] != "min")
  {
    var r := Round(delayMinutes);
    var s := FormatDelay(delayMinutes);
    if Abs(r) >= 60 {
      var hs := NatToString(Abs(r) / 60);
      var sign := if r > 0 then "+" else "-";
      var tail := if Abs(r) % 60 == 0 then "" else NatToString(Abs(r) % 60);
      assert s == sign + hs + "h" + tail;
      assert s[1 + |hs|] == 'h';
      if tail == "" {
        assert s[|s| - 1] == 'h';
      } else {
        assert s[|s| - 1] == tail[|tail| - 1];
      }
    } else if r > 0 {
      assert s == "+" + NatToString(r) + "min";
    } else if r < 0 {
      assert s == "-" + NatToString(-r) + "min";
    }
  }

  /** Whole hours drop the minutes and minutes are not padded. */
  lemma FormatDelayExamples()
    ensures FormatDelay(120.0) == "+2h"
    ensures FormatDelay(61.0) == "+1h1"
    ensures FormatDelay(-7.4) == "-7min"
    ensures FormatDelay(-0.5) == "0"
  {
    assert Round(120.0) == 120;
    assert Round(61.0) == 61;
    assert Round(-7.4) == -7;
    assert Round(-0.5) == 0;
  }
}
