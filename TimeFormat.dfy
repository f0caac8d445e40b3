/** The timetable's clock arithmetic: reading a 24-hour "H:MM" string and
    rendering it on a 12-hour clock with an AM/PM suffix
    (`convertTo12Hour` in src/pages/BusTimetable.jsx). */
module TimeFormat {

  datatype Option<T> = None | Some(value: T)

  predicate IsDigit(c: char) {
    '0' <= c <= '9'
  }

  predicate AllDigits(s: string) {
    forall i :: 0 <= i < |s| ==> IsDigit(s[i])
  }

  function DigitValue(c: char): (d: nat)
    requires IsDigit(c)
    ensures d < 10
  {
    c as int - '0' as int
  }

  function DigitChar(d: nat): (c: char)
    requires d < 10
    ensures IsDigit(c) && DigitValue(c) == d
  {
    ('0' as int + d) as char
  }

  /** The number `parseInt` reads from a string of decimal digits. */
  function DigitsValue(s: string): nat
    requires AllDigits(s)
  {
    if s == [] then 0 else DigitsValue(s[..|s| - 1]) * 10 + DigitValue(s[|s| - 1])
  }

  /** The decimal text of a number, as a template literal renders it. */
  function ShowNat(n: nat): (s: string)
    ensures 1 <= |s| && AllDigits(s)
    ensures DigitsValue(s) == n
    ensures 1 < |s| ==> s[0] != '0'
    ensures n < 10 <==> |s| == 1
  {
    if n < 10 then [DigitChar(n)]
    else
      var p := ShowNat(n / 10);
      assert (p + [DigitChar(n % 10)])[..|p|] == p;
      p + [DigitChar(n % 10)]
  }

  /** The text before the colon of an "H:MM" string. */
  function HourText(s: string): string
    requires 3 <= |s|
  {
    s[..|s| - 3]
  }

  /** The two characters after the colon of an "H:MM" string. */
  function MinuteText(s: string): string
    requires 3 <= |s|
  {
    s[|s| - 2..]
  }

  /** A 24-hour time as the timetable writes it: one or two digits of hour
      (at most 23), a colon, and exactly two digits of minutes. For such a
      string, `split(":")` yields exactly HourText and MinuteText. */
  predicate WellFormed(s: string) {
    (|s| == 4 || |s| == 5) && s[|s| - 3] == ':'
    && AllDigits(HourText(s)) && AllDigits(MinuteText(s))
    && DigitsValue(HourText(s)) <= 23
  }

  datatype Period = AM | PM

  function PeriodText(p: Period): string {
    match p
    case AM => "AM"
    case PM => "PM"
  }

  function PeriodOf(hour: nat): Period {
    if hour >= 12 then PM else AM
  }

  /** The hour as a 12-hour clock face shows it. */
  function Hour12(hour: nat): (h: nat)
    ensures hour <= 23 ==> 1 <= h <= 12
    ensures h % 12 == hour % 12
  {
    if hour == 0 then 12 else if hour > 12 then hour - 12 else hour
  }

  /** Reading a 12-hour clock back as a 24-hour hour: the inverse of the pair
      (Hour12, PeriodOf) on the hours 0..23. */
  function To24(h12: nat, p: Period): (hour: nat)
    ensures 1 <= h12 <= 12 ==> hour <= 23 && Hour12(hour) == h12 && PeriodOf(hour) == p
  {
    match p
    case AM => if h12 == 12 then 0 else h12
    case PM => if h12 == 12 then 12 else h12 + 12
  }

  /** Every hour of the day is recovered from its 12-hour reading. */
  lemma ClockRoundTrip(hour: nat)
    requires hour <= 23
    ensures To24(Hour12(hour), PeriodOf(hour)) == hour
  {
  }

  /** What `convertTo12Hour` returns. */
  datatype Converted = Converted(time: string, hour24: nat, minutes: nat, period: Period)

  function ConvertTo12Hour(s: string): (r: Converted)
    requires WellFormed(s)
    ensures r.hour24 == DigitsValue(HourText(s)) <= 23
    ensures r.minutes == DigitsValue(MinuteText(s)) < 100
    ensures r.period == PM <==> r.hour24 >= 12
    ensures r.time == ShowNat(Hour12(r.hour24)) + ":" + MinuteText(s) + " " + PeriodText(r.period)
  {
    var hour := DigitsValue(HourText(s));
    var period := PeriodOf(hour);
    TwoDigitsBelow100(MinuteText(s));
    Converted(ShowNat(Hour12(hour)) + ":" + MinuteText(s) + " " + PeriodText(period),
              hour, DigitsValue(MinuteText(s)), period)
  }

  lemma TwoDigitsBelow100(s: string)
    requires |s| == 2 && AllDigits(s)
    ensures DigitsValue(s) < 100
  {
    var p := s[..1];
    assert p[..0] == [] && p[0] == s[0];
    assert DigitsValue(p) == DigitValue(s[0]);
  }

  /** Reads a 12-hour display string "h:mm AM" / "h:mm PM" back into the
      24-hour hour and the two minute characters; None when the text does not
      have that shape. */
  function ReadDisplay(t: string): Option<(nat, string)> {
    if |t| < 7 then None
    else
      var n := |t| - 6;
      var suffix := t[n + 4..];
      if AllDigits(t[..n]) && t[n] == ':' && t[n + 3] == ' ' && (suffix == "AM" || suffix == "PM")
      then Some((To24(DigitsValue(t[..n]), if suffix == "AM" then AM else PM), t[n + 1..n + 3]))
      else None
  }

  /** The display string loses nothing of the time: it gives back the hour and
      the minute characters of the input. */
  lemma DisplayRoundTrip(s: string)
    requires WellFormed(s)
    ensures ReadDisplay(ConvertTo12Hour(s).time) == Some((ConvertTo12Hour(s).hour24, MinuteText(s)))
  {
    var r := ConvertTo12Hour(s);
    var d := ShowNat(Hour12(r.hour24));
    var n := |d|;
    var t := r.time;
    assert t == d + ":" + MinuteText(s) + " " + PeriodText(r.period);
    assert |t| == n + 6;
    assert t[..n] == d;
    assert t[n + 1..n + 3] == MinuteText(s);
    assert t[n + 4..] == PeriodText(r.period);
  }

  /** Two well-formed times with the same display string have the same hour
      and the same minutes. */
  lemma DisplayDetermines(s1: string, s2: string)
    requires WellFormed(s1) && WellFormed(s2)
    requires ConvertTo12Hour(s1).time == ConvertTo12Hour(s2).time
    ensures ConvertTo12Hour(s1).hour24 == ConvertTo12Hour(s2).hour24
    ensures MinuteText(s1) == MinuteText(s2)
    ensures ConvertTo12Hour(s1).minutes == ConvertTo12Hour(s2).minutes
  {
    DisplayRoundTrip(s1);
    DisplayRoundTrip(s2);
  }

  /** Worked example: 17:00 is shown as 5 PM. */
  lemma FivePmExample()
    ensures WellFormed("17:00") && ConvertTo12Hour("17:00").time == "5:00 PM"
  {
  }

  /** Worked example: 23:10 is shown as 11:10 PM. */
  lemma LateEveningExample()
    ensures WellFormed("23:10") && ConvertTo12Hour("23:10").time == "11:10 PM"
  {
  }

  /** Worked example: five past midnight is shown as 12:05 AM. */
  lemma MidnightExample()
    ensures WellFormed("0:05") && ConvertTo12Hour("0:05").time == "12:05 AM"
  {
  }
}
