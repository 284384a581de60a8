/**
 * The shift dialog's display helper `convertTo12HourArabic`: a 24-hour `HH:MM`
 * shown as a zero-padded 12-hour time followed by an Arabic period marker,
 * `ص` (before noon) or `م` (after noon).
 */
module ShiftTimeModal {
  import opened Text
  import opened TimeUtils

  /** The marker for hours 12 and later. */
  const Evening: char := 'م'
  /** The marker for hours before 12. */
  const Morning: char := 'ص'

  /** `hours % 12 || 12`: the hour on a 12-hour dial. */
  function Dial(hours: nat): (h: nat)
    ensures 1 <= h <= 12
    ensures h % 12 == hours % 12
  {
    if hours % 12 == 0 then 12 else hours % 12
  }

  /** `hours >= 12 ? "م" : "ص"`. */
  function Period(hours: nat): char {
    if hours >= 12 then Evening else Morning
  }

  /** The template `${pad(hours12)}:${pad(minutes)} ${period}`. */
  function Display(hours12: nat, minutes: nat, period: char): (r: string)
    requires 1 <= hours12 <= 12
    ensures |r| >= 7 && r[2] == ':' && r[|r| - 2] == ' ' && r[|r| - 1] == period
    ensures IsDigits(r[..2]) && DigitsValue(r[..2]) == hours12
    ensures r[3..|r| - 2] == PadStart2(NatToString(minutes))
    ensures IsDigits(r[3..|r| - 2]) && DigitsValue(r[3..|r| - 2]) == minutes
  {
    TwoDigits(hours12);
    PadStart2Value(NatToString(minutes));
    var hh, mm := PadStart2(JsString(hours12)), PadStart2(JsString(minutes));
    TemplateShape(hh, mm, period);
    hh + ":" + mm + " " + [period]
  }

  /** Where the fields of the display template sit. */
  lemma TemplateShape(hh: string, mm: string, period: char)
    requires |hh| == 2 && |mm| >= 2
    ensures var r := hh + ":" + mm + " " + [period];
      && |r| >= 7 && r[2] == ':' && r[|r| - 2] == ' ' && r[|r| - 1] == period
      && r[..2] == hh && r[3..|r| - 2] == mm
  {
    var r := hh + ":" + mm + " " + [period];
    assert r[..2] == hh;
    assert r[3..|r| - 2] == mm;
  }

  /** `convertTo12HourArabic(time24)`; the empty string is passed through as empty. */
  function ConvertTo12HourArabic(time24: string): (r: string)
    requires time24 == "" || IsTimeText(time24)
    ensures time24 == "" <==> r == ""
    ensures time24 != "" ==>
      && |r| >= 7 && r[2] == ':' && r[|r| - 2] == ' '
      && r[|r| - 1] == Period(HoursOf(time24))
  {
    if time24 == "" then ""
    else
      var hours := HoursOf(time24);
      var minutes := MinutesOf(time24);
      Display(Dial(hours), minutes, Period(hours))
  }

  /** The shape of a displayed time: two digits, a colon, digits, a space and a period marker. */
  predicate IsDisplay12(d: string) {
    && |d| >= 7 && d[2] == ':' && d[|d| - 2] == ' '
    && IsDigits(d[..2]) && IsDigits(d[3..|d| - 2])
    && (d[|d| - 1] == Evening || d[|d| - 1] == Morning)
  }

  /** The 24-hour hour a displayed time stands for. */
  function Hours24Of(d: string): nat
    requires IsDisplay12(d)
  {
    var h := DigitsValue(d[..2]) % 12;
    if d[|d| - 1] == Evening then h + 12 else h
  }

  /** The minute a displayed time shows. */
  function MinutesOfDisplay(d: string): nat
    requires IsDisplay12(d)
  {
    DigitsValue(d[3..|d| - 2])
  }

  /** A time text is shown as the display of its dial hour, its minute and its period. */
  lemma ConvertIsDisplay(time24: string)
    requires IsTimeText(time24)
    ensures time24 != ""
    ensures ConvertTo12HourArabic(time24) == Display(Dial(HoursOf(time24)), MinutesOf(time24), Period(HoursOf(time24)))
  {
  }

  /**
   * The displayed hour is two digits reading `hours % 12`, except that hours 0
   * and 12 (and 24, ...) read 12; so it is always between 1 and 12.
   */
  lemma DisplayedHour(time24: string)
    requires IsTimeText(time24)
    ensures var r := ConvertTo12HourArabic(time24);
      && IsDigits(r[..2])
      && DigitsValue(r[..2]) == (if HoursOf(time24) % 12 == 0 then 12 else HoursOf(time24) % 12)
      && 1 <= DigitsValue(r[..2]) <= 12
  {
    ConvertIsDisplay(time24);
  }

  /** The minute field is the input's minute value, zero-padded to at least two digits. */
  lemma MinutesCarried(time24: string)
    requires IsTimeText(time24)
    ensures var r := ConvertTo12HourArabic(time24);
      && r[3..|r| - 2] == PadStart2(NatToString(MinutesOf(time24)))
      && IsDigits(r[3..|r| - 2]) && DigitsValue(r[3..|r| - 2]) == MinutesOf(time24)
  {
    ConvertIsDisplay(time24);
  }

  /** Every display has the displayed shape. */
  lemma DisplayShape(hours12: nat, minutes: nat, period: char)
    requires 1 <= hours12 <= 12 && (period == Evening || period == Morning)
    ensures IsDisplay12(Display(hours12, minutes, period))
  {
    var d := Display(hours12, minutes, period);
  }

  /** The dial hour and the period marker give back the hour of the day. */
  lemma DisplayHourBack(hours: nat, minutes: nat)
    requires hours < 24
    ensures IsDisplay12(Display(Dial(hours), minutes, Period(hours)))
    ensures Hours24Of(Display(Dial(hours), minutes, Period(hours))) == hours
  {
    DisplayShape(Dial(hours), minutes, Period(hours));
    var d := Display(Dial(hours), minutes, Period(hours));
    HalfDay(hours);
    assert DigitsValue(d[..2]) % 12 == hours % 12;
    assert d[|d| - 1] == Evening <==> hours >= 12;
  }

  /** A displayed hour of the day and minute read back as that hour and minute. */
  lemma DisplayReadBack(hours: nat, minutes: nat)
    requires hours < 24
    ensures IsDisplay12(Display(Dial(hours), minutes, Period(hours)))
    ensures Hours24Of(Display(Dial(hours), minutes, Period(hours))) == hours
    ensures MinutesOfDisplay(Display(Dial(hours), minutes, Period(hours))) == minutes
  {
    DisplayHourBack(hours, minutes);
  }

  /** The hour of the day past the last noon or midnight. */
  lemma HalfDay(hours: nat)
    requires hours < 24
    ensures hours % 12 == (if hours >= 12 then hours - 12 else hours)
  {
  }

  /** The display of a time of day gives back its 24-hour hour and its minute. */
  lemma DisplayRoundTrip(time24: string)
    requires IsTimeText(time24) && HoursOf(time24) < 24
    ensures IsDisplay12(ConvertTo12HourArabic(time24))
    ensures Hours24Of(ConvertTo12HourArabic(time24)) == HoursOf(time24)
    ensures MinutesOfDisplay(ConvertTo12HourArabic(time24)) == MinutesOf(time24)
  {
    DisplayReadBack(HoursOf(time24), MinutesOf(time24));
  }

  /** Half past twelve on the dial, with either marker. */
  lemma HalfPastTwelve(period: char)
    ensures Display(12, 30, period) == "12:30 " + [period]
  {
    assert NatToString(12) == NatToString(1) + [DigitChar(2)];
    assert NatToString(30) == NatToString(3) + [DigitChar(0)];
  }

  /** A canonical time is shown by the display of its hour and minute fields. */
  lemma ConvertCanonical(s: string)
    requires IsCanonicalTime(s)
    ensures IsTimeText(s)
    ensures ConvertTo12HourArabic(s) == Display(Dial(DigitsValue(s[..2])), DigitsValue(s[3..]), Period(DigitsValue(s[..2])))
  {
    CanonicalIsTimeText(s);
  }

  /** The fields of `"00:30"`. */
  lemma MidnightFields()
    ensures IsCanonicalTime("00:30") && DigitsValue("00:30"[..2]) == 0 && DigitsValue("00:30"[3..]) == 30
  {
    ClockFields("00:30");
  }

  /** The fields of `"12:30"`. */
  lemma NoonFields()
    ensures IsCanonicalTime("12:30") && DigitsValue("12:30"[..2]) == 12 && DigitsValue("12:30"[3..]) == 30
  {
    ClockFields("12:30");
  }

  /** Half past midnight shows as 12 with the morning marker. */
  lemma HalfPastMidnight()
    ensures IsTimeText("00:30") && ConvertTo12HourArabic("00:30") == "12:30 ص"
  {
    MidnightFields();
    ConvertCanonical("00:30");
    HalfPastTwelve(Morning);
  }

  /** Half past noon also shows as 12, told apart from midnight only by the evening marker. */
  lemma HalfPastNoon()
    ensures IsTimeText("12:30") && ConvertTo12HourArabic("12:30") == "12:30 م"
  {
    NoonFields();
    ConvertCanonical("12:30");
    HalfPastTwelve(Evening);
  }

  /** Fields after the minutes are dropped: a canonical time with seconds shows as the time without them. */
  lemma DisplayIgnoresLaterFields(s: string, tail: string)
    requires IsCanonicalTime(s)
    ensures IsTimeText(s) && IsTimeText(s + ":" + tail)
    ensures ConvertTo12HourArabic(s + ":" + tail) == ConvertTo12HourArabic(s)
  {
    LaterFieldsIgnored(s, tail);
  }

  /** Eight o'clock on the dial, before noon. */
  lemma EightOnTheDial()
    ensures Display(8, 0, Morning) == "08:00 ص"
  {
    assert NatToString(8) == [DigitChar(8)] && NatToString(0) == [DigitChar(0)];
  }

  /** `"08:00"` followed by seconds, as a time input may hold it, shows as eight in the morning. */
  lemma EightWithSeconds(seconds: string)
    ensures IsTimeText("08:00" + ":" + seconds) && ConvertTo12HourArabic("08:00" + ":" + seconds) == "08:00 ص"
  {
    var s := "08:00";
    ClockFields(s);
    assert DigitsValue(s[..2]) == 8 && DigitsValue(s[3..]) == 0;
    ConvertCanonical(s);
    assert Dial(8) == 8 && Period(8) == Morning;
    EightOnTheDial();
    DisplayIgnoresLaterFields(s, seconds);
  }
}
