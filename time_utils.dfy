/**
 * The backend's shift time-of-day arithmetic: `calculateEffectiveStartTime`
 * adds a shift's grace minutes to its `HH:MM` start time, wraps past midnight
 * and prints the result as `HH:MM` again.
 */
module TimeUtils {
  import opened Text

  /** Index of the first `:` in `s`, or `|s|` when there is none. */
  function ColonIndex(s: string): (k: nat)
    ensures k <= |s|
    ensures k < |s| ==> s[k] == ':'
  {
    if s == [] then 0
    else if s[0] == ':' then 0
    else 1 + ColonIndex(s[1..])
  }

  /** The first colon of `a + ":" + b` is the one after `a` when `a` has none. */
  lemma {:induction false} ColonAt(a: string, b: string)
    requires forall i :: 0 <= i < |a| ==> a[i] != ':'
    ensures ColonIndex(a + ":" + b) == |a|
  {
    var s := a + ":" + b;
    if a != [] {
      assert s[0] == a[0] && s[1..] == a[1..] + ":" + b;
      ColonAt(a[1..], b);
    }
  }

  /** The second `:`-separated field: from just after the first colon to the next colon or the end. */
  function MinuteField(s: string): string
    requires ColonIndex(s) < |s|
  {
    var rest := s[ColonIndex(s) + 1..];
    rest[..ColonIndex(rest)]
  }

  /**
   * A time text whose first two fields `split(":").map(Number)` reads as whole
   * numbers: each is a run of digits, and an empty one is `Number("")`, that is
   * 0. Any later field is dropped by the destructuring ("08:00", "08:00:00",
   * "8:5", "08:" or "25:99").
   */
  predicate IsTimeText(s: string) {
    var k := ColonIndex(s);
    k < |s| && AllDigits(s[..k]) && AllDigits(MinuteField(s))
  }

  /** The number in the first field. */
  function HoursOf(s: string): nat
    requires IsTimeText(s)
  {
    DigitsValue(s[..ColonIndex(s)])
  }

  /** The number in the second field. */
  function MinutesOf(s: string): nat
    requires IsTimeText(s)
  {
    DigitsValue(MinuteField(s))
  }

  /** `hours * 60 + minutes` of a time text. */
  function TotalMinutes(s: string): nat
    requires IsTimeText(s)
  {
    HoursOf(s) * 60 + MinutesOf(s)
  }

  /**
   * JavaScript's `a % b` for a positive `b`: the remainder of division truncated
   * toward zero, so it takes the sign of `a`.
   */
  function JsRem(a: int, b: int): (r: int)
    requires b > 0
    ensures a >= 0 ==> r == a % b
    ensures a < 0 ==> -b < r <= 0
  {
    if a >= 0 then a % b else -((-a) % b)
  }

  /** The canonical interchange form: two digits, a colon, two digits, a real time of day. */
  predicate IsCanonicalTime(s: string) {
    && |s| == 5 && s[2] == ':'
    && IsDigits(s[..2]) && IsDigits(s[3..])
    && DigitsValue(s[..2]) < 24 && DigitsValue(s[3..]) < 60
  }

  /** Minutes since midnight of a canonical time. */
  function ClockMinutes(s: string): (m: nat)
    requires IsCanonicalTime(s)
    ensures m < 1440
  {
    DigitsValue(s[..2]) * 60 + DigitsValue(s[3..])
  }

  /** The two fields of an `HH:MM` text and their values, digit by digit. */
  lemma ClockFields(s: string)
    requires |s| == 5 && s[2] == ':' && IsDigit(s[0]) && IsDigit(s[1]) && IsDigit(s[3]) && IsDigit(s[4])
    ensures IsDigits(s[..2]) && IsDigits(s[3..])
    ensures DigitsValue(s[..2]) == 10 * (s[0] as int - '0' as int) + (s[1] as int - '0' as int)
    ensures DigitsValue(s[3..]) == 10 * (s[3] as int - '0' as int) + (s[4] as int - '0' as int)
  {
    TwoDigitValue(s[..2]);
    TwoDigitValue(s[3..]);
  }

  /** A digit string holds no colon, so `split(":")` keeps it whole. */
  lemma DigitsHaveNoColon(d: string)
    requires IsDigits(d)
    ensures forall i :: 0 <= i < |d| ==> d[i] != ':'
    ensures ColonIndex(d) == |d|
  {
    assert forall i :: 0 <= i < |d| ==> IsDigit(d[i]);
  }

  /** `split(":")` of `a + ":" + rest`, for an `a` without a colon: `a` is the first field, and the second is read from `rest`. */
  lemma SplitFields(a: string, rest: string)
    requires forall i :: 0 <= i < |a| ==> a[i] != ':'
    ensures var s := a + ":" + rest;
      && ColonIndex(s) == |a| && s[..|a|] == a
      && MinuteField(s) == rest[..ColonIndex(rest)]
  {
    ColonAt(a, rest);
    var s := a + ":" + rest;
    assert s[|a| + 1..] == rest;
    assert s[..|a|] == a;
  }

  /** A canonical time is a time text, read the same way by the general parser. */
  lemma CanonicalIsTimeText(s: string)
    requires IsCanonicalTime(s)
    ensures IsTimeText(s) && TotalMinutes(s) == ClockMinutes(s)
    ensures HoursOf(s) == DigitsValue(s[..2]) && MinutesOf(s) == DigitsValue(s[3..])
  {
    var hh, mm := s[..2], s[3..];
    assert s == hh + ":" + mm;
    DigitsHaveNoColon(hh);
    DigitsHaveNoColon(mm);
    SplitFields(hh, mm);
    assert mm[..|mm|] == mm;
  }

  /** Two digit fields followed by a colon and anything read as those two numbers. */
  lemma TwoFieldsThenTail(hh: string, mm: string, tail: string)
    requires IsDigits(hh) && IsDigits(mm)
    ensures var t := hh + ":" + (mm + ":" + tail);
      IsTimeText(t) && HoursOf(t) == DigitsValue(hh) && MinutesOf(t) == DigitsValue(mm)
  {
    DigitsHaveNoColon(hh);
    DigitsHaveNoColon(mm);
    SplitFields(hh, mm + ":" + tail);
    ColonAt(mm, tail);
    assert (mm + ":" + tail)[..|mm|] == mm;
  }

  /**
   * Fields after the second are dropped: a canonical time followed by a colon
   * and anything (seconds, say) is read as that time.
   */
  lemma LaterFieldsIgnored(s: string, tail: string)
    requires IsCanonicalTime(s)
    ensures IsTimeText(s) && IsTimeText(s + ":" + tail)
    ensures HoursOf(s + ":" + tail) == HoursOf(s) && MinutesOf(s + ":" + tail) == MinutesOf(s)
    ensures TotalMinutes(s + ":" + tail) == TotalMinutes(s)
  {
    CanonicalIsTimeText(s);
    Regroup(s, tail);
    TwoFieldsThenTail(s[..2], s[3..], tail);
  }

  /** Appending to `hh:mm` appends to its minute field. */
  lemma Regroup(s: string, tail: string)
    requires |s| == 5 && s[2] == ':'
    ensures s + ":" + tail == s[..2] + ":" + (s[3..] + ":" + tail)
  {
    assert s == s[..2] + ":" + s[3..];
  }

  /** An empty second field reads as minute 0: `Number("")` is 0. */
  lemma EmptyMinutesReadAsZero(hh: string)
    requires IsDigits(hh)
    ensures IsTimeText(hh + ":") && HoursOf(hh + ":") == DigitsValue(hh) && MinutesOf(hh + ":") == 0
  {
    assert hh + ":" == hh + ":" + "";
    DigitsHaveNoColon(hh);
    SplitFields(hh, "");
  }

  /**
   * The template `${pad(h)}:${pad(m)}`: for values 0..99 two digits of the
   * hour, a colon and two digits of the minute.
   */
  function FormatTime(hours: int, minutes: int): (r: string)
    ensures 0 <= hours < 100 && 0 <= minutes < 100 ==>
      && |r| == 5 && r[2] == ':' && IsDigits(r[..2]) && IsDigits(r[3..])
      && DigitsValue(r[..2]) == hours && DigitsValue(r[3..]) == minutes
  {
    var hh, mm := PadStart2(JsString(hours)), PadStart2(JsString(minutes));
    if 0 <= hours < 100 && 0 <= minutes < 100 then
      TwoDigits(hours);
      TwoDigits(minutes);
      assert (hh + ":" + mm)[..2] == hh && (hh + ":" + mm)[3..] == mm;
      hh + ":" + mm
    else hh + ":" + mm
  }

  /** Printing an in-range hour and minute gives the canonical time of that minute of the day. */
  lemma FormatCanonical(hours: int, minutes: int)
    requires 0 <= hours < 24 && 0 <= minutes < 60
    ensures IsCanonicalTime(FormatTime(hours, minutes))
    ensures ClockMinutes(FormatTime(hours, minutes)) == hours * 60 + minutes
  {
  }

  /** A canonical time is printed back unchanged from its hour and minute. */
  lemma FormatOfCanonical(s: string)
    requires IsCanonicalTime(s)
    ensures FormatTime(ClockMinutes(s) / 60, ClockMinutes(s) % 60) == s
  {
    ClockSplit(s);
    FormatOfDigits(s);
  }

  /** The hour and minute of a canonical time are its two fields. */
  lemma ClockSplit(s: string)
    requires IsCanonicalTime(s)
    ensures ClockMinutes(s) / 60 == DigitsValue(s[..2]) && ClockMinutes(s) % 60 == DigitsValue(s[3..])
  {
    HourAndMinute(DigitsValue(s[..2]), DigitsValue(s[3..]));
  }

  /** The two fields of a canonical time, printed and padded, give the time back. */
  lemma FormatOfDigits(s: string)
    requires IsCanonicalTime(s)
    ensures FormatTime(DigitsValue(s[..2]), DigitsValue(s[3..])) == s
  {
    TwoDigitsRoundTrip(s[..2]);
    TwoDigitsRoundTrip(s[3..]);
    assert s == s[..2] + ":" + s[3..];
  }

  /** Division by 60 splits a minute count back into its hour and minute. */
  lemma HourAndMinute(h: nat, m: nat)
    requires m < 60
    ensures (h * 60 + m) / 60 == h && (h * 60 + m) % 60 == m
  {
  }

  /** Two canonical times that denote the same minute of the day are the same text. */
  lemma CanonicalInjective(s: string, t: string)
    requires IsCanonicalTime(s) && IsCanonicalTime(t)
    requires ClockMinutes(s) == ClockMinutes(t)
    ensures s == t
  {
    FormatOfCanonical(s);
    FormatOfCanonical(t);
  }

  /**
   * The wrap and print steps of `calculateEffectiveStartTime`, from the total
   * minute count on: a total that is not negative ends up as the canonical time
   * of `total mod 1440`.
   */
  function ClockOfTotal(totalMinutes: int): (r: string)
    ensures totalMinutes >= 0 ==> IsCanonicalTime(r) && ClockMinutes(r) == totalMinutes % 1440
  {
    var adjustedMinutes := JsRem(totalMinutes, 24 * 60);
    var adjustedHours := adjustedMinutes / 60;
    var adjustedMins := JsRem(adjustedMinutes, 60);
    FormatTime(adjustedHours, adjustedMins)
  }

  /** `totalMinutes`: the start's minutes since midnight with the grace minutes added. */
  function GraceTotal(startTime: string, graceMinutes: int): int
    requires IsTimeText(startTime)
  {
    TotalMinutes(startTime) + graceMinutes
  }

  /**
   * `calculateEffectiveStartTime(startTime, graceMinutes)`. For any start and a
   * total `hours * 60 + minutes + grace` that is not negative (so for every
   * grace the Shift schema admits) the result is the canonical time of the total
   * modulo 1440.
   */
  function EffectiveStartTime(startTime: string, graceMinutes: int): (r: string)
    requires IsTimeText(startTime)
    ensures GraceTotal(startTime, graceMinutes) >= 0 ==>
      IsCanonicalTime(r) && ClockMinutes(r) == GraceTotal(startTime, graceMinutes) % 1440
  {
    ClockOfTotal(GraceTotal(startTime, graceMinutes))
  }

  /** Equal totals fall on the same minute of the day. */
  lemma RemainderOfEqual(x: int, y: int, c: int)
    requires x == y && y % 1440 == c
    ensures x % 1440 == c
  {
  }

  /** A total whose minute of the day is that of the canonical `t` prints as `t`. */
  lemma ClockOfTotalIs(n: int, t: string)
    requires n >= 0 && IsCanonicalTime(t) && n % 1440 == ClockMinutes(t)
    ensures ClockOfTotal(n) == t
  {
    CanonicalInjective(ClockOfTotal(n), t);
  }

  /** A start whose total plus the grace falls on the minute of the canonical `t` moves to `t`. */
  lemma EffectiveOfTotal(s: string, graceMinutes: nat, t: string)
    requires IsTimeText(s) && IsCanonicalTime(t)
    requires GraceTotal(s, graceMinutes) % 1440 == ClockMinutes(t)
    ensures EffectiveStartTime(s, graceMinutes) == t
  {
    EffectiveIsClockOfTotal(s, graceMinutes);
    ClockOfTotalIs(GraceTotal(s, graceMinutes), t);
  }

  /** The result depends on the start only through its total minute count. */
  lemma EffectiveIsClockOfTotal(s: string, graceMinutes: int)
    requires IsTimeText(s)
    ensures EffectiveStartTime(s, graceMinutes) == ClockOfTotal(GraceTotal(s, graceMinutes))
    ensures GraceTotal(s, graceMinutes) == TotalMinutes(s) + graceMinutes
  {
  }

  /** For a canonical start, the result is the canonical time whose minute of the day is the wrapped sum. */
  lemma EffectiveOfCanonical(s: string, graceMinutes: nat, t: string)
    requires IsCanonicalTime(s) && IsCanonicalTime(t)
    requires (ClockMinutes(s) + graceMinutes) % 1440 == ClockMinutes(t)
    ensures IsTimeText(s) && EffectiveStartTime(s, graceMinutes) == t
  {
    CanonicalIsTimeText(s);
    EffectiveIsClockOfTotal(s, graceMinutes);
    RemainderOfEqual(GraceTotal(s, graceMinutes), ClockMinutes(s) + graceMinutes, ClockMinutes(t));
    EffectiveOfTotal(s, graceMinutes, t);
  }

  /** A seconds field, or any later one, does not move the effective start: "08:00:00" is treated as "08:00". */
  lemma EffectiveIgnoresLaterFields(s: string, tail: string, graceMinutes: nat)
    requires IsCanonicalTime(s)
    ensures IsTimeText(s) && IsTimeText(s + ":" + tail)
    ensures EffectiveStartTime(s + ":" + tail, graceMinutes) == EffectiveStartTime(s, graceMinutes)
  {
    LaterFieldsIgnored(s, tail);
    SameTotalSameEffective(s + ":" + tail, s, graceMinutes);
  }

  /** Two starts read as the same minute count have the same effective start. */
  lemma SameTotalSameEffective(u: string, s: string, graceMinutes: nat)
    requires IsTimeText(u) && IsTimeText(s) && TotalMinutes(u) == TotalMinutes(s)
    ensures EffectiveStartTime(u, graceMinutes) == EffectiveStartTime(s, graceMinutes)
  {
    EffectiveIsClockOfTotal(u, graceMinutes);
    EffectiveIsClockOfTotal(s, graceMinutes);
    assert GraceTotal(u, graceMinutes) == GraceTotal(s, graceMinutes);
  }

  /** The documented example: "06:00" with 60 grace minutes is "07:00". */
  lemma DocExample()
    ensures IsTimeText("06:00") && EffectiveStartTime("06:00", 60) == "07:00"
  {
    var s, t := "06:00", "07:00";
    ClockFields(s);
    ClockFields(t);
    EffectiveOfCanonical(s, 60, t);
  }

  /** A total past midnight wraps: "23:30" with 45 minutes is "00:15". */
  lemma WrapsPastMidnight()
    ensures IsTimeText("23:30") && EffectiveStartTime("23:30", 45) == "00:15"
  {
    var s, t := "23:30", "00:15";
    ClockFields(s);
    ClockFields(t);
    EffectiveOfCanonical(s, 45, t);
  }

  /** A grace longer than a day collapses to a time of day: "06:00" with 1500 minutes is "07:00". */
  lemma WrapsMultipleDays()
    ensures IsTimeText("06:00") && EffectiveStartTime("06:00", 1500) == "07:00"
  {
    var s, t := "06:00", "07:00";
    ClockFields(s);
    ClockFields(t);
    EffectiveOfCanonical(s, 1500, t);
  }

  /** Zero grace gives back a canonical start time unchanged. */
  lemma ZeroGraceIdentity(t: string)
    requires IsCanonicalTime(t)
    ensures IsTimeText(t) && EffectiveStartTime(t, 0) == t
  {
    EffectiveOfCanonical(t, 0, t);
  }

  /** Zero grace puts any time text into canonical form, wrapped into one day. */
  lemma ZeroGraceCanonicalizes(t: string)
    requires IsTimeText(t)
    ensures IsCanonicalTime(EffectiveStartTime(t, 0)) && IsTimeText(EffectiveStartTime(t, 0))
    ensures EffectiveStartTime(EffectiveStartTime(t, 0), 0) == EffectiveStartTime(t, 0)
  {
    ZeroGraceIdentity(EffectiveStartTime(t, 0));
  }

  /** `"00:10"` is read as minute 10 of the day. */
  lemma TenPastMidnight()
    ensures IsTimeText("00:10") && TotalMinutes("00:10") == 10
  {
    var s := "00:10";
    ClockFields(s);
    CanonicalIsTimeText(s);
  }

  /** The JavaScript remainders of -10 keep its sign. */
  lemma RemaindersOfMinusTen()
    ensures JsRem(-10, 1440) == -10 && -10 / 60 == -1 && JsRem(-10, 60) == -10
  {
  }

  /** Hours -1 and minutes -10 print as `"-1:-10"`. */
  lemma FormatOfNegative()
    ensures FormatTime(-1, -10) == "-1:-10"
  {
    assert NatToString(1) == "1";
    assert NatToString(10) == NatToString(1) + [DigitChar(0)];
    assert JsString(-1) == "-1" && JsString(-10) == "-10";
  }

  /**
   * Outside the schema's range the JavaScript remainder does not wrap: "00:10"
   * with a grace of -20 prints "-1:-10".
   */
  lemma NegativeGraceIsNotWrapped()
    ensures IsTimeText("00:10") && EffectiveStartTime("00:10", -20) == "-1:-10"
  {
    TenPastMidnight();
    RemaindersOfMinusTen();
    FormatOfNegative();
  }
}
