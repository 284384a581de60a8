/**
 * The kiosk's attendance arithmetic, shared by the live page and its mock
 * duplicate. Instants are integer milliseconds; a shift's start and end are the
 * instants `new Date(`${today}T${time}`)` denotes on the day of the scan.
 */
module Attendance {
  import opened Wrappers
  import opened Text

  const MsPerMinute: int := 60000

  /** `Math.floor(ms / 60000)`: the whole minutes in a span, rounded down (also for a negative span). */
  function WholeMinutes(ms: int): (m: int)
    ensures m * MsPerMinute <= ms < m * MsPerMinute + MsPerMinute
  {
    ms / MsPerMinute
  }

  /** The floor of a span is the only integer that brackets it. */
  lemma WholeMinutesUnique(ms: int, m: int)
    requires m * MsPerMinute <= ms < m * MsPerMinute + MsPerMinute
    ensures WholeMinutes(ms) == m
  {
  }

  /** `shiftStart + (grace_minutes ?? 0) * 60000`: the last instant that still counts as on time. */
  function GraceEnd(shiftStart: int, grace: Option<int>): int {
    shiftStart + grace.GetOr(0) * MsPerMinute
  }

  /** `now > graceEnd`: strictly after the end of the grace period. */
  predicate IsLate(now: int, shiftStart: int, grace: Option<int>) {
    now > GraceEnd(shiftStart, grace)
  }

  /**
   * `isLate ? Math.floor((now - shiftStart) / 60000) : 0`. A late scan is
   * charged from the nominal start, not from the end of the grace period, so it
   * is charged at least the grace minutes.
   */
  function LateMinutes(now: int, shiftStart: int, grace: Option<int>): (r: int)
    ensures !IsLate(now, shiftStart, grace) ==> r == 0
    ensures IsLate(now, shiftStart, grace) ==>
      r * MsPerMinute <= now - shiftStart < r * MsPerMinute + MsPerMinute
    ensures IsLate(now, shiftStart, grace) ==> r >= grace.GetOr(0)
  {
    if IsLate(now, shiftStart, grace) then
      var r := WholeMinutes(now - shiftStart);
      assert grace.GetOr(0) * MsPerMinute < r * MsPerMinute + MsPerMinute;
      r
    else 0
  }

  /** With a grace that is not negative, late minutes are never negative. */
  lemma LateMinutesNonNegative(now: int, shiftStart: int, grace: Option<int>)
    requires grace.GetOr(0) >= 0
    ensures LateMinutes(now, shiftStart, grace) >= 0
  {
  }

  /** A scan exactly at the end of the grace period is on time; one millisecond later it is late by the grace minutes. */
  lemma GraceBoundary(shiftStart: int, grace: Option<int>)
    ensures !IsLate(GraceEnd(shiftStart, grace), shiftStart, grace)
    ensures LateMinutes(GraceEnd(shiftStart, grace), shiftStart, grace) == 0
    ensures IsLate(GraceEnd(shiftStart, grace) + 1, shiftStart, grace)
    ensures LateMinutes(GraceEnd(shiftStart, grace) + 1, shiftStart, grace) == grace.GetOr(0)
  {
    WholeMinutesUnique(grace.GetOr(0) * MsPerMinute + 1, grace.GetOr(0));
  }

  /** A missing grace counts as zero: late exactly when the scan is after the nominal start. */
  lemma NoGraceMeansStart(now: int, shiftStart: int)
    ensures IsLate(now, shiftStart, None) <==> now > shiftStart
    ensures IsLate(now, shiftStart, None) <==> IsLate(now, shiftStart, Some(0))
  {
  }

  /**
   * A negative grace (the column type admits one) makes a scan before the start
   * late, with a negative number of late minutes.
   */
  lemma NegativeGraceChargesEarlyScan()
    ensures IsLate(-MsPerMinute, 0, Some(-5)) && LateMinutes(-MsPerMinute, 0, Some(-5)) == -1
  {
    WholeMinutesUnique(-MsPerMinute, -1);
  }

  /**
   * `Math.floor((shiftEnd - shiftStart) / 60000)` on the same date: no overnight
   * correction, so a shift that ends before it starts is scheduled a negative time.
   */
  function ScheduledMinutes(shiftStart: int, shiftEnd: int): (r: int)
    ensures shiftEnd >= shiftStart ==> r >= 0
    ensures shiftEnd < shiftStart ==> r < 0
    ensures r * MsPerMinute <= shiftEnd - shiftStart < r * MsPerMinute + MsPerMinute
  {
    WholeMinutes(shiftEnd - shiftStart)
  }

  /** `Math.floor((now - checkIn) / 60000)`: the whole minutes since check-in. */
  function ActualMinutes(checkIn: int, now: int): (r: int)
    ensures now >= checkIn ==> r >= 0
    ensures r * MsPerMinute <= now - checkIn < r * MsPerMinute + MsPerMinute
  {
    WholeMinutes(now - checkIn)
  }

  /** `Math.max(0, scheduled - actual)`: the scheduled minutes not worked, never negative. */
  function LostMinutes(scheduled: int, actual: int): (r: int)
    ensures r >= 0 && r >= scheduled - actual
    ensures r == 0 || r == scheduled - actual
  {
    if scheduled - actual > 0 then scheduled - actual else 0
  }

  /** Lost and worked minutes together cover the schedule; exactly, when no overtime was worked. */
  lemma LostCoversSchedule(scheduled: int, actual: int)
    ensures LostMinutes(scheduled, actual) + actual >= scheduled
    ensures actual <= scheduled ==> LostMinutes(scheduled, actual) + actual == scheduled
    ensures actual >= scheduled ==> LostMinutes(scheduled, actual) == 0
  {
  }

  /** `now < shiftEnd ? Math.floor((shiftEnd - now) / 60000) : 0`. */
  function EarlyLeaveMinutes(now: int, shiftEnd: int): (r: int)
    ensures r >= 0
    ensures now >= shiftEnd ==> r == 0
    ensures now < shiftEnd ==> r * MsPerMinute <= shiftEnd - now < r * MsPerMinute + MsPerMinute
  {
    if now < shiftEnd then WholeMinutes(shiftEnd - now) else 0
  }

  /** A check-out is reported early exactly when it is at least one whole minute before the end. */
  lemma EarlyIffWholeMinute(now: int, shiftEnd: int)
    ensures EarlyLeaveMinutes(now, shiftEnd) > 0 <==> now <= shiftEnd - MsPerMinute
  {
  }

  /**
   * A shift from 08:00 to 16:00 with ten grace minutes: checking in at 08:15 is
   * late by 15 minutes, and checking out at 15:50 after 455 minutes loses 25
   * and leaves 10 minutes early.
   */
  lemma WorkedDay(midnight: int)
    ensures var start, end := midnight + 480 * MsPerMinute, midnight + 960 * MsPerMinute;
      var checkIn, checkOut := midnight + 495 * MsPerMinute, midnight + 950 * MsPerMinute;
      && IsLate(checkIn, start, Some(10)) && LateMinutes(checkIn, start, Some(10)) == 15
      && ScheduledMinutes(start, end) == 480
      && ActualMinutes(checkIn, checkOut) == 455
      && LostMinutes(ScheduledMinutes(start, end), ActualMinutes(checkIn, checkOut)) == 25
      && EarlyLeaveMinutes(checkOut, end) == 10
  {
    WholeMinutesUnique(15 * MsPerMinute, 15);
    WholeMinutesUnique(480 * MsPerMinute, 480);
    WholeMinutesUnique(455 * MsPerMinute, 455);
    WholeMinutesUnique(10 * MsPerMinute, 10);
  }

  /** The two modes of the kiosk. */
  datatype ScanMode = In | Out

  /** The outcome shown after a scan, one case per message the page can show. */
  datatype Notice =
    | TraineeNotFound
    | NoShiftToday
    | CheckedInOnTime
    | CheckedInLate(lateMinutes: int)
    | NoCheckInToday
    | CheckedOutEarly(earlyMinutes: int)
    | CheckedOutComplete
    | ScanFailed(message: string)
  {
    /** The cases shown with the success styling. */
    predicate IsSuccess() {
      this.CheckedInOnTime? || this.CheckedInLate? || this.CheckedOutEarly? || this.CheckedOutComplete?
    }
  }

  /** The Arabic text shown for each outcome. */
  function Message(n: Notice): string {
    match n
    case TraineeNotFound => "لم يتم العثور على المتدرب"
    case NoShiftToday => "لا توجد نوبة محددة اليوم"
    case CheckedInOnTime => "تم تسجيل الدخول — في الوقت المحدد"
    case CheckedInLate(m) => "تم تسجيل الدخول — متأخر (" + JsString(m) + " دقيقة)"
    case NoCheckInToday => "لم يتم العثور على تسجيل دخول لاليوم"
    case CheckedOutEarly(m) => "تم تسجيل الخروج — مبكر (" + JsString(m) + " دقيقة)"
    case CheckedOutComplete => "تم تسجيل الخروج — مكتمل"
    case ScanFailed(msg) => msg
  }

  /** The name shown for an unknown barcode. */
  const UnknownName: string := "مجهول"

  /** `{ name, rank, status, message }` as shown under the scan box. */
  datatype ScanResult = ScanResult(name: string, rank: Option<string>, notice: Notice)

  /** The check-in notice: late with the late minutes, or on time. */
  function CheckInNotice(now: int, shiftStart: int, grace: Option<int>): (n: Notice)
    ensures n.IsSuccess()
    ensures n == CheckedInOnTime <==> !IsLate(now, shiftStart, grace)
    ensures n.CheckedInLate? ==> n.lateMinutes == LateMinutes(now, shiftStart, grace)
  {
    if IsLate(now, shiftStart, grace) then CheckedInLate(LateMinutes(now, shiftStart, grace))
    else CheckedInOnTime
  }
}
