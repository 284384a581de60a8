/**
 * The front end's mock kiosk page: the same scan flow as the live page, over two
 * constant tables (trainees by barcode, schedules by group) and without a
 * sessions table; a check-out always reports completion.
 */
module MockKioskPage {
  import opened Wrappers
  import opened Text
  import opened TimeUtils
  import opened Attendance

  datatype MockTrainee = MockTrainee(id: string, fullName: string, rank: string, groupId: string)
  datatype MockShift = MockShift(startTime: string, endTime: string, graceMinutes: int)
  datatype MockSchedule = MockSchedule(shiftId: string, shift: MockShift)

  /** `mockTrainees`, keyed by barcode. */
  const MockTrainees: map<string, MockTrainee> := map[
    "BAR001" := MockTrainee("1", "أحمد محمد", "جندي", "1"),
    "BAR002" := MockTrainee("2", "فاطمة علي", "عريف", "1")]

  /** `mockSchedules`, keyed by group. */
  const MockSchedules: map<string, MockSchedule> := map[
    "1" := MockSchedule("1", MockShift("08:00", "16:00", 10))]

  /** Every schedule's start time is an `HH:MM` that `new Date(`${today}T${start_time}`)` reads as a time of day. */
  predicate WellFormed(schedules: map<string, MockSchedule>) {
    forall g :: g in schedules ==> IsCanonicalTime(schedules[g].shift.startTime)
  }

  /** The mock shift's start time is read as minute 480 of the day, 08:00. */
  lemma MockStartReadable()
    ensures IsCanonicalTime("08:00") && ClockMinutes("08:00") == 480
  {
    ClockFields("08:00");
  }

  /** The constant schedule table is well formed. */
  lemma MockSchedulesWellFormed()
    ensures WellFormed(MockSchedules)
  {
    MockStartReadable();
    assert forall g :: g in MockSchedules ==> MockSchedules[g].shift.startTime == "08:00";
  }

  /** The one mock shift starts at minute 480 of the day. */
  lemma MockStartsAt480()
    ensures IsCanonicalTime(MockSchedules["1"].shift.startTime) && ClockMinutes(MockSchedules["1"].shift.startTime) == 480
  {
    MockStartReadable();
  }

  /** The instant a schedule's shift starts on the day that begins at `midnight`. */
  function ShiftStart(midnight: int, shift: MockShift): int
    requires IsCanonicalTime(shift.startTime)
  {
    midnight + ClockMinutes(shift.startTime) * MsPerMinute
  }

  /**
   * What a scan of the trimmed barcode `key` shows, with the tables looked up by
   * their own keys only.
   */
  function MockOutcome(mode: ScanMode, key: string, trainees: map<string, MockTrainee>,
                       schedules: map<string, MockSchedule>, midnight: int, now: int): (r: ScanResult)
    requires WellFormed(schedules)
    ensures key !in trainees <==> r.notice == TraineeNotFound
    ensures key in trainees ==> r.name == trainees[key].fullName && r.rank == Some(trainees[key].rank)
    ensures r.notice == NoShiftToday <==> key in trainees && trainees[key].groupId !in schedules
    ensures mode == Out && r.notice.IsSuccess() ==> r.notice == CheckedOutComplete
    ensures mode == In && r.notice.IsSuccess() ==>
      var s := schedules[trainees[key].groupId].shift;
      r.notice == CheckInNotice(now, ShiftStart(midnight, s), Some(s.graceMinutes))
  {
    if key !in trainees then ScanResult(UnknownName, None, TraineeNotFound)
    else
      var t := trainees[key];
      if t.groupId !in schedules then ScanResult(t.fullName, Some(t.rank), NoShiftToday)
      else
        var shift := schedules[t.groupId].shift;
        if mode == In then
          ScanResult(t.fullName, Some(t.rank), CheckInNotice(now, ShiftStart(midnight, shift), Some(shift.graceMinutes)))
        else ScanResult(t.fullName, Some(t.rank), CheckedOutComplete)
  }

  /** With the constant tables every known trainee has a shift, so "no shift today" never shows. */
  lemma MockTablesAlwaysScheduled(mode: ScanMode, key: string, midnight: int, now: int)
    ensures WellFormed(MockSchedules)
    ensures MockOutcome(mode, key, MockTrainees, MockSchedules, midnight, now).notice != NoShiftToday
  {
    MockSchedulesWellFormed();
    if key in MockTrainees {
      assert key == "BAR001" || key == "BAR002";
      assert MockTrainees[key].groupId == "1";
    }
  }

  /** A known trainee's check-in is judged against the mock shift: 08:00 with ten grace minutes. */
  lemma MockCheckInNotice(key: string, midnight: int, now: int)
    requires key == "BAR001" || key == "BAR002"
    ensures WellFormed(MockSchedules)
    ensures MockOutcome(In, key, MockTrainees, MockSchedules, midnight, now).notice
      == CheckInNotice(now, midnight + 480 * MsPerMinute, Some(10))
  {
    MockSchedulesWellFormed();
    MockStartsAt480();
    assert MockTrainees[key].groupId == "1";
  }

  /**
   * A check-in by a known trainee on the constant tables: on time up to 08:10,
   * late from one millisecond after, charged from 08:00.
   */
  lemma MockCheckIn(key: string, midnight: int, now: int)
    requires key == "BAR001" || key == "BAR002"
    ensures WellFormed(MockSchedules) &&
      var r := MockOutcome(In, key, MockTrainees, MockSchedules, midnight, now);
      && (now <= midnight + 490 * MsPerMinute <==> r.notice == CheckedInOnTime)
      && (now > midnight + 490 * MsPerMinute ==> r.notice == CheckedInLate(WholeMinutes(now - midnight - 480 * MsPerMinute)))
  {
    MockCheckInNotice(key, midnight, now);
    var start := midnight + 480 * MsPerMinute;
    assert GraceEnd(start, Some(10)) == midnight + 490 * MsPerMinute;
  }

  /** The keys every JavaScript object literal inherits from `Object.prototype`. */
  const PrototypeKeys: set<string> := {
    "constructor", "__proto__", "toString", "toLocaleString", "valueOf", "hasOwnProperty",
    "isPrototypeOf", "propertyIsEnumerable", "__defineGetter__", "__defineSetter__",
    "__lookupGetter__", "__lookupSetter__"}

  /**
   * The notice `mockTrainees[barcode.trim()]` leads to as written: an inherited
   * key yields a truthy value (a function, or the prototype itself) with no
   * `group_id`, and `mockSchedules[undefined]` finds nothing.
   */
  function AsWrittenNotice(mode: ScanMode, key: string, trainees: map<string, MockTrainee>,
                           schedules: map<string, MockSchedule>, midnight: int, now: int): (n: Notice)
    requires WellFormed(schedules)
    requires "undefined" !in schedules
    ensures key !in trainees && key in PrototypeKeys ==> n == NoShiftToday
    ensures key in trainees || key !in PrototypeKeys ==>
      n == MockOutcome(mode, key, trainees, schedules, midnight, now).notice
  {
    if key in trainees then MockOutcome(mode, key, trainees, schedules, midnight, now).notice
    else if key in PrototypeKeys then NoShiftToday
    else TraineeNotFound
  }

  /** Scanning the text "toString" reports "no shift today" as written, where "trainee not found" is meant. */
  lemma PrototypeKeyMisreported(mode: ScanMode, midnight: int, now: int)
    ensures WellFormed(MockSchedules) && "undefined" !in MockSchedules
    ensures AsWrittenNotice(mode, "toString", MockTrainees, MockSchedules, midnight, now) == NoShiftToday
    ensures MockOutcome(mode, "toString", MockTrainees, MockSchedules, midnight, now).notice == TraineeNotFound
  {
    MockSchedulesWellFormed();
    assert "toString" !in MockTrainees;
  }

  /** The page's state: mode, barcode field, shown result and the in-flight flag. */
  class MockKiosk {
    var mode: ScanMode
    var barcode: string
    var result: Option<ScanResult>
    var scanning: bool

    constructor()
      ensures mode == In && barcode == "" && result == None && !scanning
    {
      mode := In;
      barcode := "";
      result := None;
      scanning := false;
    }

    /** `handleScan` on the constant tables; the `finally` ends the scan on every path. */
    method HandleScan(midnight: int, now: int)
      modifies this
      ensures IsBlank(old(barcode)) || old(scanning) ==> unchanged(this)
      ensures !(IsBlank(old(barcode)) || old(scanning)) ==>
        && WellFormed(MockSchedules)
        && result == Some(MockOutcome(mode, Trim(old(barcode)), MockTrainees, MockSchedules, midnight, now))
        && barcode == "" && !scanning && mode == old(mode)
    {
      if IsBlank(barcode) || scanning {
        return;
      }
      scanning := true;
      result := None;
      MockSchedulesWellFormed();
      Scan(Trim(barcode), midnight, now);
      scanning := false;
    }

    /** The `try` block for the trimmed barcode `code`. */
    method Scan(code: string, midnight: int, now: int)
      requires WellFormed(MockSchedules)
      modifies this
      ensures result == Some(MockOutcome(mode, code, MockTrainees, MockSchedules, midnight, now))
      ensures barcode == "" && mode == old(mode) && scanning == old(scanning)
    {
      if code !in MockTrainees {
        result := Some(ScanResult(UnknownName, None, TraineeNotFound));
        barcode := "";
        return;
      }
      var trainee := MockTrainees[code];
      if trainee.groupId !in MockSchedules {
        result := Some(ScanResult(trainee.fullName, Some(trainee.rank), NoShiftToday));
        barcode := "";
        return;
      }
      var shift := MockSchedules[trainee.groupId].shift;
      if mode == In {
        var shiftStart := ShiftStart(midnight, shift);
        result := Some(ScanResult(trainee.fullName, Some(trainee.rank), CheckInNotice(now, shiftStart, Some(shift.graceMinutes))));
      } else {
        result := Some(ScanResult(trainee.fullName, Some(trainee.rank), CheckedOutComplete));
      }
      barcode := "";
    }
  }
}
