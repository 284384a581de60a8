/**
 * The live kiosk page: a scan looks the barcode up among the trainees, finds
 * the shift scheduled today for the trainee's group, and then either upserts
 * the day's attendance session (check-in) or completes it (check-out). The
 * `attendance_sessions` table is a map keyed by (trainee, day, shift), so it
 * holds at most one session per key.
 */
module KioskPage {
  import opened Wrappers
  import opened Text
  import opened Attendance

  /** A `trainees` row as selected by the page, keyed by its barcode. */
  datatype TraineeRow = TraineeRow(id: string, fullName: string, rank: Option<string>, groupId: Option<string>)

  /** A shift's start and end as milliseconds after local midnight, and its grace minutes. */
  datatype ShiftTimes = ShiftTimes(startOffset: int, endOffset: int, grace: Option<int>)

  /** A `group_schedules` row joined with its shift. */
  datatype ScheduleRow = ScheduleRow(shiftId: string, shift: ShiftTimes)

  /** The upsert conflict target `trainee_id,day_date,shift_id`. */
  datatype SessionKey = SessionKey(traineeId: string, day: string, shiftId: string)

  /** An `attendance_sessions` row; instants are milliseconds, `None` is SQL null. */
  datatype Session = Session(
    checkInAt: Option<int>,
    checkOutAt: Option<int>,
    lateMinutes: int,
    scheduledMinutes: int,
    actualMinutes: int,
    lostMinutes: int,
    earlyLeaveMinutes: int,
    status: string)

  const LateStatus: string := "late"
  const PresentStatus: string := "present"

  /** The defaults taken for a freshly inserted row's unsupplied columns (its status is always supplied). */
  const Blank: Session := Session(None, None, 0, 0, 0, 0, 0, PresentStatus)

  /** The session of today's shift for a trainee. */
  function KeyOf(t: TraineeRow, today: string, s: ScheduleRow): SessionKey {
    SessionKey(t.id, today, s.shiftId)
  }

  /**
   * The check-in upsert: the supplied columns (check-in instant, late and
   * scheduled minutes, status) are written on the key's row, inserting it with
   * the defaults when absent. Every other row is kept, and on the key's row the
   * check-out columns are kept, or defaulted for a new row.
   */
  function CheckIn(rows: map<SessionKey, Session>, key: SessionKey, now: int, start: int, end: int, grace: Option<int>)
    : (r: map<SessionKey, Session>)
    ensures r.Keys == rows.Keys + {key}
    ensures forall k :: k in rows && k != key ==> r[k] == rows[k]
    ensures r[key].checkInAt == Some(now)
    ensures r[key].lateMinutes == LateMinutes(now, start, grace)
    ensures r[key].scheduledMinutes == ScheduledMinutes(start, end)
    ensures r[key].status == (if IsLate(now, start, grace) then LateStatus else PresentStatus)
    ensures key in rows ==>
      && r[key].checkOutAt == rows[key].checkOutAt
      && r[key].actualMinutes == rows[key].actualMinutes
      && r[key].lostMinutes == rows[key].lostMinutes
      && r[key].earlyLeaveMinutes == rows[key].earlyLeaveMinutes
    ensures key !in rows ==>
      && r[key].checkOutAt == None
      && r[key].actualMinutes == 0 && r[key].lostMinutes == 0 && r[key].earlyLeaveMinutes == 0
  {
    var base := if key in rows then rows[key] else Blank;
    var status := if IsLate(now, start, grace) then LateStatus else PresentStatus;
    rows[key := base.(checkInAt := Some(now), lateMinutes := LateMinutes(now, start, grace),
                      scheduledMinutes := ScheduledMinutes(start, end), status := status)]
  }

  /**
   * The check-out update of a checked-in session: the check-out instant and the
   * actual, lost and early-leave minutes; nothing else changes.
   */
  function CheckOut(s: Session, now: int, end: int): (r: Session)
    requires s.checkInAt.Some?
    ensures r.checkOutAt == Some(now)
    ensures r.actualMinutes == ActualMinutes(s.checkInAt.value, now)
    ensures r.lostMinutes == LostMinutes(s.scheduledMinutes, r.actualMinutes) && r.lostMinutes >= 0
    ensures r.earlyLeaveMinutes == EarlyLeaveMinutes(now, end) && r.earlyLeaveMinutes >= 0
    ensures r.checkInAt == s.checkInAt && r.status == s.status
    ensures r.lateMinutes == s.lateMinutes && r.scheduledMinutes == s.scheduledMinutes
  {
    var actual := ActualMinutes(s.checkInAt.value, now);
    s.(checkOutAt := Some(now), actualMinutes := actual,
       lostMinutes := LostMinutes(s.scheduledMinutes, actual),
       earlyLeaveMinutes := EarlyLeaveMinutes(now, end))
  }

  /** The check-out notice: early with the early-leave minutes, or complete. */
  function CheckOutNotice(now: int, end: int): (n: Notice)
    ensures n.IsSuccess()
    ensures n.CheckedOutEarly? <==> EarlyLeaveMinutes(now, end) > 0
    ensures n.CheckedOutEarly? ==> n.earlyMinutes == EarlyLeaveMinutes(now, end)
  {
    if EarlyLeaveMinutes(now, end) > 0 then CheckedOutEarly(EarlyLeaveMinutes(now, end)) else CheckedOutComplete
  }

  /** The world a scan runs against: the tables it reads and what the clock and the writes do. */
  datatype Context = Context(
    trainees: map<string, TraineeRow>,
    schedules: map<(string, string), ScheduleRow>,
    today: string,
    midnight: int,
    now: int,
    upsertError: Option<string>,
    updateSucceeds: bool)

  /** The instant today's shift starts: `${today}T${shift.start_time}`. */
  function StartOf(ctx: Context, s: ScheduleRow): int {
    ctx.midnight + s.shift.startOffset
  }

  /** The instant today's shift ends: `${today}T${shift.end_time}`. */
  function EndOf(ctx: Context, s: ScheduleRow): int {
    ctx.midnight + s.shift.endOffset
  }

  /**
   * Today's schedule of a trainee's group, with its shift joined; a trainee
   * without a group matches none. Keyed by (group, day), so there is at most one.
   */
  function ScheduleOf(ctx: Context, t: TraineeRow): Option<ScheduleRow> {
    if t.groupId.Some? && (t.groupId.value, ctx.today) in ctx.schedules
    then Some(ctx.schedules[(t.groupId.value, ctx.today)])
    else None
  }

  /**
   * When a scan that found the trainee and the schedule succeeds: a check-in
   * when the upsert raises no error, a check-out when today's session has a
   * check-in.
   */
  predicate ShiftSucceeds(mode: ScanMode, t: TraineeRow, s: ScheduleRow, ctx: Context, rows: map<SessionKey, Session>) {
    var k := KeyOf(t, ctx.today, s);
    if mode == In then ctx.upsertError.None? else k in rows && rows[k].checkInAt.Some?
  }

  /** When a scan of the trimmed barcode `key` succeeds. */
  predicate LookupSucceeds(mode: ScanMode, key: string, ctx: Context, rows: map<SessionKey, Session>) {
    && key in ctx.trainees
    && ScheduleOf(ctx, ctx.trainees[key]).Some?
    && ShiftSucceeds(mode, ctx.trainees[key], ScheduleOf(ctx, ctx.trainees[key]).value, ctx, rows)
  }

  /**
   * What a scan of `code` (not blank) in `mode` shows and what the sessions
   * table holds afterwards: an unknown trimmed barcode is not found, the scan
   * succeeds exactly when the lookups and the write do, and a scan that does not
   * succeed writes nothing.
   */
  function ScanOutcome(mode: ScanMode, code: string, ctx: Context, rows: map<SessionKey, Session>)
    : (out: (ScanResult, map<SessionKey, Session>))
    ensures Trim(code) !in ctx.trainees ==> out == (ScanResult(UnknownName, None, TraineeNotFound), rows)
    ensures out.0.notice.IsSuccess() <==> LookupSucceeds(mode, Trim(code), ctx, rows)
    ensures !out.0.notice.IsSuccess() ==> out.1 == rows
  {
    LookupOutcome(mode, Trim(code), ctx, rows)
  }

  /**
   * The outcome for the trimmed barcode `key`: `.eq("barcode_value", barcode.trim())`.
   * An unknown key is not found, a trainee without a schedule today has no shift,
   * and in neither case is anything written.
   */
  function LookupOutcome(mode: ScanMode, key: string, ctx: Context, rows: map<SessionKey, Session>)
    : (out: (ScanResult, map<SessionKey, Session>))
    ensures key !in ctx.trainees ==> out == (ScanResult(UnknownName, None, TraineeNotFound), rows)
    ensures key in ctx.trainees && ScheduleOf(ctx, ctx.trainees[key]).None? ==>
      out == (ScanResult(ctx.trainees[key].fullName, ctx.trainees[key].rank, NoShiftToday), rows)
    ensures out.0.notice.IsSuccess() <==> LookupSucceeds(mode, key, ctx, rows)
    ensures !out.0.notice.IsSuccess() ==> out.1 == rows
  {
    if key !in ctx.trainees then (ScanResult(UnknownName, None, TraineeNotFound), rows)
    else
      var t := ctx.trainees[key];
      match ScheduleOf(ctx, t)
      case None => (ScanResult(t.fullName, t.rank, NoShiftToday), rows)
      case Some(s) => ShiftOutcome(mode, t, s, ctx, rows)
  }

  /**
   * The outcome of a scan once the trainee and today's schedule are known: it
   * succeeds exactly when the mode's write can be made, and only a successful
   * check-in adds a session (today's, for this shift).
   */
  function ShiftOutcome(mode: ScanMode, t: TraineeRow, s: ScheduleRow, ctx: Context, rows: map<SessionKey, Session>)
    : (out: (ScanResult, map<SessionKey, Session>))
    ensures out.0.notice.IsSuccess() <==> ShiftSucceeds(mode, t, s, ctx, rows)
    ensures !out.0.notice.IsSuccess() ==> out.1 == rows
    ensures out.1.Keys == rows.Keys + (if mode == In && out.0.notice.IsSuccess() then {KeyOf(t, ctx.today, s)} else {})
  {
    if mode == In then CheckInOutcome(t, s, ctx, rows) else CheckOutOutcome(t, s, ctx, rows)
  }

  /**
   * A check-in: the upsert, or the error it raised. It succeeds exactly when the
   * upsert raises no error; a failure shows the error's message with no name and
   * writes nothing. A success adds at most today's session, keeps every other,
   * records the scan as the check-in, writes "late" exactly when the scan is
   * past the start plus the grace, and stores the late and scheduled minutes;
   * the notice reports the same lateness.
   */
  function CheckInOutcome(t: TraineeRow, s: ScheduleRow, ctx: Context, rows: map<SessionKey, Session>)
    : (out: (ScanResult, map<SessionKey, Session>))
    ensures out.0.notice.IsSuccess() <==> ctx.upsertError.None?
    ensures ctx.upsertError.Some? ==> out == (ScanResult("", None, ScanFailed(ctx.upsertError.value)), rows)
    ensures ctx.upsertError.None? ==>
      var k := KeyOf(t, ctx.today, s);
      var (res, rows') := out;
      && res.name == t.fullName && res.rank == t.rank
      && rows'.Keys == rows.Keys + {k}
      && (forall j :: j in rows && j != k ==> rows'[j] == rows[j])
      && rows'[k].checkInAt == Some(ctx.now)
      && (rows'[k].status == LateStatus <==> IsLate(ctx.now, StartOf(ctx, s), s.shift.grace))
      && rows'[k].lateMinutes == LateMinutes(ctx.now, StartOf(ctx, s), s.shift.grace)
      && rows'[k].scheduledMinutes == ScheduledMinutes(StartOf(ctx, s), EndOf(ctx, s))
      && (rows'[k].status == LateStatus <==> res.notice.CheckedInLate?)
      && (res.notice.CheckedInLate? ==> res.notice.lateMinutes == rows'[k].lateMinutes)
      && res.notice == CheckInNotice(ctx.now, StartOf(ctx, s), s.shift.grace)
      && rows' == CheckIn(rows, k, ctx.now, StartOf(ctx, s), EndOf(ctx, s), s.shift.grace)
  {
    var start := StartOf(ctx, s);
    var end := EndOf(ctx, s);
    assert |LateStatus| != |PresentStatus|;
    if ctx.upsertError.Some? then (ScanResult("", None, ScanFailed(ctx.upsertError.value)), rows)
    else (ScanResult(t.fullName, t.rank, CheckInNotice(ctx.now, start, s.shift.grace)),
          CheckIn(rows, KeyOf(t, ctx.today, s), ctx.now, start, end, s.shift.grace))
  }

  /**
   * A check-out: refused without a checked-in session, else the update (whose
   * failure goes unnoticed). It succeeds exactly when today's session has a
   * check-in; a refusal writes nothing. A success shows "early" with the
   * early-leave minutes exactly when a whole minute of the shift remains, and
   * "complete" otherwise. It changes only that session's check-out columns,
   * writing the check-out instant and the actual, lost and early-leave minutes,
   * or nothing when the update fails.
   */
  function CheckOutOutcome(t: TraineeRow, s: ScheduleRow, ctx: Context, rows: map<SessionKey, Session>)
    : (out: (ScanResult, map<SessionKey, Session>))
    ensures var k := KeyOf(t, ctx.today, s);
      out.0.notice.IsSuccess() <==> k in rows && rows[k].checkInAt.Some?
    ensures !out.0.notice.IsSuccess() ==> out == (ScanResult(t.fullName, t.rank, NoCheckInToday), rows)
    ensures out.0.notice.IsSuccess() ==>
      var k := KeyOf(t, ctx.today, s);
      var rows' := out.1;
      && out.0.name == t.fullName && out.0.rank == t.rank
      && k in rows && rows'.Keys == rows.Keys
      && (forall j :: j in rows && j != k ==> rows'[j] == rows[j])
      && rows'[k].checkInAt == rows[k].checkInAt && rows'[k].status == rows[k].status
      && rows'[k].lateMinutes == rows[k].lateMinutes
      && rows'[k].scheduledMinutes == rows[k].scheduledMinutes
      && out.0.notice == CheckOutNotice(ctx.now, EndOf(ctx, s))
      && (out.0.notice.CheckedOutEarly? <==> EarlyLeaveMinutes(ctx.now, EndOf(ctx, s)) > 0)
      && (ctx.updateSucceeds ==>
            && rows' == rows[k := CheckOut(rows[k], ctx.now, EndOf(ctx, s))]
            && rows'[k].checkOutAt == Some(ctx.now)
            && rows'[k].actualMinutes == ActualMinutes(rows[k].checkInAt.value, ctx.now)
            && rows'[k].lostMinutes == LostMinutes(rows[k].scheduledMinutes, rows'[k].actualMinutes)
            && rows'[k].earlyLeaveMinutes == EarlyLeaveMinutes(ctx.now, EndOf(ctx, s)))
      && (!ctx.updateSucceeds ==> rows' == rows)
  {
    var end := EndOf(ctx, s);
    var k := KeyOf(t, ctx.today, s);
    if k !in rows || rows[k].checkInAt.None? then (ScanResult(t.fullName, t.rank, NoCheckInToday), rows)
    else
      var rows' := if ctx.updateSucceeds then rows[k := CheckOut(rows[k], ctx.now, end)] else rows;
      (ScanResult(t.fullName, t.rank, CheckOutNotice(ctx.now, end)), rows')
  }

  /** White space around the barcode does not matter: the scan looks up the trimmed text. */
  lemma SpacesIgnored(mode: ScanMode, code: string, ctx: Context, rows: map<SessionKey, Session>)
    ensures ScanOutcome(mode, Trim(code), ctx, rows) == ScanOutcome(mode, code, ctx, rows)
  {
    TrimIdempotent(code);
  }

  /** Once the trainee and today's schedule are found, the scan is the check-in or the check-out. */
  lemma ReachesShift(mode: ScanMode, code: string, ctx: Context, rows: map<SessionKey, Session>)
    requires Trim(code) in ctx.trainees && ScheduleOf(ctx, ctx.trainees[Trim(code)]).Some?
    ensures var t := ctx.trainees[Trim(code)];
      var s := ScheduleOf(ctx, t).value;
      ScanOutcome(mode, code, ctx, rows) ==
        (if mode == In then CheckInOutcome(t, s, ctx, rows) else CheckOutOutcome(t, s, ctx, rows))
  {
  }

  /**
   * A successful check-in adds at most the scanned key, records the scan as the
   * check-in, writes "late" exactly when the scan is past the shift's start
   * plus its grace, and shows the check-in notice with the stored late minutes.
   */
  lemma CheckInEffect(code: string, ctx: Context, rows: map<SessionKey, Session>)
    requires ScanOutcome(In, code, ctx, rows).0.notice.IsSuccess()
    ensures var t := ctx.trainees[Trim(code)];
      var k := KeyOf(t, ctx.today, ScheduleOf(ctx, t).value);
      var s := ScheduleOf(ctx, t).value;
      var (res, rows') := ScanOutcome(In, code, ctx, rows);
      && rows'.Keys == rows.Keys + {k}
      && (forall j :: j in rows && j != k ==> rows'[j] == rows[j])
      && rows'[k].checkInAt == Some(ctx.now)
      && (rows'[k].status == LateStatus <==> IsLate(ctx.now, StartOf(ctx, s), s.shift.grace))
      && rows'[k].lateMinutes == LateMinutes(ctx.now, StartOf(ctx, s), s.shift.grace)
      && rows'[k].scheduledMinutes == ScheduledMinutes(StartOf(ctx, s), EndOf(ctx, s))
      && (rows'[k].status == LateStatus <==> res.notice.CheckedInLate?)
      && (res.notice.CheckedInLate? ==> res.notice.lateMinutes == rows'[k].lateMinutes)
      && res.notice == CheckInNotice(ctx.now, StartOf(ctx, s), s.shift.grace)
      && rows' == CheckIn(rows, k, ctx.now, StartOf(ctx, s), EndOf(ctx, s), s.shift.grace)
  {
    ReachesShift(In, code, ctx, rows);
  }

  /**
   * A successful check-out shows "early" exactly when a whole minute of the
   * shift remains, and changes only the check-out instant and the actual, lost
   * and early-leave minutes of the scanned session, or nothing when the update
   * fails (the page reports success all the same).
   */
  lemma CheckOutEffect(code: string, ctx: Context, rows: map<SessionKey, Session>)
    requires ScanOutcome(Out, code, ctx, rows).0.notice.IsSuccess()
    ensures var t := ctx.trainees[Trim(code)];
      var k := KeyOf(t, ctx.today, ScheduleOf(ctx, t).value);
      var end := EndOf(ctx, ScheduleOf(ctx, t).value);
      var (res, rows') := ScanOutcome(Out, code, ctx, rows);
      && k in rows && rows'.Keys == rows.Keys
      && (forall j :: j in rows && j != k ==> rows'[j] == rows[j])
      && rows'[k].checkInAt == rows[k].checkInAt && rows'[k].status == rows[k].status
      && rows'[k].lateMinutes == rows[k].lateMinutes
      && rows'[k].scheduledMinutes == rows[k].scheduledMinutes
      && res.notice == CheckOutNotice(ctx.now, end)
      && (res.notice.CheckedOutEarly? <==> EarlyLeaveMinutes(ctx.now, end) > 0)
      && (ctx.updateSucceeds ==>
            && rows' == rows[k := CheckOut(rows[k], ctx.now, end)]
            && rows'[k].checkOutAt == Some(ctx.now)
            && rows'[k].actualMinutes == ActualMinutes(rows[k].checkInAt.value, ctx.now)
            && rows'[k].lostMinutes == LostMinutes(rows[k].scheduledMinutes, rows'[k].actualMinutes)
            && rows'[k].earlyLeaveMinutes == EarlyLeaveMinutes(ctx.now, end))
      && (!ctx.updateSucceeds ==> rows' == rows)
  {
    ReachesShift(Out, code, ctx, rows);
  }

  /** Checking in twice on the same key keeps one session, stamped by the later scan; a check-out already recorded survives. */
  lemma ReScanOverwrites(rows: map<SessionKey, Session>, key: SessionKey, first: int, second: int,
                         start: int, end: int, grace: Option<int>)
    ensures var once := CheckIn(rows, key, first, start, end, grace);
      var twice := CheckIn(once, key, second, start, end, grace);
      && twice.Keys == once.Keys
      && twice[key].checkInAt == Some(second)
      && twice[key].checkOutAt == once[key].checkOutAt
      && twice[key] == CheckIn(rows, key, second, start, end, grace)[key]
  {
  }

  /** The sessions table; the page reads and writes it through the scan. */
  class SessionTable {
    var rows: map<SessionKey, Session>

    constructor(rows: map<SessionKey, Session>)
      ensures this.rows == rows
    {
      this.rows := rows;
    }
  }

  /** The page's state: the mode toggle, the barcode field, the shown result and the in-flight flag. */
  class Kiosk {
    var mode: ScanMode
    var barcode: string
    var result: Option<ScanResult>
    var scanning: bool

    constructor()
      ensures mode == In && barcode == "" && result == None && !scanning
    {
      mode := In;
      barcode := "";
      result := None;
      scanning := false;
    }

    /** The IN/OUT buttons. */
    method SetMode(m: ScanMode)
      modifies this
      ensures mode == m && barcode == old(barcode) && result == old(result) && scanning == old(scanning)
    {
      mode := m;
    }

    /** Typing into the barcode field. */
    method SetBarcode(s: string)
      modifies this
      ensures barcode == s && mode == old(mode) && result == old(result) && scanning == old(scanning)
    {
      barcode := s;
    }

    /**
     * `handleScan`: ignored for a blank barcode or while a scan is in flight;
     * otherwise it shows the outcome, writes the sessions it implies, clears the
     * barcode and ends the scan, on every path.
     */
    method HandleScan(table: SessionTable, ctx: Context)
      modifies this, table
      ensures IsBlank(old(barcode)) || old(scanning) ==> unchanged(this) && unchanged(table)
      ensures !(IsBlank(old(barcode)) || old(scanning)) ==>
        && result.Some? && barcode == "" && !scanning && mode == old(mode)
        && result.value == ScanOutcome(mode, old(barcode), ctx, old(table.rows)).0
        && table.rows == ScanOutcome(mode, old(barcode), ctx, old(table.rows)).1
    {
      if IsBlank(barcode) || scanning {
        return;
      }
      scanning := true;
      result := None;
      ghost var before := table.rows;
      var code := Trim(barcode);
      assert ScanOutcome(mode, barcode, ctx, before) == LookupOutcome(mode, code, ctx, before);
      Scan(table, ctx, code);
    }

    /** The body of the scan's `try` for the trimmed barcode `code`, each path ending the scan. */
    method Scan(table: SessionTable, ctx: Context, code: string)
      modifies this, table
      ensures result.Some? && barcode == "" && !scanning && mode == old(mode)
      ensures result.value == LookupOutcome(mode, code, ctx, old(table.rows)).0
      ensures table.rows == LookupOutcome(mode, code, ctx, old(table.rows)).1
    {
      if code !in ctx.trainees {
        result := Some(ScanResult(UnknownName, None, TraineeNotFound));
        barcode := "";
        scanning := false;
        return;
      }
      var trainee := ctx.trainees[code];
      var schedule := ScheduleOf(ctx, trainee);
      if schedule.None? {
        result := Some(ScanResult(trainee.fullName, trainee.rank, NoShiftToday));
        barcode := "";
        scanning := false;
        return;
      }
      var shift := schedule.value.shift;
      var start := StartOf(ctx, schedule.value);
      var end := EndOf(ctx, schedule.value);
      var key := KeyOf(trainee, ctx.today, schedule.value);
      if mode == In {
        if ctx.upsertError.Some? {
          result := Some(ScanResult("", None, ScanFailed(ctx.upsertError.value)));
        } else {
          table.rows := CheckIn(table.rows, key, ctx.now, start, end, shift.grace);
          result := Some(ScanResult(trainee.fullName, trainee.rank, CheckInNotice(ctx.now, start, shift.grace)));
        }
      } else {
        if key !in table.rows || table.rows[key].checkInAt.None? {
          result := Some(ScanResult(trainee.fullName, trainee.rank, NoCheckInToday));
          barcode := "";
          scanning := false;
          return;
        }
        if ctx.updateSucceeds {
          table.rows := table.rows[key := CheckOut(table.rows[key], ctx.now, end)];
        }
        result := Some(ScanResult(trainee.fullName, trainee.rank, CheckOutNotice(ctx.now, end)));
      }
      barcode := "";
      scanning := false;
    }
  }
}
