# King Khalid Training Attendance System — a Dafny model of its core

The system records the attendance of military trainees. A kiosk scans a trainee's barcode. It then finds the shift scheduled today for the trainee's group. A check-in records lateness against the shift's grace period. A check-out records the actual, lost and early-leave minutes. Administrators manage trainees, shifts, ranks and specializations through a small back end.

This project models that core in Dafny and proves what each part promises:

- **Time of day.** `TimeUtils` models `calculateEffectiveStartTime`, which adds a grace period to an `HH:MM` start time and wraps at midnight. `ShiftTimeModal` models the 24-hour to Arabic 12-hour display. `Text` models the JavaScript primitives they use: `trim`, `String(n)`, `padStart(2, "0")` and the digit test `/^\d+$/`.
- **Attendance arithmetic.** `Attendance` models lateness, scheduled, actual, lost and early-leave minutes over integer millisecond instants, and the kiosk's notices.
- **Kiosk pages.** `KioskPage` models the live page. Its `attendance_sessions` table is a map keyed by (trainee, day, shift), so the upsert keeps one session per key. `MockKioskPage` models the front end's mock page over its two constant tables.
- **Settings and navigation.** `RanksManagementTab` models the in-memory rank list and its dialogs. `AppSidebar` models the role-filtered navigation.
- **Back end.** `Store` models the MongoDB collections as one sequential store with an id counter. Its invariant `InStep` says each shift's `trainees` list names exactly the trainees whose `shift_id` is that shift, with no duplicates. `TraineeService`, `ShiftService`, `RankService` and `SpecializationService` model the four services as methods on that store. Each service method keeps `InStep` with the member update the services intend (`Store.Push` and `Store.Pull`); as the Shift schema is written, that update is dropped (see Findings). `Controllers` models how an update's outcome becomes a status code.
- **List helpers.** `Lists` models order-preserving `filter` and MongoDB's `$pull`.

State that the source updates in place is a `class`: the kiosk pages' state, the sessions table, the rank tab's state and the database. The arithmetic, formatting and filtering are functions.

Where the code and its design description disagree, the model follows the code:

- The shift service never writes `effective_start_time`. A new shift has none, and an update keeps the old value.
- Neither kiosk page corrects for shifts that cross midnight. A shift whose end is before its start gets negative scheduled minutes (`Attendance.ScheduledMinutes`).

## Model

| member | source | states |
|---|---|---|
| Text.TrimStart | src/pages/KioskPage.tsx:39 | removes exactly the leading white space: the result is a suffix of the input that does not start with a space, and everything cut was space |
| Text.TrimEnd | src/pages/KioskPage.tsx:39 | removes exactly the trailing white space: the result is a prefix of the input that does not end with a space, and everything cut was space |
| Text.Trim | src/pages/KioskPage.tsx:39 | `String.prototype.trim`: the result is the slice of the input left after dropping only white space from both ends; it is empty exactly when the input is all white space, and otherwise starts and ends with a non-space character |
| Text.TrimKeepsTrimmed | backend/models/Specialization.js:5-9 | a string with no space at either end is kept by `trim` |
| Text.TrimIdempotent | backend/services/traineeService.js:24-27 | trimming a trimmed string changes nothing |
| Text.NatToString | backend/utils/timeUtils.js:12 | `String(n)` for `n >= 0`: decimal digits whose value is `n`, one digit below 10, at most two below 100, no leading zero |
| Text.JsString | backend/utils/timeUtils.js:12 | `String(n)` for any integer: a minus sign before the digits of `-n` when `n < 0` |
| Text.PadStart2 | backend/utils/timeUtils.js:12 | `padStart(2, "0")`: a string of length two or more is kept; a shorter one is left-filled with zeros to length two |
| Text.PadStart2Value | frontend/src/components/settings/ShiftTimeModal.tsx:16 | padding digits with zeros keeps their numeric value |
| Text.LeadingZero | frontend/src/components/settings/ShiftTimeModal.tsx:16 | a leading `0` does not change the value of a digit string |
| Text.TwoDigits | backend/utils/timeUtils.js:12 | a number below 100, printed and padded, is two digits with that value |
| Text.TwoDigitsRoundTrip | backend/utils/timeUtils.js:4-12 | reading two digits as a number, then printing and padding it, gives the same two digits back |
| Text.TwoDigitValue | backend/utils/timeUtils.js:4 | `Number` of two digits is ten times the first digit plus the second |
| TimeUtils.ColonIndex | backend/utils/timeUtils.js:4 | `split(":")`: the position of the first colon, or the length when there is none |
| TimeUtils.ColonAt | backend/utils/timeUtils.js:4 | the first field of `a + ":" + b` is `a` when `a` holds no colon |
| TimeUtils.SplitFields | backend/utils/timeUtils.js:4 | `split(":")` of `a + ":" + rest`: `a` is the first field and the second field is read from `rest` up to its first colon |
| TimeUtils.JsRem | backend/utils/timeUtils.js:8-10 | JavaScript's `%`: the Euclidean remainder for non-negative operands, a value in `(-b, 0]` for negative ones |
| TimeUtils.ClockMinutes | backend/utils/timeUtils.js:4-5 | a canonical `HH:MM` time lies within the day: below 1440 minutes |
| TimeUtils.ClockFields | backend/utils/timeUtils.js:4 | the two fields of an `HH:MM` text are digit strings whose values are read digit by digit |
| TimeUtils.CanonicalIsTimeText | backend/utils/timeUtils.js:4-5 | a canonical time is read by `split(":").map(Number)` as its own hours and minutes |
| TimeUtils.TwoFieldsThenTail | backend/utils/timeUtils.js:4 | with two digit fields, whatever follows a third colon is dropped: the text reads as those two numbers |
| TimeUtils.LaterFieldsIgnored | backend/utils/timeUtils.js:4-5 | a canonical time followed by `:` and anything (seconds, say) reads as the same hours, minutes and total |
| TimeUtils.EmptyMinutesReadAsZero | backend/utils/timeUtils.js:4 | an empty minute field, as in `"08:"`, is `Number("")`, that is minute 0 |
| TimeUtils.FormatTime | backend/utils/timeUtils.js:12 | the template: for hours and minutes in 0..99, two hour digits with the hours' value, a colon and two minute digits with the minutes' value |
| TimeUtils.FormatCanonical | backend/utils/timeUtils.js:9-12 | formatting hours in 0..23 and minutes in 0..59 gives a canonical time at `hours*60 + minutes` |
| TimeUtils.FormatOfCanonical | backend/utils/timeUtils.js:9-12 | formatting the hours and minutes of a canonical time gives that time back |
| TimeUtils.CanonicalInjective | backend/utils/timeUtils.js:12 | two canonical times at the same minute of the day are the same text |
| TimeUtils.ClockOfTotal | backend/utils/timeUtils.js:7-12 | the wrap and the print: a total that is not negative becomes the canonical time at `total mod 1440` |
| TimeUtils.EffectiveStartTime | backend/utils/timeUtils.js:3-13 | for a readable start and a total that is not negative, the result is the canonical `HH:MM` at `(hours*60 + minutes + grace) mod 1440` |
| TimeUtils.EffectiveIsClockOfTotal | backend/utils/timeUtils.js:4-12 | the result depends on the start only through `hours*60 + minutes` |
| TimeUtils.EffectiveOfTotal | backend/utils/timeUtils.js:4-12 | a start whose total plus grace falls on the minute of a canonical `t` gives exactly `t` |
| TimeUtils.EffectiveOfCanonical | backend/utils/timeUtils.js:4-12 | the result is the one canonical time whose minute of the day is start plus grace modulo 1440 |
| TimeUtils.SameTotalSameEffective | backend/utils/timeUtils.js:4-12 | two starts read as the same minute count have the same effective start |
| TimeUtils.EffectiveIgnoresLaterFields | backend/utils/timeUtils.js:4-12 | a seconds field does not move the result: `"08:00:00"` is treated as `"08:00"` |
| TimeUtils.DocExample | backend/utils/timeUtils.js:1-2 | `"06:00"` with 60 minutes gives `"07:00"` |
| TimeUtils.WrapsPastMidnight | backend/utils/timeUtils.js:7-8 | `"23:30"` with 45 minutes gives `"00:15"` |
| TimeUtils.WrapsMultipleDays | backend/utils/timeUtils.js:7-8 | `"06:00"` with 1500 minutes gives `"07:00"` |
| TimeUtils.ZeroGraceIdentity | backend/utils/timeUtils.js:4-12 | zero grace returns a canonical start time unchanged |
| TimeUtils.ZeroGraceCanonicalizes | backend/utils/timeUtils.js:4-12 | zero grace turns any readable start time into canonical form, and a second pass changes nothing |
| TimeUtils.TenPastMidnight | backend/utils/timeUtils.js:4-5 | `"00:10"` is minute 10 of the day |
| TimeUtils.RemaindersOfMinusTen | backend/utils/timeUtils.js:8-10 | JavaScript's remainders of -10 by 1440 and by 60 are -10, and the floored hour is -1 |
| TimeUtils.FormatOfNegative | backend/utils/timeUtils.js:12 | hours -1 and minutes -10 print as `"-1:-10"`: `padStart` does not pad a string already two long |
| TimeUtils.NegativeGraceIsNotWrapped | backend/utils/timeUtils.js:8-10 | a negative total is not wrapped: `"00:10"` with -20 gives `"-1:-10"` |
| ShiftTimeModal.Dial | frontend/src/components/settings/ShiftTimeModal.tsx:15 | `hours % 12 \|\| 12` lies in 1..12 and agrees with the hour modulo 12 |
| ShiftTimeModal.Display | frontend/src/components/settings/ShiftTimeModal.tsx:16 | two hour digits with the dial hour's value, a colon, the minutes padded to two digits with their value unchanged, a space and the period mark |
| ShiftTimeModal.ConvertTo12HourArabic | frontend/src/components/settings/ShiftTimeModal.tsx:11-17 | empty input gives the empty string and only then; otherwise the display ends in `م` exactly when the hour is 12 or more, else `ص` |
| ShiftTimeModal.DisplayedHour | frontend/src/components/settings/ShiftTimeModal.tsx:15 | hours 0 and 12 display as 12; every other hour displays as the hour modulo 12 |
| ShiftTimeModal.MinutesCarried | frontend/src/components/settings/ShiftTimeModal.tsx:13-16 | the displayed minutes have the input's minute value |
| ShiftTimeModal.DisplayReadBack | frontend/src/components/settings/ShiftTimeModal.tsx:14-16 | the dial hour and the period give back the 24-hour hour, and the minutes come back unchanged |
| ShiftTimeModal.DisplayRoundTrip | frontend/src/components/settings/ShiftTimeModal.tsx:11-17 | for hours 0..23, reading a display back gives the hours and minutes of the input |
| ShiftTimeModal.HalfPastTwelve | frontend/src/components/settings/ShiftTimeModal.tsx:16 | dial hour 12 and minute 30 display as `12:30` before the period |
| ShiftTimeModal.HalfPastMidnight | frontend/src/components/settings/ShiftTimeModal.tsx:14-16 | `"00:30"` displays as `12:30 ص` |
| ShiftTimeModal.HalfPastNoon | frontend/src/components/settings/ShiftTimeModal.tsx:14-16 | `"12:30"` displays as `12:30 م` |
| ShiftTimeModal.ConvertIsDisplay | frontend/src/components/settings/ShiftTimeModal.tsx:12-16 | a readable time is not empty, and shows as the template of its dial hour, its minutes and its period |
| ShiftTimeModal.DisplayIgnoresLaterFields | frontend/src/components/settings/ShiftTimeModal.tsx:13 | fields after the minutes are dropped: a canonical time followed by seconds shows as the time alone |
| ShiftTimeModal.EightOnTheDial | frontend/src/components/settings/ShiftTimeModal.tsx:16 | dial hour 8 and minute 0 before noon show as `08:00 ص` |
| ShiftTimeModal.EightWithSeconds | frontend/src/components/settings/ShiftTimeModal.tsx:11-17 | `"08:00"` with any seconds field, as a `type="time"` input may give, shows as `08:00 ص` |
| Attendance.WholeMinutes | src/pages/KioskPage.tsx:96-98 | `Math.floor(ms / 60000)`: the one integer `m` with `m*60000 <= ms < (m+1)*60000`, for negative `ms` too |
| Attendance.WholeMinutesUnique | src/pages/KioskPage.tsx:96-98 | any integer bracketing `ms` that way is the floored minute count |
| Attendance.LateMinutes | src/pages/KioskPage.tsx:91-98 | 0 when on time; when late, the floored minutes since the nominal start, which are at least the grace minutes |
| Attendance.LateMinutesNonNegative | src/pages/KioskPage.tsx:96-98 | with a grace of 0 or more, late minutes are never negative |
| Attendance.GraceBoundary | src/pages/KioskPage.tsx:92-95 | a scan exactly at the grace end is on time with 0 late minutes; one millisecond later it is late by the grace minutes |
| Attendance.NoGraceMeansStart | src/pages/KioskPage.tsx:93 | a null grace is a grace of 0: late exactly after the nominal start |
| Attendance.NegativeGraceChargesEarlyScan | src/pages/KioskPage.tsx:92-98 | a negative grace makes a scan before the start late, with negative late minutes |
| Attendance.ScheduledMinutes | src/pages/KioskPage.tsx:100-104 | floored minutes from start to end; non-negative exactly when the end is not before the start, since there is no overnight correction |
| Attendance.ActualMinutes | src/pages/KioskPage.tsx:154-157 | floored minutes from check-in to now, non-negative when now is not before the check-in |
| Attendance.LostMinutes | src/pages/KioskPage.tsx:158-161 | `max(0, scheduled - actual)`: never negative and never less than the shortfall |
| Attendance.LostCoversSchedule | src/pages/KioskPage.tsx:158-161 | lost plus actual minutes cover the schedule; exactly when the trainee worked no more than scheduled; lost is 0 otherwise |
| Attendance.EarlyLeaveMinutes | src/pages/KioskPage.tsx:163-167 | never negative; 0 from the end on; before the end, the floored minutes left |
| Attendance.EarlyIffWholeMinute | src/pages/KioskPage.tsx:163-167 | a leave counts as early exactly when at least a whole minute is left |
| Attendance.WorkedDay | src/pages/KioskPage.tsx:91-167 | an 08:00–16:00 shift with 10 minutes' grace, in at 08:15 and out at 15:50: 15 late, 480 scheduled, 455 actual, 25 lost, 10 early |
| Attendance.CheckInNotice | src/pages/KioskPage.tsx:123-130 | a check-in is always a success; it is on time exactly when not late, and otherwise carries the late minutes |
| KioskPage.CheckIn | src/pages/KioskPage.tsx:106-121 | the upsert adds at most its key and keeps every other session. It writes the check-in instant, late and scheduled minutes, and `"late"` exactly when late, else `"present"`. It keeps an existing session's check-out columns and gives a new one the column defaults |
| KioskPage.CheckOut | src/pages/KioskPage.tsx:154-177 | the check-out writes only the check-out instant and the actual, lost and early-leave minutes; lost and early-leave are never negative; status, late and scheduled minutes are untouched |
| KioskPage.CheckOutNotice | src/pages/KioskPage.tsx:179-187 | a check-out that gets this far is a success; it is early exactly when early-leave minutes are positive, and carries them |
| KioskPage.ScanOutcome | src/pages/KioskPage.tsx:43-195 | a trimmed barcode that matches no trainee is reported as not found and writes nothing; a scan succeeds exactly when the trainee and today's schedule are found and the mode's write can be made; a scan that does not succeed leaves the sessions table as it was |
| KioskPage.LookupOutcome | src/pages/KioskPage.tsx:43-84 | an unknown barcode is not found with the unknown name; a trainee without today's schedule gets "no shift today" with their name and rank; neither writes anything; success exactly when both are found and the mode's write can be made |
| KioskPage.ShiftOutcome | src/pages/KioskPage.tsx:89-188 | success exactly when a check-in's upsert raises no error or a check-out finds a checked-in session; a failure writes nothing; only a successful check-in adds a key, today's key for the shift |
| KioskPage.CheckInOutcome | src/pages/KioskPage.tsx:106-130 | success exactly when the upsert raises no error. A failure shows the error's message with no name, as the `catch` at lines 189-194 does, and writes nothing. A success shows the trainee and the check-in notice, and writes exactly the upsert: it adds at most its key, keeps every other session, stamps the scan as the check-in, writes `"late"` exactly when the scan is later than the start plus the grace, and stores the late minutes and the scheduled minutes from start to end; the notice reports the same lateness and late minutes |
| KioskPage.CheckOutOutcome | src/pages/KioskPage.tsx:131-188 | success exactly when today's session has a check-in; otherwise "no check-in today" and nothing written. A success shows "early" with the early-leave minutes exactly when a whole minute of the shift remains (lines 179-187), and "complete" otherwise. It changes only that session's check-out columns, writing the check-out instant and the actual, lost and early-leave minutes of lines 154-177, or nothing when the update fails |
| KioskPage.SpacesIgnored | src/pages/KioskPage.tsx:39-49 | white space around the barcode does not change the scan's outcome |
| KioskPage.ReachesShift | src/pages/KioskPage.tsx:43-89 | once the trainee and today's schedule are found, the scan is the check-in in check-in mode and the check-out otherwise |
| KioskPage.CheckInEffect | src/pages/KioskPage.tsx:106-130 | a successful check-in adds at most the scanned key and writes exactly the upsert. It records the scan as the check-in, writes `"late"` exactly when the scan is later than the shift's start plus its grace, stores the late and scheduled minutes, and shows the check-in notice with the stored late minutes |
| KioskPage.CheckOutEffect | src/pages/KioskPage.tsx:133-187 | a successful check-out finds the scanned session and shows "early" exactly when a whole minute of the shift remains. It changes only the session's check-out columns, writing the check-out instant and the actual, lost and early-leave minutes. When the update fails, the table stays as it was and success is still shown |
| KioskPage.ReScanOverwrites | src/pages/KioskPage.tsx:106-119 | checking in twice on one key keeps one session, stamped by the later scan, with any recorded check-out kept |
| KioskPage.SessionTable.constructor | src/integrations/supabase/types.ts:17-30 | the `attendance_sessions` table starts with the given sessions, one per (trainee, day, shift) key |
| KioskPage.Kiosk.constructor | src/pages/KioskPage.tsx:24-27 | the page starts in check-in mode with an empty barcode, no result and no scan in flight |
| KioskPage.Kiosk.SetMode | src/pages/KioskPage.tsx:206-217 | the mode buttons change the mode and nothing else |
| KioskPage.Kiosk.SetBarcode | src/pages/KioskPage.tsx:241 | typing changes the barcode field and nothing else |
| KioskPage.Kiosk.HandleScan | src/pages/KioskPage.tsx:38-200 | a blank barcode or a scan while scanning changes nothing. Otherwise the shown result and the sessions table are the scan's outcome for the trimmed barcode, the field is cleared, the scan ends and the mode is kept |
| KioskPage.Kiosk.Scan | src/pages/KioskPage.tsx:43-199 | every path through the lookups, the upsert and the update ends with the outcome shown, the field cleared and scanning off |
| MockKioskPage.MockSchedulesWellFormed | frontend/src/pages/KioskPage.tsx:43-52 | every start time in the constant schedule table is one the page reads as hours and minutes |
| MockKioskPage.MockStartsAt480 | frontend/src/pages/KioskPage.tsx:43-52 | the one constant shift, `"08:00"`, starts at minute 480 of the day |
| MockKioskPage.MockOutcome | frontend/src/pages/KioskPage.tsx:74-138 | a barcode is not found exactly when it is no trainee's key. "No shift today" is shown exactly when the trainee's group has no schedule. Out mode succeeds only with "complete", and a check-in shows the lateness notice |
| MockKioskPage.MockTablesAlwaysScheduled | frontend/src/pages/KioskPage.tsx:38-52 | under the corrected own-key lookup of the first Findings row, "no shift today" never shows with the constant tables |
| MockKioskPage.MockCheckInNotice | frontend/src/pages/KioskPage.tsx:111-129 | a check-in by either known trainee is judged against 08:00 with ten minutes' grace |
| MockKioskPage.MockCheckIn | frontend/src/pages/KioskPage.tsx:111-129 | a known trainee is on time up to 08:10 inclusive, and after that late by the floored minutes since 08:00 |
| MockKioskPage.AsWrittenNotice | frontend/src/pages/KioskPage.tsx:76-106 | as written, a key inherited from `Object.prototype` that is not a trainee yields "no shift today"; every other key gives the corrected outcome |
| MockKioskPage.PrototypeKeyMisreported | frontend/src/pages/KioskPage.tsx:76-88 | scanning the text `toString` shows "no shift today" as written, where "trainee not found" is meant |
| MockKioskPage.MockKiosk.constructor | frontend/src/pages/KioskPage.tsx:55-58 | the page starts in check-in mode with an empty barcode, no result and no scan in flight |
| MockKioskPage.MockKiosk.HandleScan | frontend/src/pages/KioskPage.tsx:69-150 | a blank barcode or a scan while scanning changes nothing. Otherwise the result is the mock outcome for the trimmed barcode, the field is cleared, scanning is off on every path and the mode is kept; it follows the corrected own-key lookup `MockOutcome` of the first Findings row |
| MockKioskPage.MockKiosk.Scan | frontend/src/pages/KioskPage.tsx:74-146 | every branch shows the mock outcome and clears the field; it follows the corrected own-key lookup `MockOutcome` of the first Findings row |
| Lists.Filter | src/components/AppSidebar.tsx:54-56 | `filter`: a list no longer than the input, holding only input elements that pass, and holding each input element exactly when it passes |
| Lists.FilterConcat | frontend/src/components/settings/RanksManagementTab.tsx:69 | filtering a concatenation filters each part and keeps them in order |
| Lists.FilterAll | src/components/AppSidebar.tsx:54-56 | when every element passes, the list comes back unchanged |
| Lists.FilterNone | src/components/AppSidebar.tsx:54-56 | when no element passes, the result is empty |
| Lists.FilterSplitAt | src/components/AppSidebar.tsx:54-56 | filtering a list is filtering its first `n` elements and then the rest |
| Lists.FilterPrefix | src/components/AppSidebar.tsx:54-56 | when exactly the first `n` elements pass, the result is that prefix |
| Lists.FilterNoDuplicates | backend/services/traineeService.js:139-143 | filtering a list without duplicates gives one without duplicates |
| Lists.AppendNoDuplicates | backend/services/traineeService.js:78-82 | appending a value not yet present keeps a list free of duplicates |
| Lists.Remove | backend/services/traineeService.js:139-143 | `$pull`: the value is gone, every other element of the list is kept, nothing new appears, an absent value changes nothing, and a list without duplicates stays so |
| AppSidebar.ShownTo | src/components/AppSidebar.tsx:55 | the filter callback keeps an item exactly when there is a role and the item's roles include it |
| AppSidebar.VisibleItems | src/components/AppSidebar.tsx:54-56 | the menu holds only items of the table that the role may see, and holds each such item |
| AppSidebar.NoRoleNoItems | src/components/AppSidebar.tsx:55 | without a role nothing is shown |
| AppSidebar.AdminSeesAll | src/components/AppSidebar.tsx:23-49 | an admin sees all five items in table order |
| AppSidebar.OperatorItems | src/components/AppSidebar.tsx:23-49 | an operator sees the first four items, in table order |
| AppSidebar.ViewerItems | src/components/AppSidebar.tsx:23-49 | a viewer sees the dashboard, the trainees and the reports, in table order |
| AppSidebar.SettingsAdminOnly | src/components/AppSidebar.tsx:48 | the settings item is shown exactly to an admin |
| AppSidebar.KioskNotForViewers | src/components/AppSidebar.tsx:30-35 | the kiosk item is shown exactly to admins and operators |
| AppSidebar.CommonItems | src/components/AppSidebar.tsx:24-47 | dashboard, trainees and reports are shown to every role |
| RanksManagementTab.WithoutId | frontend/src/components/settings/RanksManagementTab.tsx:69 | no entry with the target id remains, nothing new appears, and every other entry is kept |
| RanksManagementTab.WithoutAbsentId | frontend/src/components/settings/RanksManagementTab.tsx:69 | deleting an id no entry carries leaves the list as it was |
| RanksManagementTab.WithoutIdConcat | frontend/src/components/settings/RanksManagementTab.tsx:69 | the delete keeps the remaining entries in their order |
| RanksManagementTab.Renamed | frontend/src/components/settings/RanksManagementTab.tsx:91-95 | the same length and ids at every position; the name changes exactly where the id matches |
| RanksManagementTab.RenameAbsentId | frontend/src/components/settings/RanksManagementTab.tsx:91-95 | renaming an id no entry carries leaves the list as it was |
| RanksManagementTab.RenameIdempotent | frontend/src/components/settings/RanksManagementTab.tsx:91-95 | renaming twice to the same name is renaming once |
| RanksManagementTab.RenameThenDelete | frontend/src/components/settings/RanksManagementTab.tsx:67-95 | a rename does not change how many entries a later delete keeps |
| RanksManagementTab.RanksTab.constructor | frontend/src/components/settings/RanksManagementTab.tsx:27-40 | the tab starts with the initial rank list, an empty name, closed dialogs and no edit or delete target |
| RanksManagementTab.RanksTab.SetRankName | frontend/src/components/settings/RanksManagementTab.tsx:124 | typing sets the add dialog's name |
| RanksManagementTab.RanksTab.HandleAddRank | frontend/src/components/settings/RanksManagementTab.tsx:42-59 | a blank name changes nothing. Otherwise exactly one entry with the fresh id and the typed name is appended after the unchanged entries, the name is cleared and the dialog closes |
| RanksManagementTab.RanksTab.HandleDeleteRank | frontend/src/components/settings/RanksManagementTab.tsx:61-65 | the delete target is remembered and the confirmation opens |
| RanksManagementTab.RanksTab.ConfirmDelete | frontend/src/components/settings/RanksManagementTab.tsx:67-74 | with no target nothing happens. Otherwise every entry with the target id is removed, the rest are kept and the target is cleared |
| RanksManagementTab.RanksTab.HandleEditRank | frontend/src/components/settings/RanksManagementTab.tsx:76-80 | the entry is loaded into the edit dialog, which opens |
| RanksManagementTab.RanksTab.SetEditingRankName | frontend/src/components/settings/RanksManagementTab.tsx:154 | typing sets the edit dialog's name |
| RanksManagementTab.RanksTab.HandleUpdateRank | frontend/src/components/settings/RanksManagementTab.tsx:82-100 | a blank name or no edited id changes nothing. Otherwise the list is renamed at the edited id and the edit state is cleared and closed |
| Store.Push | backend/services/traineeService.js:78-82 | the intended `$push` (second Findings row): the shift's list gains the id at its end; no other shift changes; a missing shift changes nothing |
| Store.Pull | backend/services/traineeService.js:139-143 | the intended `$pull` (second Findings row): the id leaves that shift's list; no other shift changes; a missing shift changes nothing |
| Store.InsertKeepsInStep | backend/services/traineeService.js:67-82 | a trainee saved under a fresh id and pushed onto its existing shift keeps every list in step |
| Store.MoveKeepsInStep | backend/services/traineeService.js:136-150 | a trainee moved to another existing shift, pulled from the old list and pushed onto the new one, keeps every list in step |
| Store.EditKeepsInStep | backend/services/traineeService.js:153 | an edit that keeps the trainee's shift keeps every list in step |
| Store.DeleteKeepsInStep | backend/services/traineeService.js:160-171 | deleting a trainee and pulling it from its shift keeps every list in step |
| Store.NewShiftKeepsInStep | backend/services/shiftService.js:19-26 | a new shift under a fresh id with an empty list keeps every list in step |
| Store.EditShiftKeepsInStep | backend/services/shiftService.js:37-42 | changing a shift's other fields keeps every list in step |
| Store.DeleteShiftKeepsInStep | backend/services/shiftService.js:45-53 | deleting a shift keeps the remaining lists in step |
| Store.PushAsWritten | backend/models/Shift.js:3-30 | as the schema has it, the member update changes no shift |
| Store.StrictSchemaLosesMembership | backend/services/traineeService.js:78-82 | a store in step, after a create whose push is dropped, is no longer in step; with the push it is |
| TraineeService.CreateInputError | backend/services/traineeService.js:24-47 | the body passes exactly when both ids are numeric once trimmed, the name is not blank, and rank, specialty and shift are given |
| TraineeService.CreateInputChecksInOrder | backend/services/traineeService.js:24-47 | each message is reported exactly when every earlier check passed and its own failed |
| TraineeService.CreateError | backend/services/traineeService.js:24-65 | a create passes all checks exactly when the body is complete and the shift, rank and specialization exist; a body error comes first |
| TraineeService.CreateReferencesInOrder | backend/services/traineeService.js:49-65 | the shift, then the rank, then the specialization is looked up; the first one missing is reported |
| TraineeService.NewTrainee | backend/services/traineeService.js:67-74 | the saved document holds the trimmed, all-digit ids, a non-empty trimmed name and the given references |
| TraineeService.CreateTrainee | backend/services/traineeService.js:23-91 | a failed check changes nothing and reports its message. Otherwise exactly one trainee is added under a fresh id and pushed onto its shift's list, nothing else changes, and the lists stay in step |
| TraineeService.Insert | backend/services/traineeService.js:67-82 | the save and the push: the new trainee under a fresh id, listed by its shift |
| TraineeService.UpdateInputError | backend/services/traineeService.js:94-108 | the body passes exactly when each given id is numeric once trimmed and a given name is not blank; fields that are absent or empty are not checked |
| TraineeService.UpdateInputChecksInOrder | backend/services/traineeService.js:94-108 | each message is reported exactly when every earlier check passed and its own failed |
| TraineeService.EmptyFieldsPassUpdateChecks | backend/services/traineeService.js:94-108 | empty strings are falsy and pass every check |
| TraineeService.BlankCivilIdRejected | backend/services/traineeService.js:94-96 | a civil id of white space only is rejected as empty |
| TraineeService.UpdateError | backend/services/traineeService.js:93-134 | an update passes exactly when the body passes, the trainee exists and every reference given exists |
| TraineeService.UpdateLookupsInOrder | backend/services/traineeService.js:110-134 | an unknown trainee is reported before any reference; then the rank, the specialization and the shift are checked in that order |
| TraineeService.Updated | backend/services/traineeService.js:153 | a given string field is stored trimmed; an absent one is kept |
| TraineeService.Edited | backend/services/traineeService.js:153 | every field given is replaced and every other field kept |
| TraineeService.Moves | backend/services/traineeService.js:130-137 | the update moves the trainee exactly when a shift is supplied and the edited trainee's shift differs from the current one |
| TraineeService.Save | backend/services/traineeService.js:136-153 | the edited trainee is written; on a change of shift it is pulled from the old list and pushed onto the new one, and every list stays in step |
| TraineeService.UpdateTrainee | backend/services/traineeService.js:93-158 | a failed check changes nothing. Otherwise the given fields are written. On a change of shift the trainee is pulled from the old list and pushed onto the new one; the same shift leaves every list unchanged. The lists stay in step |
| TraineeService.DeleteTrainee | backend/services/traineeService.js:160-174 | an unknown id fails and changes nothing. Otherwise the trainee is removed and pulled from its shift's list, and the lists stay in step |
| TraineeService.DeletedIsUnlisted | backend/services/traineeService.js:166-171 | after a delete no shift lists the trainee |
| ShiftService.Saveable | backend/models/Shift.js:5-22 | the schema's `required` checks on the name and both times reject exactly the falsy empty string, the same test as the service's presence check, and `min: 0` rejects a negative grace |
| ShiftService.NewShift | backend/services/shiftService.js:19-24 | the new document has the trimmed name, the given times, the grace period or 0, no effective start time and no members |
| ShiftService.NewShiftSaveable | backend/services/shiftService.js:15-26 | once the three fields are present, a new shift saves exactly when its name is not blank and its grace is not negative |
| ShiftService.CreateShift | backend/services/shiftService.js:12-27 | a missing field or failed validation changes nothing. Otherwise exactly one shift is added under a fresh id, and nothing else changes |
| ShiftService.Insert | backend/services/shiftService.js:19-26 | the save: the new shift under a fresh id |
| ShiftService.Assigned | backend/services/shiftService.js:37-40 | each field that is not `undefined` is replaced (the name trimmed) and every other field kept, including the effective start time and the members |
| ShiftService.EmptyUpdateAssignsNothing | backend/services/shiftService.js:37-40 | an empty body assigns nothing |
| ShiftService.AssignIdempotent | backend/services/shiftService.js:37-40 | assigning the same body twice is assigning it once |
| ShiftService.EmptyFieldFailsUpdate | backend/services/shiftService.js:37-42 | an empty name, start or end, or a negative grace, fails validation |
| ShiftService.UpdateShift | backend/services/shiftService.js:29-43 | an unknown id or failed validation changes nothing. Otherwise only that shift's assigned fields change |
| ShiftService.DeleteShift | backend/services/shiftService.js:45-53 | an unknown id fails and changes nothing. Otherwise the shift is gone, and its trainees keep their reference |
| RankService.CreateRank | backend/services/rankService.js:12-20 | a missing or blank name changes nothing. Otherwise exactly one rank with the given name is added under a fresh id |
| RankService.Insert | backend/services/rankService.js:16-19 | the save: the new rank under a fresh id |
| RankService.UpdateRank | backend/services/rankService.js:22-27 | a blank name fails before the store is touched. An unknown id yields no document and changes nothing. Otherwise only that rank's name changes |
| RankService.DeleteRank | backend/services/rankService.js:29-35 | an unknown id fails and changes nothing. Otherwise the rank is removed and returned |
| SpecializationService.Named | backend/services/specializationService.js:16-18 | the stored name is non-empty and trimmed at both ends |
| SpecializationService.StoredNameIsStable | backend/services/specializationService.js:26-30 | renaming to the stored name keeps the document unchanged |
| SpecializationService.CreateSpecialization | backend/services/specializationService.js:12-20 | a missing or blank name changes nothing. Otherwise exactly one specialization with the trimmed name is added under a fresh id |
| SpecializationService.Insert | backend/services/specializationService.js:16-19 | the save: the new specialization under a fresh id |
| SpecializationService.UpdateSpecialization | backend/services/specializationService.js:22-31 | a blank name fails before the store is touched. An unknown id yields no document and changes nothing. Otherwise only that name changes |
| SpecializationService.DeleteSpecialization | backend/services/specializationService.js:33-39 | an unknown id fails and changes nothing. Otherwise the specialization is removed and returned |
| Controllers.UpdateStatus | backend/controllers/rankController.js:33-43 | 400 exactly for a thrown error, 404 exactly for a null document, 200 exactly for a document |
| Controllers.UpdateRank | backend/controllers/rankController.js:33-43 | 400 exactly for a missing or blank name, 404 exactly for an unknown id with a valid name, 200 otherwise |
| Controllers.UpdateSpecialization | backend/controllers/specializationController.js:37-50 | 400 exactly for a missing or blank name, 404 exactly for an unknown id with a valid name, 200 otherwise |

## Left out

- Rendering, dialogs, toasts, focus handling and the four-second `setTimeout` that clears a kiosk result are not modelled. They only display state.
- Date and time parsing are not modelled: `new Date(...)`, time zones, `format(new Date(), "yyyy-MM-dd")` and ISO strings. Instants are integer milliseconds. A kiosk shift's start and end enter as offsets from a caller-supplied local midnight, and the day's date is a parameter.
- Supabase queries are not modelled; scans run against maps instead. A query error on the trainee lookup is modelled as "not found". Barcodes are taken as unique, so `maybeSingle` never sees two rows. The check-in upsert's error and the check-out update's success are parameters of the scan's `Context`. `group_schedules` is a map keyed by (group, day), so two schedules for one group and day are not modelled; `maybeSingle` then errors with null data and the page shows "no shift today" (src/pages/KioskPage.tsx:66-71). A schedule is taken to carry its joined shift; a null `shifts` join, whose `shift.start_time` throws into the `catch`, is not modelled. The defaults of a new session (`KioskPage.Blank`: no check-out, 0 minutes) are taken as the table's column defaults; the row type only marks those columns optional (src/integrations/supabase/types.ts:34-50).
- Concurrency is not modelled: two kiosks scanning at once, and the atomicity of the upsert. The store is sequential.
- KioskPage.Kiosk.HandleScan: a scan runs as one atomic step, so the `scanning` guard at src/pages/KioskPage.tsx:39 never fires in the model. A second scan started during the page's awaits, which is the case the guard exists for, cannot be expressed.
- MockKioskPage.MockKiosk.HandleScan: the `scanning` guard at frontend/src/pages/KioskPage.tsx:70 never fires either, because the mock scan is one atomic step. The scan follows the corrected lookup `MockOutcome` of the first Findings row. For a barcode naming an `Object.prototype` member such as `toString`, the page as written shows "no shift today" (`MockKioskPage.AsWrittenNotice`).
- KioskPage.CheckInOutcome: the upsert error is taken to carry a message. The `catch` fallback `"فشل المسح"` for an error without one (src/pages/KioskPage.tsx:193) is not modelled.
- TimeUtils.EffectiveStartTime: each of the first two `:` fields must be a run of ASCII digits, possibly empty, and there must be a colon. `Number`'s other readings are not modelled: surrounding white space (`" 8"` is 8), signs, decimals, exponents and hexadecimal. Neither are the `NaN` results a text that is not a number gives, printed as `"NaN:NaN"`, nor input without a colon, whose minutes are `undefined`.
- ShiftTimeModal.ConvertTo12HourArabic: the same restriction on its input as TimeUtils.EffectiveStartTime. White space inside a field, non-numeric fields that show as `NaN`, and input without a colon are not modelled.
- MockKioskPage.MockKiosk.Scan: it, too, follows the corrected lookup `MockOutcome`, not the page as written.
- MockKioskPage.MockTablesAlwaysScheduled: it holds for the corrected lookup `MockOutcome`; as written, `toString` does show "no shift today".
- Mongoose is modelled only through the behaviours the services depend on:
  - `trim: true` setters, on saves and on updates;
  - the Shift schema's `required` and `min: 0` validation on `save()`;
  - strict mode, which drops undeclared paths.
  It is otherwise left out: casting of ill-formed ids (`CastError`), unique indexes, timestamps, `populate` and `sort`.
- Store.Push and Store.Pull: they model the member update the services intend. As written, the Shift schema's strict mode drops it (`Store.PushAsWritten`, second Findings row).
- TraineeService.CreateTrainee, TraineeService.UpdateTrainee and TraineeService.DeleteTrainee (with TraineeService.Insert, TraineeService.Save and TraineeService.DeletedIsUnlisted): these use the corrected `Store.Push` and `Store.Pull` of the second Findings row. As the Shift schema is written, the member update changes no shift's list (`Store.PushAsWritten`), so the list changes these rows describe do not happen.
- TraineeService.UpdateTrainee: a reference id in the body is either absent or a typed id. An empty-string reference id is not modelled, because its cast is Mongoose-internal. Extra fields in the body are not modelled either.
- ShiftService.UpdateShift: a `null` field is not modelled, and the grace period is an integer. A validation failure has the message prefix "Shift validation failed" without Mongoose's per-path details.
- RankService.CreateRank: backend/models/Rank.js is not part of this model, so a rank's name is stored exactly as given.
- The read operations are not modelled: `getAll*` and `get*ById` in the four services. They are queries with `populate` and `sort`.
- The HTTP controllers are left out beyond the update status mapping. So are the routes, `app.js` and the front end's fetch wrappers.
- The front end's `SpecializationsManagementTab` is not modelled. It repeats the rank tab's list handling around network calls.
- The rank tab's dialog open/close callbacks (`onOpenChange`) are not modelled, and neither is the confirmation modal, which owns closing itself. `Math.random().toString()` is the parameter `freshId` of `HandleAddRank`, so uniqueness of the new id is not claimed.
- Authentication, the dashboard, reports and the trainee search filters are not modelled. They are mock data or display.

## Findings

| source | as written | input that shows it | evidently intended | confidence | as-written member | corrected member |
|---|---|---|---|---|---|---|
| frontend/src/pages/KioskPage.tsx:76-106 | `mockTrainees[barcode.trim()]` also finds keys inherited from `Object.prototype`; the truthy value that comes back has no `group_id`, so the page reports "no shift today" | the barcode text `toString` (`MockKioskPage.PrototypeKeyMisreported`) | only the table's own keys are trainees, so `toString` is "trainee not found" | not executed; high: plain object indexing | MockKioskPage.AsWrittenNotice | MockKioskPage.MockOutcome |
| backend/models/Shift.js:3-30 | the Shift schema declares no `trainees` path, so under Mongoose's default strict mode the `$push` and `$pull` of `backend/services/traineeService.js` are dropped and no shift ever lists a trainee | an empty store with one shift, then a create on that shift (`Store.StrictSchemaLosesMembership`) | each shift's `trainees` list follows its trainees' `shift_id` | not executed; medium: rests on Mongoose's strict mode applying to updates | Store.PushAsWritten | Store.Push |
