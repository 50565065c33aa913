# KoCon dispenser dashboard — a Dafny model of its core

KoCon is a clinician dashboard for a smart medication dispenser. It is paired
with a simulated patient app. This project models the part of it that decides
things:

- **The dose-eligibility state machine.** Each dispenser is READY, LOCKED or
  EMPTY. The verdict comes from four rules checked in a fixed order:
  1. the cartridge level;
  2. today's dose count against the daily limit;
  3. the allowed window of the day;
  4. the cooldown since the last dose.

  The model also covers the countdown the locked screen shows, and the
  dispense handler with its emergency override.
- **The in-memory patient store.** It has three updates: a new prescription,
  a new log entry, and a new patient. A dose entry lowers the cartridge by
  one, floored at zero; every new entry re-sorts the log newest-first.
- **The views' derived data:**
  - the per-day chart of a patient's log, with the log table labels;
  - the prescription form's save hand-off;
  - the practice overview counts;
  - the patient search;
  - the record a newly registered device starts with.

Time is an integer number of milliseconds (`Types.Instant`). The local
calendar day and the minute of the day come from a fixed offset to UTC
(`LocalTime.UtcOffsetMs`).

Modules, one file each:

- `Types` (types.dfy): the records.
- `LocalTime` (local_time.dfy): instants and the local clock.
- `Text` (text.dfy): the string helpers the views use.
- `Lists` (lists.dfy): `Array.prototype.filter` and its laws.
- `Eligibility` (eligibility.dfy): the status rules and the countdown.
- `Store` (store.dfy): the patient store, as functions plus the class
  `PatientStore`.
- `Simulator` (simulator.dfy): the patient app as the class `PatientApp`,
  with the 1500 ms dispense delay as a separate step (`Complete`). The app
  shows the record it is given; `Rerender` gives it the record again.
- `PatientDetail` (detail.dfy): the chart, as a loop proved equal to a
  reference fold; the labels; and the save hand-off as the class
  `ConfigEditor`.
- `Dashboard` (dashboard.dfy), `PatientList` (patient_list.dfy) and
  `Registration` (registration.dfy).
- `Scenarios` (scenarios.dfy): worked days on an arbitrary calendar day.

Points where the code behaves differently from what one might expect, and
the model follows the code:

- Registration draws random ids, and nothing makes them unique.
  `Registration.IdsMayCollide` shows two records can get the same id.
  `Store.ConfigUpdated` and `Store.LogAdded` then update every record with
  that id.
- A refused press writes no ATTEMPT_BLOCKED entry. `Simulator.PatientApp.Press`
  leaves the record untouched.
- The countdown is rounded down to whole seconds. It reads "00:00:00" during
  the last second of a cooldown, while the app is still locked
  (`Eligibility.CountdownZeroInLastSecond`).
- The patient list opens the app on the record it held when the eye button
  was pressed, and never gives the app a newer one. A dose dispensed there is
  stored, but the app keeps evaluating the old record, so a second regular
  press 1.5 s later is accepted although the stored record is in its cooldown
  (`Scenarios.ListSnapshotSecondPress`). The patient-role screen and the
  patient page read the record from the store again on every render.
- The dispense handler itself does not look at `emergencyUnlock`. Only the
  button's visibility depends on it. `Simulator.PressRefusals` states the
  guard exactly as written.

## Model

| member | source | states |
|---|---|---|
| Types.StatusLabel | types.ts:1-6 | every device status displays as one of the four enum strings |
| Types.StatusLabelInjective | types.ts:1-6 | different statuses never display the same string |
| LocalTime.MinuteOfDay | components/PatientAppSimulator.tsx:39 | the minute of the local day is below 1440 |
| LocalTime.AtRoundTrip | components/PatientAppSimulator.tsx:27-29 | the instant built from a day and a minute reads back as that same day and minute |
| Text.NatToString | components/PatientAppSimulator.tsx:85 | `toString` of a natural number: decimal digits denoting it, without a leading zero, one digit exactly below 10 |
| Text.PadStart2 | components/PatientAppSimulator.tsx:85 | `padStart(2,'0')`: length at least two, the original string at the end, zeros before it |
| Text.Padded | components/PatientAppSimulator.tsx:85 | a number's padded field: digits denoting it, at least two of them, exactly two below 100, and no leading zero when longer |
| Text.PadStart2Value | components/PatientAppSimulator.tsx:85 | padding keeps the numeric value of a digit string |
| Text.ToLower | components/PatientList.tsx:20-21 | same length, each character mapped to lower case |
| Text.ContainsIff | components/PatientList.tsx:20-21 | `includes` holds exactly when the term occurs as a contiguous slice at some position |
| Lists.Filter | components/Dashboard.tsx:11-13 | the result is an order-preserving sub-list in which every element satisfying the test occurs exactly as often as in the input and no other element occurs |
| Lists.Occurrences | components/Dashboard.tsx:11-13 | the number of times a value occurs in a list |
| Lists.OccurrencesMultiset | components/Dashboard.tsx:11-13 | that count is the value's multiplicity in the list's multiset |
| Lists.FilterCons | components/Dashboard.tsx:11-13 | `filter` on a list with one more element in front adds that element in front exactly when it passes the test |
| Lists.FilterSame | components/PatientDetail.tsx:31 | two tests that agree on every value filter any list the same way |
| Lists.FilterLengthPermutation | components/PatientAppSimulator.tsx:28-30 | a filtered count does not depend on the order of the list |
| Eligibility.TodaysDoses | components/PatientAppSimulator.tsx:27-30 | the entries counted are the regular and emergency doses on the current local day, each as often as it is logged, in log order |
| Eligibility.DosesToday | components/PatientAppSimulator.tsx:28-30 | the count is at most the log length, and zero exactly when no entry is a dose of the current day |
| Eligibility.DosesTodayCons | components/PatientAppSimulator.tsx:28-30 | one more entry raises the count by one exactly when it is a dose of today; blocked attempts and device errors never count |
| Eligibility.DosesTodayPermutation | components/PatientAppSimulator.tsx:28-30 | the daily count is the same for any ordering of the same entries |
| Eligibility.GetMinutes | components/PatientAppSimulator.tsx:35-38 | an "HH:MM" string with hours below 24 and minutes below 60 denotes a minute of the day |
| Eligibility.GetMinutesOfFormatTime | components/PatientAppSimulator.tsx:35-38 | an "HH:MM" string parses to hours times sixty plus minutes |
| Eligibility.IsOutsideWindow | components/PatientAppSimulator.tsx:39-43 | the window test; its meaning is stated by WindowInclusive |
| Eligibility.WindowInclusive | components/PatientAppSimulator.tsx:39-43 | inside the window exactly when start <= current minute <= end, both ends inclusive |
| Eligibility.InvertedWindowAlwaysOutside | components/PatientAppSimulator.tsx:43 | a window whose start is after its end does not wrap past midnight: every minute is outside it |
| Eligibility.FirstDoseIndex | components/PatientAppSimulator.tsx:46 | `find`: the position of a dose entry with no dose entry before it, or the length when there is none |
| Eligibility.LastDose | components/PatientAppSimulator.tsx:46 | present exactly when the log holds a dose, and then it is the dose entry at a position with no dose entry before it |
| Eligibility.NextAvailableTime | components/PatientAppSimulator.tsx:47-55 | the epoch when no dose is logged, otherwise no earlier than the last dose |
| Eligibility.IsIntervalLocked | components/PatientAppSimulator.tsx:57 | the cooldown test; its meaning is stated by CooldownReleasesExactly |
| Eligibility.CooldownReleasesExactly | components/PatientAppSimulator.tsx:49-57 | the cooldown holds exactly while now is before the last dose plus the interval |
| Eligibility.NoDoseNoCooldown | components/PatientAppSimulator.tsx:52-57 | with no dose ever logged the cooldown never holds after the epoch |
| Eligibility.Evaluate | components/PatientAppSimulator.tsx:58-76 | EMPTY exactly when the level is at most zero; locked for the daily limit exactly when medication is left and the count has reached the limit |
| Eligibility.EmptyOverridesAll | components/PatientAppSimulator.tsx:58-66 | EMPTY exactly when the cartridge level is at most zero, whatever the other rules say |
| Eligibility.DailyLimitBeforeWindowAndCooldown | components/PatientAppSimulator.tsx:67-69 | with cartridge left and the limit reached the reason is the daily limit, ahead of window and cooldown |
| Eligibility.LockReasons | components/PatientAppSimulator.tsx:64-76 | the window and cooldown reasons each hold exactly when their rule fails and every earlier rule passed |
| Eligibility.ReadyIffAllRulesPass | components/PatientAppSimulator.tsx:61-76 | READY exactly when the cartridge is not empty, the limit is not reached, the time is in the window and no cooldown holds |
| Eligibility.LockReasonText | components/PatientAppSimulator.tsx:62-76 | the message per status; its meaning is stated by LockReasonShownIffNotReady |
| Eligibility.EmergencyOffered | components/PatientAppSimulator.tsx:216 | the override button's condition; its meaning is stated by EmergencyOfferedOnlyWhenLocked |
| Eligibility.DispenseButtonEnabled | components/PatientAppSimulator.tsx:170 | the dispense button's condition; its meaning is stated by EmergencyOfferedOnlyWhenLocked |
| Eligibility.LockReasonShownIffNotReady | components/PatientAppSimulator.tsx:62-76 | a lock reason text is shown exactly when the status is not READY |
| Eligibility.EmergencyOfferedOnlyWhenLocked | components/PatientAppSimulator.tsx:216 | the override button never shows together with an enabled dispense button, and an empty cartridge offers neither |
| Eligibility.ClockFields | components/PatientAppSimulator.tsx:81-84 | minutes and seconds are below sixty and the three fields add up to the whole seconds of the remaining time |
| Eligibility.CountdownParts | components/PatientAppSimulator.tsx:79-85 | "00","00","00" when no cooldown holds; otherwise digit fields that add up to the whole seconds left: minutes and seconds of width two, hours of width two below 100 and without a leading zero above |
| Eligibility.Countdown | components/PatientAppSimulator.tsx:79-86 | at least eight characters, and "00:00:00" whenever no cooldown holds |
| Eligibility.LockedHeadline | components/PatientAppSimulator.tsx:205 | the countdown while the cooldown holds, "LOCKED" otherwise; its value in the last second is stated by CountdownZeroInLastSecond |
| Eligibility.CountdownZeroInLastSecond | components/PatientAppSimulator.tsx:79-86 | in the last second of a cooldown the countdown already reads "00:00:00" |
| Store.InsertDesc | App.tsx:45-47 | one more element, same elements plus the new one, and a newest-first log stays newest-first |
| Store.SortDesc | App.tsx:45-47 | the sorted log is newest-first and a permutation of the input |
| Store.SortDescOfSorted | App.tsx:45-47 | sorting a log that is already newest-first leaves it unchanged |
| Store.LatestDoseFirst | App.tsx:45-47 | in a newest-first log the first dose entry is the latest dose |
| Store.WithConfig | App.tsx:26-30 | the record with the new prescription and sync time; its meaning is stated by ConfigUpdated |
| Store.ConfigUpdated | App.tsx:23-34 | every record with the id gets the new prescription and a sync time of now; every other record is unchanged |
| Store.NextLevel | App.tsx:39-43 | a dose lowers the level by one, floored at zero; other entries keep it |
| Store.WithLog | App.tsx:38-52 | the new log is newest-first and holds the old entries plus the new one, the level follows NextLevel, and nothing else changes |
| Store.LogAddedTo | App.tsx:37-54 | one record's step of the map; its meaning is stated by LogAdded |
| Store.LogAdded | App.tsx:36-56 | same length and order; every record with the id gets the entry through WithLog; the others are unchanged |
| Store.LogAddedUnknownId | App.tsx:36-56 | an entry for an id no record has changes nothing |
| Store.WithLogDoseAccounting | App.tsx:39-47 | a dose of today raises today's count by exactly one and lowers the level by one; other entries change neither |
| Store.WithLogKeepsLevelsInRange | App.tsx:39-43 | the store keeps the 0..100 range of the device gauges |
| Store.WithLogStartsCooldown | App.tsx:45-47 | after a dose entry is stored, the cooldown holds until the interval has passed, so the device is not READY |
| Store.PatientAdded | App.tsx:58-60 | the new record goes in front of the unchanged list |
| Store.FindPatient | App.tsx:94 | present exactly when some record has the id, and then it is the first record with that id |
| Store.FindAfterLogAdded | App.tsx:36-56 | after an entry is added, looking the patient up yields the found record with that entry added |
| Store.ConfigUpdatedKeepsSorted | App.tsx:23-34 | a prescription update keeps every record's log newest-first |
| Store.LogAddedKeepsSorted | App.tsx:36-56 | adding an entry keeps every record's log newest-first |
| Store.PatientAddedKeepsSorted | App.tsx:58-60 | adding a record whose log is newest-first keeps every log newest-first |
| Store.StoredLastDoseIsLatest | services/mockData.ts:37 | in a store whose logs are all newest-first, the dose the app finds first is the latest dose of that record |
| Store.PatientStore.constructor | App.tsx:16 | the store starts with the given records, whose logs are newest-first as the mock data sorts them, and is valid |
| Store.PatientStore.HandleUpdateConfig | App.tsx:23-34 | the records become ConfigUpdated of the old records, and every log stays newest-first |
| Store.PatientStore.HandleAddLog | App.tsx:36-56 | the records become LogAdded of the old records, and every log stays newest-first |
| Store.PatientStore.HandleAddPatient | App.tsx:58-60 | the records become PatientAdded of the old records, and every log stays newest-first |
| Simulator.DispensedLog | components/PatientAppSimulator.tsx:100-105 | the entry is a dose stamped with the completion time; it is an emergency dose noted "Manual Override" exactly for an override |
| Simulator.LogId | components/PatientAppSimulator.tsx:101 | "log-" followed by the completion time; used by DispensedLog |
| Simulator.PressAccepted | components/PatientAppSimulator.tsx:89-93 | the handler's guard; its meaning is stated by PressRefusals |
| Simulator.PressRefusals | components/PatientAppSimulator.tsx:88-93 | a press is refused while dispensing or on an empty cartridge; a regular press goes ahead only when READY; an override only when confirmed |
| Simulator.ReadyImpliesMedication | components/PatientAppSimulator.tsx:58-89 | READY implies medication is left |
| Simulator.PatientApp.constructor | components/PatientAppSimulator.tsx:13-15 | the app shows the given record at the given time and is not dispensing |
| Simulator.PatientApp.Tick | components/PatientAppSimulator.tsx:17-21 | the clock advances and nothing else changes |
| Simulator.PatientApp.Press | components/PatientAppSimulator.tsx:88-95 | dispensing starts exactly when the guard accepts, remembering the shown record's id and whether it is an override, as the timer's closure does; a refused press changes nothing |
| Simulator.PatientApp.Complete | components/PatientAppSimulator.tsx:97-109 | when linked, the store's records become LogAdded with the dispensed entry for the id captured by the press, and the store stays valid; the record the app shows is unchanged; the busy flag drops |
| Simulator.PatientApp.Rerender | App.tsx:82-89 | the app is given a record again and shows it; clock and dispensing state are unchanged |
| Simulator.FirstRecordAfterLogAdded | App.tsx:82-88 | after an entry is added for the first record's id, the first record is that record through WithLog, with a valid prescription still |
| PatientDetail.PointIndex | components/PatientDetail.tsx:29 | `find` by date: the first point with the date, or the length when there is none |
| PatientDetail.Tally | components/PatientDetail.tsx:28-39 | one step of the reduce; its meaning is stated by TallyDates, TallyTotals and TallyCounts |
| PatientDetail.Accumulate | components/PatientDetail.tsx:27-40 | the reduce; its meaning is stated by AccumulateDates, AccumulateTotals and AccumulateCounts |
| PatientDetail.Chart | components/PatientDetail.tsx:27-41 | the reversed reduce; its meaning is stated by ChartFacts and ChartPointCounts |
| PatientDetail.Reverse | components/PatientDetail.tsx:41 | the same elements in the opposite order |
| PatientDetail.FindPoint | components/PatientDetail.tsx:29 | the front-to-back search returns the position PointIndex specifies |
| PatientDetail.ReverseInto | components/PatientDetail.tsx:41 | pushing each point in front yields the reversed accumulator |
| PatientDetail.ChartData | components/PatientDetail.tsx:27-41 | the loop over the log computes the reference chart, `Chart(logs)` |
| PatientDetail.TallyDates | components/PatientDetail.tsx:28-39 | one entry adds its day as a new last point only if the day is not there yet |
| PatientDetail.TallyTotals | components/PatientDetail.tsx:30-38 | one entry adds one to the dose total for a dose and one to the blocked total for a blocked attempt |
| PatientDetail.AccumulateDates | components/PatientDetail.tsx:27-40 | the points' days are the log's days without repeats, in order of first appearance |
| PatientDetail.AccumulateTotals | components/PatientDetail.tsx:27-40 | the dose and blocked totals equal the number of dose and blocked entries in the log |
| PatientDetail.TotalsReverse | components/PatientDetail.tsx:41 | reversing keeps the totals |
| PatientDetail.ChartFacts | components/PatientDetail.tsx:27-41 | the chart has one point per distinct day of the log, with no repeats, in reverse order of first appearance, and its totals count every dose and every blocked attempt |
| PatientDetail.FilterSnoc | components/PatientDetail.tsx:30-38 | one more entry at the end adds one to a count exactly when it passes the test |
| PatientDetail.TallyCounts | components/PatientDetail.tsx:28-39 | one step keeps every point's dose and blocked counts equal to the entries of its day seen so far, including the step's own entry |
| PatientDetail.AccumulateCounts | components/PatientDetail.tsx:27-40 | after the whole log each point holds the number of doses and of blocked attempts logged on its day |
| PatientDetail.AccumulateCovers | components/PatientDetail.tsx:27-40 | every logged day has a point, and no day has two |
| PatientDetail.ChartPointCounts | components/PatientDetail.tsx:27-41 | each chart point shows the doses and blocked attempts of its own day |
| PatientDetail.ChartTodayIsAppCount | components/PatientDetail.tsx:27-41 | the chart's point for the current day shows the same dose count as the patient app's daily-limit rule |
| PatientDetail.LogLabel | components/PatientDetail.tsx:321-325 | the label per entry kind; its meaning is stated by LogLabelDeniedIffNotDose |
| PatientDetail.LogLabelDeniedIffNotDose | components/PatientDetail.tsx:321-325 | "Access Denied" labels exactly the entries that are not doses; the two dose kinds have different labels |
| PatientDetail.NoteText | components/PatientDetail.tsx:329 | the note is shown when it is non-empty; "-" is shown for a missing or empty note |
| PatientDetail.ConfigEditor.constructor | components/PatientDetail.tsx:19-20 | the form starts from the record's prescription and is not saving |
| PatientDetail.ConfigEditor.Edit | components/PatientDetail.tsx:222-279 | an edit replaces the draft and nothing else |
| PatientDetail.ConfigEditor.BeginSave | components/PatientDetail.tsx:43-44 | a save starts only when none is in flight, and it captures the draft of that moment |
| PatientDetail.ConfigEditor.FinishSave | components/PatientDetail.tsx:46-50 | the captured draft goes to the store's prescription update, the store stays valid, and the saving flag drops |
| Dashboard.IsOffline | components/Dashboard.tsx:11 | the offline test; counted by Summarize |
| Dashboard.IsLowBattery | components/Dashboard.tsx:12 | the low-battery test; its threshold is stated by ThresholdsStrict |
| Dashboard.IsLowMedication | components/Dashboard.tsx:13 | the low-medication test; its threshold is stated by ThresholdsStrict |
| Dashboard.HasWarning | components/Dashboard.tsx:15-16 | more than five blocked attempts; counted by WarningTally |
| Dashboard.WarningTally | components/Dashboard.tsx:14-17 | the reduce equals its start value plus the number of patients with more than five blocked attempts |
| Dashboard.Summarize | components/Dashboard.tsx:10-17 | the total is the list length and each other count is the number of patients its filter keeps, so none exceeds the total |
| Dashboard.SummarizeCons | components/Dashboard.tsx:10-17 | one more patient raises the total by one and each other count by one exactly when that patient passes its test |
| Dashboard.NoActiveAlertsIff | components/Dashboard.tsx:115 | "No active alerts" is shown exactly when no patient is offline, low on battery or low on medication |
| Dashboard.ThresholdsStrict | components/Dashboard.tsx:12-13 | a battery at 20 and a cartridge at 15 are not low; 19 and 14 are |
| PatientList.Matches | components/PatientList.tsx:19-22 | the search test; its meaning is stated by SearchIgnoresTermCase and ContainsIff |
| PatientList.FilteredPatients | components/PatientList.tsx:19-22 | an order-preserving sub-list holding the patients whose name or serial contains the term, ignoring case, each as often as in the list, and no other patient |
| PatientList.EmptySearchKeepsAll | components/PatientList.tsx:19-22 | an empty search box shows every patient |
| PatientList.NoPatientsFoundIff | components/PatientList.tsx:128 | "No patients found." is shown exactly when no patient matches |
| PatientList.SearchIgnoresTermCase | components/PatientList.tsx:20-21 | lowercasing the term first never changes whether a patient matches |
| Registration.AgeFromInput | components/RegisterDeviceModal.tsx:25 | a digit string gives its value; a minus sign followed by digits gives the negated value, and only such text gives a negative result; any other text gives 0 |
| Registration.PatientId | components/RegisterDeviceModal.tsx:23 | "p-" followed by the decimal digits of the draw, without a leading zero |
| Registration.SerialFallback | components/RegisterDeviceModal.tsx:28 | "KOKON-XH-" followed by exactly four digits denoting the draw |
| Registration.NewPatient | components/RegisterDeviceModal.tsx:22-44 | the form values with their fallbacks (the fallback serial is SerialFallback of the draw); a full, online device on firmware 1.5.0 synced now; the default prescription; an empty log |
| Registration.DefaultWindow | components/RegisterDeviceModal.tsx:39-40 | the default window runs from minute 480 to minute 1200 |
| Registration.NewPatientReadyInWindow | components/RegisterDeviceModal.tsx:35-43 | a new record is READY at any time in 08:00-20:00 and locked for the window outside it |
| Registration.IdsMayCollide | components/RegisterDeviceModal.tsx:23 | two registrations with the same draw get the same id |
| Registration.Submit | components/RegisterDeviceModal.tsx:46-47 | the record is added to the store once, in front, the store stays valid, and the modal closes |
| Scenarios.CooldownAtTwoPm | components/PatientAppSimulator.tsx:46-76 | doses at 08:30 and 13:15 with a 240-minute interval: at 14:00 the count is 2, the next dose is at 17:15 and the status is the cooldown lock |
| Scenarios.ClockDigits | components/PatientAppSimulator.tsx:81-84 | clock fields with minutes and seconds below sixty are determined by the time they add up to |
| Scenarios.CountdownAtTwoPm | components/PatientAppSimulator.tsx:79-85 | at 14:00 on that day the cooldown holds and the countdown fields read 03, 15 and 00 |
| Scenarios.CooldownReleasedAtQuarterPastFive | components/PatientAppSimulator.tsx:57 | still locked one millisecond before 17:15, READY at 17:15 and at 17:20 |
| Scenarios.DosesTodaySameDay | components/PatientAppSimulator.tsx:27-30 | the daily count depends only on the calendar day of the current time |
| Scenarios.LimitReachedAtTen | components/PatientAppSimulator.tsx:67-69 | three doses against a limit of three lock for the daily limit, and the override is offered |
| Scenarios.AfterOverride | components/PatientAppSimulator.tsx:97-109 | after the override the cartridge is at 49, four doses count today, and the daily-limit lock stays |
| Scenarios.LimitPatientAtTen | components/PatientAppSimulator.tsx:58-76 | the daily-limit record at 10:00: valid, newest-first, 50 left and locked for the daily limit |
| Scenarios.PressesWhileLocked | components/PatientAppSimulator.tsx:88-109 | on any locked record with medication left, a regular press is refused, a confirmed override goes ahead, and on completion the store holds the record with the override dose |
| Scenarios.DailyLimitOverride | components/PatientAppSimulator.tsx:88-109 | through the app and the store, re-rendered from the store as the patient-role screen is: the regular press is refused, the confirmed override goes through, and the app then shows 49, four doses and the daily-limit lock |
| Scenarios.EmptyCartridge | components/PatientAppSimulator.tsx:58-66 | at level 0 the status is EMPTY, no button is offered and no press of either kind is accepted |
| Scenarios.CooldownPatientFacts | components/PatientAppSimulator.tsx:46-76 | the cooldown record is valid, newest-first and READY at 17:15 |
| Scenarios.SnapshotStillReady | components/PatientAppSimulator.tsx:46-76 | 1.5 s after 17:15 the record as it was before the dispense is still READY |
| Scenarios.StoredRecordCoolsDown | App.tsx:36-56 | the stored record with the 17:15 dose added is locked for the cooldown 1.5 s later |
| Scenarios.SnapshotPresses | components/PatientList.tsx:27-32 | an app that keeps its opening record, READY then and 1.5 s later, accepts a regular press, stores the dose, and accepts a second regular press after the next tick |
| Scenarios.ListSnapshotSecondPress | components/PatientList.tsx:115 | opened from the patient list at 17:15, the app accepts a second regular press 1.5 s after the first, while the stored record is locked for the cooldown |

## Left out

- Rendering, styling, icons, the charts library and the progress bar are not modelled; only the values they display are.
- The AI analysis service, the login page, the settings view and the sidebar are not part of this model.
- The mock data generator is not part of this model. The cooldown day in `Scenarios` (`CooldownConfig`, `MorningDoses`, `CooldownPatient`) uses records of its shape: doses at 08:30 and 13:15, a 240-minute interval and a limit of four. The daily-limit day (`LimitConfig`, `LimitPatient`) is a record of its own: doses at 05:00, 06:00 and 07:00, a 360-minute interval, a limit of three, the override allowed and 50 doses left.
- Timers (`setInterval`, `setTimeout`) are not modelled. They become explicit steps: `PatientApp.Tick`, `PatientApp.Complete` and `ConfigEditor.FinishSave`.
- The `confirm()` answer and the `alert()` message are not modelled. The answer is an input; the message is not modelled at all.
- The wall clock is not read. Every current time is a parameter.
- `Math.random` is not called. Its draws are parameters of `Registration.NewPatient`.
- Timestamps are instants, not ISO-8601 strings, so formatting and parsing them is not modelled.
- Time zones and daylight saving are not modelled. The local clock is a fixed offset from UTC.
- Eligibility.IsIntervalLocked / NextAvailableTime: instants and interval minutes are unbounded integers, so the JavaScript `Date` range (within 8.64e15 ms of 1970) is not modelled. Past that range the source's next-available instant is an invalid date, its comparison with the clock is false and the cooldown never holds; here the cooldown holds until the last dose plus the interval, however large.
- Eligibility.Evaluate: requires both window bounds to be well-formed "HH:MM" strings, as the form's time inputs produce. A malformed bound, which `Number` would turn into NaN, is not modelled.
- PatientDetail.ConfigEditor.Edit: the numeric fields are naturals. The form's `Number(e.target.value)` coercion of arbitrary text (empty fields, decimals, NaN) is not modelled.
- Registration.AgeFromInput: only digit strings, with or without a leading minus, are parsed. Other text that `Number` accepts (surrounding blanks, a plus sign, decimals, exponents, hexadecimal) gives 0 here instead of its numeric value.
- Text.ToLower: lowercases ASCII letters only. Unicode case mapping is not modelled.
- When the views render is not modelled. A renderer that reads the store again is an explicit `PatientApp.Rerender` step; the patient list's app never takes it.
- The local clock's offset from UTC is fixed at 0 (`LocalTime.UtcOffsetMs`). The rules and lemmas in `LocalTime` and `Eligibility` do not depend on its value; the worked days in `Scenarios` are proved for that offset only.
- Which record the patient-role app shows (the first in the store) is not modelled, and neither is view navigation.
