/** Worked days for the dispenser rules, on an arbitrary calendar day d:
    the cooldown after two morning doses, its release, the daily limit with a
    manual override through the app, and an empty cartridge. */
module Scenarios {
  import opened Types
  import opened LocalTime
  import opened Text
  import opened Eligibility
  import opened Store
  import opened Simulator

  /** "HH:MM" literals built from digits parse to hours times sixty plus minutes. */
  lemma TimeLiteral(h1: nat, h2: nat, m1: nat, m2: nat)
    requires h1 < 10 && h2 < 10 && m1 < 10 && m2 < 10
    ensures var s := [DigitChar(h1), DigitChar(h2), ':', DigitChar(m1), DigitChar(m2)];
      WellFormedTime(s) && GetMinutes(s) == (h1 * 10 + h2) * 60 + m1 * 10 + m2
  {
    var hh, mm := [DigitChar(h1), DigitChar(h2)], [DigitChar(m1), DigitChar(m2)];
    JoinTime(hh, mm);
    assert hh[..1] == [DigitChar(h1)] && mm[..1] == [DigitChar(m1)];
    assert [DigitChar(h1)][..0] == [] && [DigitChar(m1)][..0] == [];
    assert DigitsValue([DigitChar(h1)]) == h1 && DigitsValue([DigitChar(m1)]) == m1;
    assert DigitsValue(hh) == h1 * 10 + h2 && DigitsValue(mm) == m1 * 10 + m2;
    assert hh + ":" + mm == [DigitChar(h1), DigitChar(h2), ':', DigitChar(m1), DigitChar(m2)];
  }

  function Dose(id: string, t: Instant): MedicationLog
  {
    MedicationLog(id, t, DoseTaken, None)
  }

  // ---------------------------------------------------------------------
  // Cooldown: doses at 08:30 and 13:15, every 240 minutes, 08:00-22:00

  const CooldownConfig: PrescriptionConfig := PrescriptionConfig(240, 4, 30, "08:00", "22:00", false)

  /** The log newest-first, as the store keeps it. */
  function MorningDoses(d: int): seq<MedicationLog>
  {
    [Dose("log-2", At(d, 795)), Dose("log-1", At(d, 510))]
  }

  lemma CooldownConfigWindow()
    ensures ValidConfig(CooldownConfig)
    ensures GetMinutes(CooldownConfig.allowedStartTime) == 480
    ensures GetMinutes(CooldownConfig.allowedEndTime) == 1320
  {
    TimeLiteral(0, 8, 0, 0);
    TimeLiteral(2, 2, 0, 0);
    assert CooldownConfig.allowedStartTime == [DigitChar(0), DigitChar(8), ':', DigitChar(0), DigitChar(0)];
    assert CooldownConfig.allowedEndTime == [DigitChar(2), DigitChar(2), ':', DigitChar(0), DigitChar(0)];
  }

  lemma MorningDosesFacts(d: int, m: nat)
    requires m < MinutesPerDay
    ensures DosesToday(MorningDoses(d), At(d, m)) == 2
    ensures NextAvailableTime(CooldownConfig, MorningDoses(d)) == At(d, 1035)
  {
    AtRoundTrip(d, 795);
    AtRoundTrip(d, 510);
    AtRoundTrip(d, m);
    var logs := MorningDoses(d);
    DosesTodayCons(logs[1], [], At(d, m));
    DosesTodayCons(logs[0], [logs[1]], At(d, m));
    DosesTodayEmpty(At(d, m));
    assert [logs[1]] + [] == [logs[1]] && [logs[0]] + [logs[1]] == logs;
  }

  /** At 14:00 two doses are logged (below the limit of four) and the window is
      open, yet the 13:15 dose keeps the device locked until 17:15. */
  lemma CooldownAtTwoPm(d: int)
    ensures ValidConfig(CooldownConfig)
    ensures DosesToday(MorningDoses(d), At(d, 840)) == 2
    ensures NextAvailableTime(CooldownConfig, MorningDoses(d)) == At(d, 17 * 60 + 15)
    ensures Evaluate(CooldownConfig, MorningDoses(d), 42, At(d, 840)) == Locked(IntervalCooldown)
  {
    CooldownConfigWindow();
    MorningDosesFacts(d, 840);
    AtRoundTrip(d, 840);
  }

  /** At 14:00 the countdown fields read 03, 15 and 00: three hours and a
      quarter until 17:15. */
  lemma CountdownAtTwoPm(d: int)
    ensures IsIntervalLocked(CooldownConfig, MorningDoses(d), At(d, 840))
    ensures var p := CountdownParts(CooldownConfig, MorningDoses(d), At(d, 840));
      |p.0| == 2 && DigitsValue(p.0) == 3 && DigitsValue(p.1) == 15 && DigitsValue(p.2) == 0
  {
    MorningDosesFacts(d, 840);
    var diff := NextAvailableTime(CooldownConfig, MorningDoses(d)) - At(d, 840);
    assert diff / MsPerSecond == 11700;
    ClockDigits(CountdownParts(CooldownConfig, MorningDoses(d), At(d, 840)), 3, 15, 0);
  }

  /** Clock fields are determined by the time they add up to: fields that
      add up to the same total as h hours, m minutes and s seconds (m and s
      below sixty) read h, m and s. */
  lemma ClockDigits(p: (string, string, string), h: nat, m: nat, s: nat)
    requires AllDigits(p.0) && AllDigits(p.1) && AllDigits(p.2)
    requires DigitsValue(p.1) < 60 && DigitsValue(p.2) < 60 && m < 60 && s < 60
    requires DigitsValue(p.0) * 3600 + DigitsValue(p.1) * 60 + DigitsValue(p.2) == h * 3600 + m * 60 + s
    ensures DigitsValue(p.0) == h && DigitsValue(p.1) == m && DigitsValue(p.2) == s
  {
    var h', m', s' := DigitsValue(p.0), DigitsValue(p.1), DigitsValue(p.2);
    assert 0 <= m' * 60 + s' < 3600 && 0 <= m * 60 + s < 3600;
    assert h' == h;
    assert m' * 60 + s' == m * 60 + s;
  }

  /** The cooldown releases at 17:15 exactly: locked the millisecond before,
      READY at 17:15 and at 17:20. */
  lemma CooldownReleasedAtQuarterPastFive(d: int)
    ensures ValidConfig(CooldownConfig)
    ensures Evaluate(CooldownConfig, MorningDoses(d), 42, At(d, 1035) - 1) == Locked(IntervalCooldown)
    ensures Evaluate(CooldownConfig, MorningDoses(d), 42, At(d, 1035)) == Ready
    ensures Evaluate(CooldownConfig, MorningDoses(d), 42, At(d, 1040)) == Ready
  {
    CooldownConfigWindow();
    MorningDosesFacts(d, 1035);
    MorningDosesFacts(d, 1040);
    AtRoundTrip(d, 1035);
    AtRoundTrip(d, 1040);
    var t := At(d, 1035) - 1;
    assert t == At(d, 1034) + 59999;
    AtRoundTrip(d, 1034);
    assert Day(t) == d && MinuteOfDay(t) == 1034;
    MorningDosesFacts(d, 1034);
    assert DosesToday(MorningDoses(d), t) == DosesToday(MorningDoses(d), At(d, 1034)) by {
      DosesTodaySameDay(MorningDoses(d), t, At(d, 1034));
    }
  }

  /** The count only depends on the calendar day of the instant. */
  lemma {:induction false} DosesTodaySameDay(logs: seq<MedicationLog>, t: Instant, u: Instant)
    requires Day(t) == Day(u)
    ensures DosesToday(logs, t) == DosesToday(logs, u)
  {
    if logs != [] {
      DosesTodaySameDay(logs[1..], t, u);
      assert [logs[0]] + logs[1..] == logs;
      DosesTodayCons(logs[0], logs[1..], t);
      DosesTodayCons(logs[0], logs[1..], u);
    } else {
      DosesTodayEmpty(t);
      DosesTodayEmpty(u);
    }
  }

  // ---------------------------------------------------------------------
  // Daily limit and manual override

  const LimitConfig: PrescriptionConfig := PrescriptionConfig(360, 3, 10, "08:00", "22:00", true)

  function LimitPatient(d: int): Patient
  {
    Patient("p-102", "Patient", 60, "Therapy",
            Device("KOKON-XH-2002", 80, 50, At(d, 0), "1.5.0", Online),
            LimitConfig,
            [Dose("log-3", At(d, 420)), Dose("log-2", At(d, 360)), Dose("log-1", At(d, 300))])
  }

  lemma LimitConfigWindow()
    ensures ValidConfig(LimitConfig)
  {
    TimeLiteral(0, 8, 0, 0);
    TimeLiteral(2, 2, 0, 0);
    assert LimitConfig.allowedStartTime == [DigitChar(0), DigitChar(8), ':', DigitChar(0), DigitChar(0)];
    assert LimitConfig.allowedEndTime == [DigitChar(2), DigitChar(2), ':', DigitChar(0), DigitChar(0)];
  }

  /** Two doses of the current day count two. */
  lemma TwoDosesToday(b: MedicationLog, c: MedicationLog, now: Instant)
    requires IsDose(b.kind) && IsDose(c.kind)
    requires Day(b.timestamp) == Day(now) && Day(c.timestamp) == Day(now)
    ensures DosesToday([b, c], now) == 2
  {
    DosesTodayEmpty(now);
    DosesTodayCons(c, [], now);
    assert [c] + [] == [c];
    DosesTodayCons(b, [c], now);
    assert [b] + [c] == [b, c];
  }

  /** Three doses of the current day count three. */
  lemma ThreeDosesToday(a: MedicationLog, b: MedicationLog, c: MedicationLog, now: Instant)
    requires IsDose(a.kind) && IsDose(b.kind) && IsDose(c.kind)
    requires Day(a.timestamp) == Day(now) && Day(b.timestamp) == Day(now) && Day(c.timestamp) == Day(now)
    ensures DosesToday([a, b, c], now) == 3
  {
    TwoDosesToday(b, c, now);
    DosesTodayCons(a, [b, c], now);
    assert [a] + [b, c] == [a, b, c];
  }

  lemma LimitPatientFacts(d: int)
    ensures ValidConfig(LimitConfig)
    ensures SortedDesc(LimitPatient(d).logs)
    ensures DosesToday(LimitPatient(d).logs, At(d, 600)) == 3
  {
    LimitConfigWindow();
    AtRoundTrip(d, 420);
    AtRoundTrip(d, 360);
    AtRoundTrip(d, 300);
    AtRoundTrip(d, 600);
    ThreeDosesToday(Dose("log-3", At(d, 420)), Dose("log-2", At(d, 360)), Dose("log-1", At(d, 300)), At(d, 600));
  }

  /** Before the press: limit reached, so locked for that reason and the
      emergency button is offered. */
  lemma LimitReachedAtTen(d: int)
    ensures ValidConfig(LimitConfig)
    ensures Evaluate(LimitConfig, LimitPatient(d).logs, 50, At(d, 600)) == Locked(DailyLimitReached)
    ensures EmergencyOffered(Evaluate(LimitConfig, LimitPatient(d).logs, 50, At(d, 600)), LimitConfig)
  {
    LimitPatientFacts(d);
    DailyLimitBeforeWindowAndCooldown(LimitConfig, LimitPatient(d).logs, 50, At(d, 600));
  }

  /** After the override completes 1.5 s later: 49 left, four doses today, and
      still locked for the daily limit. */
  lemma AfterOverride(d: int)
    ensures var t := At(d, 600) + 1500;
      var p := WithLog(LimitPatient(d), DispensedLog(t, true));
      ValidConfig(p.config) && p.device.medicationLevel == 49 && DosesToday(p.logs, t) == 4
      && Evaluate(p.config, p.logs, p.device.medicationLevel, t) == Locked(DailyLimitReached)
  {
    var t := At(d, 600) + 1500;
    LimitPatientFacts(d);
    AtRoundTrip(d, 600);
    assert Day(t) == d by {
      assert t == At(d, 600) + 1500;
    }
    DosesTodaySameDay(LimitPatient(d).logs, At(d, 600), t);
    var p := WithLog(LimitPatient(d), DispensedLog(t, true));
    WithLogDoseAccounting(LimitPatient(d), DispensedLog(t, true), t);
    DailyLimitBeforeWindowAndCooldown(p.config, p.logs, p.device.medicationLevel, t);
  }

  /** At 10:00 with three doses logged against a limit of three: a regular press
      is refused, the emergency button is offered, and a confirmed override
      dispenses one dose. The override lowers the cartridge from 50 to 49,
      brings the day's count to four and leaves the device locked for the
      daily limit. */
  method DailyLimitOverride(d: int) returns (refused: bool, overridden: bool, level: int, count: nat, status: Status)
    ensures refused && overridden
    ensures level == 49 && count == 4 && status == Locked(DailyLimitReached)
  {
    LimitPatientAtTen(d);
    var store, app;
    store, app, refused, overridden := PressesWhileLocked(LimitPatient(d), At(d, 600));
    var done := At(d, 600) + 1500;
    var q := store.patients[0];
    AfterOverride(d);
    // The patient-role screen shows the store's first record again.
    app.Rerender(q);
    app.Tick(done);
    level := app.patient.device.medicationLevel;
    count := DosesToday(app.patient.logs, app.now);
    status := app.CurrentStatus();
  }

  /** What the app and the store need to know of the record at 10:00. */
  lemma LimitPatientAtTen(d: int)
    ensures var lp := LimitPatient(d);
      ValidConfig(lp.config) && SortedDesc(lp.logs) && lp.device.medicationLevel == 50
      && Evaluate(lp.config, lp.logs, lp.device.medicationLevel, At(d, 600)) == Locked(DailyLimitReached)
  {
    LimitPatientFacts(d);
    LimitReachedAtTen(d);
  }

  /** On a locked record with medication left, through the patient-role
      screen over a store holding only that record: a regular press is
      refused, a confirmed override goes ahead, and when it completes 1.5 s
      later the store holds the record with the override dose added. */
  method PressesWhileLocked(lp: Patient, now: Instant) returns (store: PatientStore, app: PatientApp, refused: bool, overridden: bool)
    requires ValidConfig(lp.config) && SortedDesc(lp.logs) && lp.device.medicationLevel > 0
    requires Evaluate(lp.config, lp.logs, lp.device.medicationLevel, now).Locked?
    ensures fresh(store) && fresh(app) && store.Valid() && app.Valid()
    ensures refused && overridden && !app.dispensing
    ensures store.patients == [WithLog(lp, DispensedLog(now + 1500, true))]
  {
    assert AllSorted([lp]);
    store := new PatientStore([lp]);
    app := new PatientApp(lp, now, true);
    var started := app.Press(false, true);
    refused := !started;
    started := app.Press(true, true);
    overridden := started;
    app.Complete(now + 1500, store);
    FirstRecordAfterLogAdded([lp], DispensedLog(now + 1500, true));
  }

  // ---------------------------------------------------------------------
  // Empty cartridge

  /** With the cartridge at 0 the device is EMPTY at any time, no override is
      offered, and no press of either kind is accepted. */
  lemma EmptyCartridge(c: PrescriptionConfig, logs: seq<MedicationLog>, now: Instant, dispensing: bool, emergency: bool, confirmed: bool)
    requires ValidConfig(c)
    ensures Evaluate(c, logs, 0, now) == Empty
    ensures !EmergencyOffered(Evaluate(c, logs, 0, now), c)
    ensures !DispenseButtonEnabled(Evaluate(c, logs, 0, now), dispensing)
    ensures !PressAccepted(Evaluate(c, logs, 0, now), dispensing, 0, emergency, confirmed)
  {
    EmptyOverridesAll(c, logs, 0, now);
    EmergencyOfferedOnlyWhenLocked(Empty, c, dispensing);
    PressRefusals(Empty, dispensing, 0, emergency, confirmed);
  }

  // ---------------------------------------------------------------------
  // The patient list's copy of a record

  /** The record of the cooldown day, 42 doses left in the cartridge. */
  function CooldownPatient(d: int): Patient
  {
    Patient("p-101", "Patient", 54, "Therapy",
            Device("KOKON-XH-1001", 90, 42, At(d, 0), "1.5.0", Online),
            CooldownConfig,
            MorningDoses(d))
  }

  /** The record of the cooldown day is newest-first and READY at 17:15. */
  lemma CooldownPatientFacts(d: int)
    ensures var p := CooldownPatient(d);
      ValidConfig(p.config) && SortedDesc(p.logs)
      && Evaluate(p.config, p.logs, p.device.medicationLevel, At(d, 1035)) == Ready
  {
    CooldownReleasedAtQuarterPastFive(d);
    AtRoundTrip(d, 795);
    AtRoundTrip(d, 510);
  }

  /** 1.5 s after 17:15 the copy taken before the dispense is still READY. */
  lemma SnapshotStillReady(d: int)
    ensures var p := CooldownPatient(d);
      ValidConfig(p.config)
      && Evaluate(p.config, p.logs, p.device.medicationLevel, At(d, 1035) + 1500) == Ready
  {
    var t := At(d, 1035) + 1500;
    var p := CooldownPatient(d);
    CooldownConfigWindow();
    AtRoundTrip(d, 1035);
    assert Day(t) == d && MinuteOfDay(t) == 1035;
    MorningDosesFacts(d, 1035);
    DosesTodaySameDay(p.logs, t, At(d, 1035));
    ReadyIffAllRulesPass(p.config, p.logs, p.device.medicationLevel, t);
  }

  /** The stored record, with the 17:15 dose added, is in its cooldown 1.5 s later. */
  lemma StoredRecordCoolsDown(d: int)
    ensures var t := At(d, 1035) + 1500;
      var q := WithLog(CooldownPatient(d), DispensedLog(t, false));
      ValidConfig(q.config)
      && Evaluate(q.config, q.logs, q.device.medicationLevel, t) == Locked(IntervalCooldown)
  {
    var t := At(d, 1035) + 1500;
    var p := CooldownPatient(d);
    CooldownConfigWindow();
    AtRoundTrip(d, 1035);
    assert Day(t) == d && MinuteOfDay(t) == 1035;
    MorningDosesFacts(d, 1035);
    DosesTodaySameDay(p.logs, t, At(d, 1035));
    var log := DispensedLog(t, false);
    var q := WithLog(p, log);
    WithLogDoseAccounting(p, log, t);
    assert DosesToday(q.logs, t) == 3;
    WithLogStartsCooldown(p, log, t);
    LockReasons(q.config, q.logs, q.device.medicationLevel, t);
  }

  /** Opened from the patient list at 17:15, the app keeps the copy of the
      record it was opened with: the dose it dispenses is stored, yet a
      second regular press 1.5 s later is accepted, although the stored
      record is in its cooldown. */
  method ListSnapshotSecondPress(d: int) returns (first: bool, second: bool, stored: Status)
    ensures first && second
    ensures stored == Locked(IntervalCooldown)
  {
    var now := At(d, 1035);
    var p := CooldownPatient(d);
    var q := WithLog(p, DispensedLog(now + 1500, false));
    assert ValidConfig(p.config) && SortedDesc(p.logs)
      && Evaluate(p.config, p.logs, p.device.medicationLevel, now) == Ready
      && Evaluate(p.config, p.logs, p.device.medicationLevel, now + 1500) == Ready
      && Evaluate(q.config, q.logs, q.device.medicationLevel, now + 1500) == Locked(IntervalCooldown) by {
      CooldownPatientFacts(d);
      SnapshotStillReady(d);
      StoredRecordCoolsDown(d);
    }
    var store;
    store, first, second := SnapshotPresses(p, now);
    stored := Evaluate(store.patients[0].config, store.patients[0].logs,
                       store.patients[0].device.medicationLevel, now + 1500);
  }

  /** The patient list's app over a store holding only p, READY when opened
      and still READY 1.5 s later on its own copy: a regular press, its
      completion, the next clock tick and a second regular press. The app is
      never rendered again. */
  method SnapshotPresses(p: Patient, now: Instant) returns (store: PatientStore, first: bool, second: bool)
    requires ValidConfig(p.config) && SortedDesc(p.logs)
    requires Evaluate(p.config, p.logs, p.device.medicationLevel, now) == Ready
    requires Evaluate(p.config, p.logs, p.device.medicationLevel, now + 1500) == Ready
    ensures fresh(store) && store.Valid()
    ensures first && second
    ensures store.patients == [WithLog(p, DispensedLog(now + 1500, false))]
  {
    assert AllSorted([p]);
    store := new PatientStore([p]);
    var app := new PatientApp(p, now, true);
    first := app.Press(false, false);
    app.Complete(now + 1500, store);
    app.Tick(now + 1500);
    second := app.Press(false, false);
    FirstRecordAfterLogAdded([p], DispensedLog(now + 1500, false));
  }
}
