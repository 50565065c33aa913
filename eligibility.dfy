/** The dose-eligibility rules of the patient app (components/PatientAppSimulator.tsx):
    from a prescription, the newest-first log, the medication level and the
    current instant, the app derives EMPTY, LOCKED (with a reason) or READY,
    and a countdown for the cooldown. Nothing here is stored: the app
    re-evaluates these functions on every clock tick. */
module Eligibility {
  import opened Types
  import opened LocalTime
  import opened Text
  import opened Lists

  datatype LockReason = DailyLimitReached | OutsideWindow | IntervalCooldown

  datatype Status = Ready | Locked(reason: LockReason) | Empty

  // ---------------------------------------------------------------------
  // Rule 1 input: doses already taken today

  /** The dose entries (regular or emergency) logged on now's local day. */
  function TodaysDoses(logs: seq<MedicationLog>, now: Instant): (r: seq<MedicationLog>)
    ensures IsSubsequence(r, logs)
    ensures forall l :: l in r <==> l in logs && IsDose(l.kind) && Day(l.timestamp) == Day(now)
    ensures forall l :: Occurrences(r, l)
                        == if IsDose(l.kind) && Day(l.timestamp) == Day(now) then Occurrences(logs, l) else 0
  {
    Filter(logs, (l: MedicationLog) => IsDose(l.kind) && Day(l.timestamp) == Day(now))
  }

  /** `dosesToday`: how many dose entries carry now's local day. */
  function DosesToday(logs: seq<MedicationLog>, now: Instant): (n: nat)
    ensures n <= |logs|
    ensures n == 0 <==> forall l :: l in logs ==> !(IsDose(l.kind) && Day(l.timestamp) == Day(now))
  {
    var r := TodaysDoses(logs, now);
    assert r != [] ==> r[0] in r;
    |r|
  }

  /** The count grows by one exactly for a dose entry of today; blocked attempts
      and device errors never count. */
  lemma DosesTodayCons(l: MedicationLog, logs: seq<MedicationLog>, now: Instant)
    ensures DosesToday([l] + logs, now)
         == DosesToday(logs, now) + (if IsDose(l.kind) && Day(l.timestamp) == Day(now) then 1 else 0)
  {
    assert ([l] + logs)[0] == l && ([l] + logs)[1..] == logs;
  }

  lemma DosesTodayEmpty(now: Instant)
    ensures DosesToday([], now) == 0
  {
  }

  /** Reordering the log does not change the count. */
  lemma DosesTodayPermutation(a: seq<MedicationLog>, b: seq<MedicationLog>, now: Instant)
    requires multiset(a) == multiset(b)
    ensures DosesToday(a, now) == DosesToday(b, now)
  {
    FilterLengthPermutation(a, b, (l: MedicationLog) => IsDose(l.kind) && Day(l.timestamp) == Day(now));
  }

  // ---------------------------------------------------------------------
  // Rule 2 input: the allowed time-of-day window

  /** The "HH:MM" form of the window bounds (what a time input produces). */
  predicate WellFormedTime(s: string)
  {
    |s| == 5 && IsDigit(s[0]) && IsDigit(s[1]) && s[2] == ':' && IsDigit(s[3]) && IsDigit(s[4])
  }

  predicate ValidConfig(c: PrescriptionConfig)
  {
    WellFormedTime(c.allowedStartTime) && WellFormedTime(c.allowedEndTime)
  }

  /** `getMinutes`: hours times sixty plus minutes. */
  function GetMinutes(s: string): (m: nat)
    requires WellFormedTime(s)
    ensures DigitsValue(s[..2]) < 24 && DigitsValue(s[3..]) < 60 ==> m < MinutesPerDay
  {
    DigitsValue(s[..2]) * 60 + DigitsValue(s[3..])
  }

  /** "HH:MM" for an hour and a minute below 100. */
  function FormatTime(h: nat, m: nat): string
    requires h < 100 && m < 100
  {
    Padded(h) + ":" + Padded(m)
  }

  /** Reading back a formatted time gives hours times sixty plus minutes. */
  lemma GetMinutesOfFormatTime(h: nat, m: nat)
    requires h < 100 && m < 100
    ensures WellFormedTime(FormatTime(h, m))
    ensures GetMinutes(FormatTime(h, m)) == h * 60 + m
  {
    JoinTime(Padded(h), Padded(m));
  }

  lemma JoinTime(hh: string, mm: string)
    requires |hh| == 2 && |mm| == 2 && AllDigits(hh) && AllDigits(mm)
    ensures WellFormedTime(hh + ":" + mm)
    ensures GetMinutes(hh + ":" + mm) == DigitsValue(hh) * 60 + DigitsValue(mm)
  {
    var s := hh + ":" + mm;
    assert s[..2] == hh && s[3..] == mm;
  }

  /** Outside `[start, end]`, both ends inclusive. */
  predicate IsOutsideWindow(c: PrescriptionConfig, now: Instant)
    requires ValidConfig(c)
  {
    MinuteOfDay(now) < GetMinutes(c.allowedStartTime) || MinuteOfDay(now) > GetMinutes(c.allowedEndTime)
  }

  lemma WindowInclusive(c: PrescriptionConfig, now: Instant)
    requires ValidConfig(c)
    ensures !IsOutsideWindow(c, now)
        <==> GetMinutes(c.allowedStartTime) <= MinuteOfDay(now) <= GetMinutes(c.allowedEndTime)
  {
  }

  /** A window whose start is after its end (one meant to wrap past midnight)
      admits no minute at all. */
  lemma InvertedWindowAlwaysOutside(c: PrescriptionConfig, now: Instant)
    requires ValidConfig(c)
    requires GetMinutes(c.allowedStartTime) > GetMinutes(c.allowedEndTime)
    ensures IsOutsideWindow(c, now)
  {
  }

  // ---------------------------------------------------------------------
  // Rule 3 input: the cooldown since the last dose

  /** Position of the first dose entry (`logs.find`), or |logs| if there is none. */
  function FirstDoseIndex(logs: seq<MedicationLog>): (i: nat)
    ensures i <= |logs|
    ensures i < |logs| ==> IsDose(logs[i].kind)
    ensures forall j :: 0 <= j < i ==> !IsDose(logs[j].kind)
  {
    if logs == [] then 0
    else if IsDose(logs[0].kind) then 0
    else 1 + FirstDoseIndex(logs[1..])
  }

  /** `lastDose`: the first dose entry of the log, which is the latest one
      only because the store keeps the log newest-first. */
  function LastDose(logs: seq<MedicationLog>): (r: Option<MedicationLog>)
    ensures r.Some? <==> exists l :: l in logs && IsDose(l.kind)
    ensures r.Some? ==> r.value in logs && IsDose(r.value.kind)
    ensures r.Some? ==> exists i :: 0 <= i < |logs| && logs[i] == r.value
                                    && forall j :: 0 <= j < i ==> !IsDose(logs[j].kind)
  {
    var i := FirstDoseIndex(logs);
    if i < |logs| then Some(logs[i]) else None
  }

  /** The instant the cooldown ends: last dose plus the interval, or the epoch
      when no dose was ever logged. */
  function NextAvailableTime(c: PrescriptionConfig, logs: seq<MedicationLog>): (t: Instant)
    ensures LastDose(logs).None? ==> t == 0
    ensures LastDose(logs).Some? ==> t >= LastDose(logs).value.timestamp
  {
    match LastDose(logs)
    case Some(d) => d.timestamp + c.intervalMinutes * MsPerMinute
    case None => 0
  }

  predicate IsIntervalLocked(c: PrescriptionConfig, logs: seq<MedicationLog>, now: Instant)
  {
    now < NextAvailableTime(c, logs)
  }

  /** The cooldown holds from the last dose until, and not including, the
      instant interval minutes later. */
  lemma CooldownReleasesExactly(c: PrescriptionConfig, logs: seq<MedicationLog>, now: Instant)
    requires LastDose(logs).Some?
    ensures IsIntervalLocked(c, logs, now)
        <==> now < LastDose(logs).value.timestamp + c.intervalMinutes * MsPerMinute
  {
  }

  /** Without any dose in the log the cooldown never locks (for instants after the epoch). */
  lemma NoDoseNoCooldown(c: PrescriptionConfig, logs: seq<MedicationLog>, now: Instant)
    requires forall l :: l in logs ==> !IsDose(l.kind)
    requires now >= 0
    ensures !IsIntervalLocked(c, logs, now)
  {
  }

  // ---------------------------------------------------------------------
  // The verdict

  /** The consolidated status; the first rule that applies wins. */
  function Evaluate(c: PrescriptionConfig, logs: seq<MedicationLog>, level: int, now: Instant): (st: Status)
    requires ValidConfig(c)
    ensures st == Empty <==> level <= 0
    ensures st == Locked(DailyLimitReached) <==> level > 0 && DosesToday(logs, now) >= c.dailyLimit
  {
    if level <= 0 then Empty
    else if DosesToday(logs, now) >= c.dailyLimit then Locked(DailyLimitReached)
    else if IsOutsideWindow(c, now) then Locked(OutsideWindow)
    else if IsIntervalLocked(c, logs, now) then Locked(IntervalCooldown)
    else Ready
  }

  /** An empty cartridge is EMPTY whatever the count, window or cooldown, and
      EMPTY means an empty cartridge. */
  lemma EmptyOverridesAll(c: PrescriptionConfig, logs: seq<MedicationLog>, level: int, now: Instant)
    requires ValidConfig(c)
    ensures Evaluate(c, logs, level, now) == Empty <==> level <= 0
  {
  }

  /** With medication left, the daily limit wins over window and cooldown. */
  lemma DailyLimitBeforeWindowAndCooldown(c: PrescriptionConfig, logs: seq<MedicationLog>, level: int, now: Instant)
    requires ValidConfig(c)
    requires level > 0 && DosesToday(logs, now) >= c.dailyLimit
    ensures Evaluate(c, logs, level, now) == Locked(DailyLimitReached)
  {
  }

  /** Each lock reason holds exactly when its rule fails and every earlier rule passed. */
  lemma LockReasons(c: PrescriptionConfig, logs: seq<MedicationLog>, level: int, now: Instant)
    requires ValidConfig(c)
    ensures Evaluate(c, logs, level, now) == Locked(OutsideWindow)
        <==> level > 0 && DosesToday(logs, now) < c.dailyLimit && IsOutsideWindow(c, now)
    ensures Evaluate(c, logs, level, now) == Locked(IntervalCooldown)
        <==> level > 0 && DosesToday(logs, now) < c.dailyLimit && !IsOutsideWindow(c, now)
             && IsIntervalLocked(c, logs, now)
  {
  }

  /** READY exactly when every rule passes. */
  lemma ReadyIffAllRulesPass(c: PrescriptionConfig, logs: seq<MedicationLog>, level: int, now: Instant)
    requires ValidConfig(c)
    ensures Evaluate(c, logs, level, now) == Ready
        <==> level > 0 && DosesToday(logs, now) < c.dailyLimit && !IsOutsideWindow(c, now)
             && !IsIntervalLocked(c, logs, now)
  {
  }

  /** The message shown under the lock icon. */
  function LockReasonText(st: Status, c: PrescriptionConfig): string
  {
    match st
    case Empty => "Cartridge Empty"
    case Locked(DailyLimitReached) => "Daily limit reached"
    case Locked(OutsideWindow) => "Allowed hours: " + c.allowedStartTime + " - " + c.allowedEndTime
    case Locked(IntervalCooldown) => "Interval cooldown"
    case Ready => ""
  }

  /** The emergency-override button is offered when locked and the prescription
      allows it: never on an empty cartridge and never when READY. */
  predicate EmergencyOffered(st: Status, c: PrescriptionConfig)
  {
    st.Locked? && c.emergencyUnlock
  }

  /** The override button and the dispense button are never offered together,
      and an empty cartridge offers neither. */
  lemma EmergencyOfferedOnlyWhenLocked(st: Status, c: PrescriptionConfig, dispensing: bool)
    ensures EmergencyOffered(st, c) ==> !DispenseButtonEnabled(st, dispensing)
    ensures st == Empty ==> !EmergencyOffered(st, c) && !DispenseButtonEnabled(st, dispensing)
    ensures st == Ready ==> !EmergencyOffered(st, c)
  {
  }

  /** A reason is shown exactly when the status is not READY. */
  lemma LockReasonShownIffNotReady(st: Status, c: PrescriptionConfig)
    ensures LockReasonText(st, c) == "" <==> st == Ready
  {
  }

  /** The big dispense button is enabled only when READY and not already dispensing. */
  predicate DispenseButtonEnabled(st: Status, dispensing: bool)
  {
    st == Ready && !dispensing
  }

  // ---------------------------------------------------------------------
  // The countdown

  /** Hours, minutes and seconds of a duration in milliseconds, each field
      rounded down (`Math.floor`); the duration is positive when used. */
  function ClockFields(diff: nat): (r: (nat, nat, nat))
    ensures r.1 < 60 && r.2 < 60
    ensures r.0 * 3600 + r.1 * 60 + r.2 == diff / MsPerSecond
  {
    var h := diff / MsPerHour;
    var rest := diff % MsPerHour;
    var m := rest / MsPerMinute;
    var s := (diff % MsPerMinute) / MsPerSecond;
    assert diff == h * MsPerHour + rest;
    assert diff % MsPerMinute == rest % MsPerMinute;
    assert rest == m * MsPerMinute + rest % MsPerMinute;
    (h, m, s)
  }

  /** The three two-digit (at least) fields of `getCountdown`. */
  function CountdownParts(c: PrescriptionConfig, logs: seq<MedicationLog>, now: Instant): (r: (string, string, string))
    ensures AllDigits(r.0) && AllDigits(r.1) && AllDigits(r.2)
    ensures |r.0| >= 2 && |r.1| == 2 && |r.2| == 2
    ensures DigitsValue(r.0) < 100 ==> |r.0| == 2
    ensures |r.0| > 2 ==> r.0[0] != '0'
    ensures DigitsValue(r.1) < 60 && DigitsValue(r.2) < 60
    ensures !IsIntervalLocked(c, logs, now) ==> r == ("00", "00", "00")
    ensures IsIntervalLocked(c, logs, now) ==>
              DigitsValue(r.0) * 3600 + DigitsValue(r.1) * 60 + DigitsValue(r.2)
              == (NextAvailableTime(c, logs) - now) / MsPerSecond
  {
    if !IsIntervalLocked(c, logs, now) then ("00", "00", "00")
    else
      var f := ClockFields(NextAvailableTime(c, logs) - now);
      (Padded(f.0), Padded(f.1), Padded(f.2))
  }

  /** `getCountdown`: "hh:mm:ss" until the cooldown ends, "00:00:00" when it does not hold. */
  function Countdown(c: PrescriptionConfig, logs: seq<MedicationLog>, now: Instant): (r: string)
    ensures |r| >= 8
    ensures !IsIntervalLocked(c, logs, now) ==> r == "00:00:00"
  {
    var p := CountdownParts(c, logs, now);
    Join3("00", "00", "00");
    p.0 + ":" + p.1 + ":" + p.2
  }

  /** The headline of the locked screen: the countdown whenever the cooldown
      holds (whatever the lock reason shown below it), otherwise "LOCKED". */
  function LockedHeadline(c: PrescriptionConfig, logs: seq<MedicationLog>, now: Instant): string
  {
    if IsIntervalLocked(c, logs, now) then Countdown(c, logs, now) else "LOCKED"
  }

  /** The countdown is floored to whole seconds: during the last second of a
      cooldown it already reads "00:00:00" while the app is still locked. */
  lemma CountdownZeroInLastSecond(c: PrescriptionConfig, logs: seq<MedicationLog>, now: Instant)
    requires IsIntervalLocked(c, logs, now)
    requires NextAvailableTime(c, logs) - now < MsPerSecond
    ensures Countdown(c, logs, now) == "00:00:00"
  {
    ZeroParts(c, logs, now);
    Join3("00", "00", "00");
  }

  lemma ZeroParts(c: PrescriptionConfig, logs: seq<MedicationLog>, now: Instant)
    requires IsIntervalLocked(c, logs, now)
    requires NextAvailableTime(c, logs) - now < MsPerSecond
    ensures CountdownParts(c, logs, now) == ("00", "00", "00")
  {
    var p := CountdownParts(c, logs, now);
    assert DigitsValue(p.0) == 0 && DigitsValue(p.1) == 0 && DigitsValue(p.2) == 0;
    DigitPair(p.0, 0, 0);
    DigitPair(p.1, 0, 0);
    DigitPair(p.2, 0, 0);
  }
}
