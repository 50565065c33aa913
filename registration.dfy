/** The device registration form (components/RegisterDeviceModal.tsx): the
    record a new dispenser starts with. The two random draws of the form are
    inputs here. */
module Registration {
  import opened Types
  import opened LocalTime
  import opened Text
  import opened Eligibility
  import opened Store

  /** The four text fields of the form. */
  datatype RegistrationForm = RegistrationForm(serialId: string, name: string, age: string, condition: string)

  /** Every new device starts on this prescription. */
  const DefaultConfig: PrescriptionConfig :=
    PrescriptionConfig(240, 4, 14, "08:00", "20:00", false)

  /** `Number(age) || 0` for an unsigned or minus-signed decimal integer:
      the empty field and any text that is not a number give 0. */
  function AgeFromInput(s: string): (r: int)
    ensures AllDigits(s) ==> r == DigitsValue(s)
    ensures |s| > 1 && s[0] == '-' && AllDigits(s[1..]) ==> r == 0 - DigitsValue(s[1..]) as int
    ensures r < 0 ==> |s| > 1 && s[0] == '-'
    ensures !AllDigits(s) && !(|s| > 1 && s[0] == '-' && AllDigits(s[1..])) ==> r == 0
  {
    if AllDigits(s) then DigitsValue(s)
    else if |s| > 1 && s[0] == '-' && AllDigits(s[1..]) then 0 - DigitsValue(s[1..]) as int
    else 0
  }

  /** `p-${n}` for a draw n in [0, 9999]. */
  function PatientId(n: nat): (id: string)
    requires n < 10000
    ensures 3 <= |id| <= 6 && id[..2] == "p-"
    ensures AllDigits(id[2..]) && DigitsValue(id[2..]) == n
    ensures |id| > 3 ==> id[2] != '0'
  {
    var id := "p-" + NatToString(n);
    assert id[2..] == NatToString(n);
    id
  }

  /** `KOKON-XH-${k}` for a draw k in [1000, 9999]: always four digits. */
  function SerialFallback(k: nat): (s: string)
    requires 1000 <= k <= 9999
    ensures |s| == 13 && s[..9] == "KOKON-XH-"
    ensures AllDigits(s[9..]) && DigitsValue(s[9..]) == k
  {
    var s := "KOKON-XH-" + NatToString(k);
    assert s[9..] == NatToString(k);
    s
  }

  /** `handleSubmit`'s record: the form's values with their fallbacks, a full
      and online device on firmware 1.5.0 synced now, the default
      prescription and an empty log. */
  function NewPatient(form: RegistrationForm, idDraw: nat, serialDraw: nat, now: Instant): (p: Patient)
    requires idDraw < 10000 && 1000 <= serialDraw <= 9999
    ensures p.name == if form.name == "" then "Anonymous Patient" else form.name
    ensures p.condition == if form.condition == "" then "New Therapy" else form.condition
    ensures p.age == AgeFromInput(form.age)
    ensures 3 <= |p.id| && p.id[..2] == "p-" && AllDigits(p.id[2..]) && DigitsValue(p.id[2..]) == idDraw
    ensures form.serialId != "" ==> p.device.serialId == form.serialId
    ensures form.serialId == "" ==> p.device.serialId == SerialFallback(serialDraw)
    ensures form.serialId == "" ==>
              |p.device.serialId| == 13 && p.device.serialId[..9] == "KOKON-XH-"
              && AllDigits(p.device.serialId[9..]) && 1000 <= DigitsValue(p.device.serialId[9..]) <= 9999
    ensures p.device.batteryLevel == 100 && p.device.medicationLevel == 100 && LevelsInRange(p.device)
    ensures p.device.status == Online && p.device.firmwareVersion == "1.5.0" && p.device.lastSync == now
    ensures p.config == DefaultConfig && p.logs == []
  {
    Patient(PatientId(idDraw),
            if form.name == "" then "Anonymous Patient" else form.name,
            AgeFromInput(form.age),
            if form.condition == "" then "New Therapy" else form.condition,
            Device(if form.serialId == "" then SerialFallback(serialDraw) else form.serialId,
                   100, 100, now, "1.5.0", Online),
            DefaultConfig,
            [])
  }

  /** The default window is 08:00 to 20:00, that is minutes 480 to 1200. */
  lemma DefaultWindow()
    ensures ValidConfig(DefaultConfig)
    ensures GetMinutes(DefaultConfig.allowedStartTime) == 480
    ensures GetMinutes(DefaultConfig.allowedEndTime) == 1200
  {
    JoinTime("08", "00");
    JoinTime("20", "00");
    assert "08" == [DigitChar(0), DigitChar(8)] && "20" == [DigitChar(2), DigitChar(0)];
    assert "00" == [DigitChar(0), DigitChar(0)];
    assert DefaultConfig.allowedStartTime == "08" + ":" + "00";
    assert DefaultConfig.allowedEndTime == "20" + ":" + "00";
  }

  /** A fresh record is READY at any (post-epoch) instant inside 08:00-20:00
      and locked for the window outside it. */
  lemma NewPatientReadyInWindow(form: RegistrationForm, idDraw: nat, serialDraw: nat, now: Instant, t: Instant)
    requires idDraw < 10000 && 1000 <= serialDraw <= 9999
    requires t >= 0
    ensures var p := NewPatient(form, idDraw, serialDraw, now);
      Evaluate(p.config, p.logs, p.device.medicationLevel, t)
        == if 480 <= MinuteOfDay(t) <= 1200 then Ready else Locked(OutsideWindow)
  {
    DefaultWindow();
    var p := NewPatient(form, idDraw, serialDraw, now);
    DosesTodayEmpty(t);
    NoDoseNoCooldown(p.config, p.logs, t);
  }

  /** Two registrations that draw the same number get the same id: nothing
      makes generated ids unique. */
  lemma IdsMayCollide(f1: RegistrationForm, f2: RegistrationForm, n: nat, k1: nat, k2: nat, t1: Instant, t2: Instant)
    requires n < 10000 && 1000 <= k1 <= 9999 && 1000 <= k2 <= 9999
    ensures NewPatient(f1, n, k1, t1).id == NewPatient(f2, n, k2, t2).id
  {
  }

  /** `handleSubmit`: the record goes to the store once, in front, and the
      modal closes (the result is whether it is still open). */
  method Submit(store: PatientStore, form: RegistrationForm, idDraw: nat, serialDraw: nat, now: Instant)
    returns (open: bool)
    requires idDraw < 10000 && 1000 <= serialDraw <= 9999
    requires store.Valid()
    modifies store
    ensures store.Valid()
    ensures store.patients == PatientAdded(old(store.patients), NewPatient(form, idDraw, serialDraw, now))
    ensures !open
  {
    store.HandleAddPatient(NewPatient(form, idDraw, serialDraw, now));
    open := false;
  }
}
