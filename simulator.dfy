/** The dispense handler of the patient app (components/PatientAppSimulator.tsx):
    a press either does nothing or raises the `dispensing` flag; when the
    hardware delay ends the handler hands one dose entry to the store and
    lowers the flag. The 1500 ms timer is the separate step `Complete`, the
    1 s clock is `Tick`, and the answer to `confirm()` is an input.

    The app never changes its own record: it shows the `patient` prop. The
    patient-role screen and the patient page pass a record they read from
    the store on every render, so a stored entry reaches the app when they
    render it again (`Rerender`); the patient list passes the copy it took
    when the app was opened, and never renders it again. */
module Simulator {
  import opened Types
  import opened Text
  import opened Eligibility
  import opened Store

  /** `log-${Date.now()}`. */
  function LogId(t: Instant): string
  {
    "log-" + (if t < 0 then "-" + NatToString(-t) else NatToString(t))
  }

  /** The entry written when a dispense completes at t. */
  function DispensedLog(t: Instant, emergency: bool): (l: MedicationLog)
    ensures IsDose(l.kind) && l.timestamp == t && l.id == LogId(t)
    ensures emergency <==> l.kind == EmergencyDose
    ensures l.note == if emergency then Some("Manual Override") else None
  {
    MedicationLog(LogId(t), t,
                  if emergency then EmergencyDose else DoseTaken,
                  if emergency then Some("Manual Override") else None)
  }

  /** The guard of `handleDispense`: a press goes ahead unless the status is not
      READY and it is not an emergency, a dispense is in flight, or the
      cartridge is empty; an emergency press also needs the confirmation. */
  predicate PressAccepted(st: Status, dispensing: bool, level: int, emergency: bool, confirmed: bool)
  {
    !((st != Ready && !emergency) || dispensing || level <= 0) && (!emergency || confirmed)
  }

  /** A press is refused while a dispense is in flight, on an empty cartridge,
      and, for a regular press, whenever the status is not READY. */
  lemma PressRefusals(st: Status, dispensing: bool, level: int, emergency: bool, confirmed: bool)
    ensures dispensing ==> !PressAccepted(st, dispensing, level, emergency, confirmed)
    ensures level <= 0 ==> !PressAccepted(st, dispensing, level, emergency, confirmed)
    ensures !emergency ==> (PressAccepted(st, dispensing, level, emergency, confirmed) <==> st == Ready && !dispensing && level > 0)
    ensures emergency ==> (PressAccepted(st, dispensing, level, emergency, confirmed) <==> !dispensing && level > 0 && confirmed)
  {
  }

  /** On a READY status the medication level is positive, so the guard's own
      emptiness test only matters for emergency presses. */
  lemma ReadyImpliesMedication(c: PrescriptionConfig, logs: seq<MedicationLog>, level: int, now: Instant)
    requires ValidConfig(c)
    requires Evaluate(c, logs, level, now) == Ready
    ensures level > 0
  {
  }

  class PatientApp {
    /** The record the app is showing (its `patient` prop). */
    var patient: Patient
    /** The `currentTime` state, advanced by the clock. */
    var now: Instant
    /** The busy flag. */
    var dispensing: bool
    /** What the timer in flight captured when the button was pressed: the
        id of the shown record (through `onAddLog`) and `isEmergency`. */
    var pending: Option<(string, bool)>
    /** Whether the `onAddLog` callback stores the entry. */
    const linked: bool

    ghost predicate Valid()
      reads this
    {
      ValidConfig(patient.config) && (dispensing <==> pending.Some?)
    }

    /** The status the app shows now. */
    function CurrentStatus(): Status
      reads this
      requires Valid()
    {
      Evaluate(patient.config, patient.logs, patient.device.medicationLevel, now)
    }

    constructor(p: Patient, t: Instant, linked: bool)
      requires ValidConfig(p.config)
      ensures Valid()
      ensures patient == p && now == t && !dispensing && this.linked == linked
    {
      patient := p;
      now := t;
      dispensing := false;
      pending := None;
      this.linked := linked;
    }

    /** The 1 s clock tick. */
    method Tick(t: Instant)
      requires Valid()
      modifies this
      ensures Valid()
      ensures now == t && patient == old(patient) && dispensing == old(dispensing) && pending == old(pending)
    {
      now := t;
    }

    /** `handleDispense(emergency)`; `confirmed` is the answer `confirm()` would give. */
    method Press(emergency: bool, confirmed: bool) returns (started: bool)
      requires Valid()
      modifies this
      ensures Valid()
      ensures started == PressAccepted(old(CurrentStatus()), old(dispensing),
                                       old(patient.device.medicationLevel), emergency, confirmed)
      ensures started ==> dispensing && pending == Some((patient.id, emergency))
      ensures patient == old(patient) && now == old(now)
      ensures !started ==> dispensing == old(dispensing) && pending == old(pending)
    {
      var st := CurrentStatus();
      if (st != Ready && !emergency) || dispensing || patient.device.medicationLevel <= 0 {
        return false;
      }
      if emergency && !confirmed {
        return false;
      }
      dispensing := true;
      pending := Some((patient.id, emergency));
      started := true;
    }

    /** The end of the hardware delay, at instant t: when linked, the dose
        entry goes to the store's `handleAddLog` under the id captured by the
        press; the busy flag drops. The record the app shows is left as it was. */
    method Complete(t: Instant, store: PatientStore)
      requires Valid() && dispensing && store.Valid()
      modifies this, store
      ensures Valid() && store.Valid()
      ensures !dispensing && pending == None && now == old(now) && patient == old(patient)
      ensures store.patients == if linked then LogAdded(old(store.patients), old(pending).value.0, DispensedLog(t, old(pending).value.1))
                                else old(store.patients)
    {
      if linked {
        store.HandleAddLog(pending.value.0, DispensedLog(t, pending.value.1));
      }
      dispensing := false;
      pending := None;
    }

    /** The parent renders the app again, passing the record p. */
    method Rerender(p: Patient)
      requires Valid() && ValidConfig(p.config)
      modifies this
      ensures Valid()
      ensures patient == p && now == old(now) && dispensing == old(dispensing) && pending == old(pending)
    {
      patient := p;
    }
  }

  /** The patient-role screen shows the store's first record: after an entry
      for it is stored, that screen shows the record with the entry added. */
  lemma {:induction false} FirstRecordAfterLogAdded(ps: seq<Patient>, log: MedicationLog)
    requires ps != []
    ensures LogAdded(ps, ps[0].id, log)[0] == WithLog(ps[0], log)
    ensures ValidConfig(ps[0].config) ==> ValidConfig(LogAdded(ps, ps[0].id, log)[0].config)
  {
    var r := LogAdded(ps, ps[0].id, log);
    assert r[0] == LogAddedTo(ps[0], ps[0].id, log);
  }
}
