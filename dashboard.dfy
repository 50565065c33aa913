/** The practice overview (components/Dashboard.tsx): counts over the patient list. */
module Dashboard {
  import opened Types
  import opened Lists

  predicate IsOffline(p: Patient)
  {
    p.device.status == Offline
  }

  predicate IsLowBattery(p: Patient)
  {
    p.device.batteryLevel < 20
  }

  predicate IsLowMedication(p: Patient)
  {
    p.device.medicationLevel < 15
  }

  function BlockedAttempts(p: Patient): nat
  {
    |Filter(p.logs, (l: MedicationLog) => l.kind == AttemptBlocked)|
  }

  /** More than five blocked attempts in the patient's whole log. */
  predicate HasWarning(p: Patient)
  {
    BlockedAttempts(p) > 5
  }

  /** The reduce behind `warnings`: acc plus one per patient with a warning. */
  function WarningTally(ps: seq<Patient>, acc: nat): (r: nat)
    ensures r == acc + |Filter(ps, HasWarning)|
  {
    if ps == [] then acc
    else WarningTally(ps[1..], acc + (if HasWarning(ps[0]) then 1 else 0))
  }

  datatype Overview = Overview(
    totalPatients: nat,
    offlineDevices: nat,
    lowBatteryDevices: nat,
    lowMedicationDevices: nat,
    warnings: nat)

  /** The five numbers of the overview; each counts the patients with one
      condition, so none exceeds the number of patients. */
  function Summarize(ps: seq<Patient>): (o: Overview)
    ensures o.totalPatients == |ps|
    ensures o.offlineDevices == |Filter(ps, IsOffline)| <= |ps|
    ensures o.lowBatteryDevices == |Filter(ps, IsLowBattery)| <= |ps|
    ensures o.lowMedicationDevices == |Filter(ps, IsLowMedication)| <= |ps|
    ensures o.warnings == |Filter(ps, HasWarning)| <= |ps|
  {
    Overview(|ps|,
             |Filter(ps, IsOffline)|,
             |Filter(ps, IsLowBattery)|,
             |Filter(ps, IsLowMedication)|,
             WarningTally(ps, 0))
  }

  /** "No active alerts" is shown when the battery, offline and medication
      counts are all zero; the warnings count plays no part. */
  predicate NoActiveAlerts(o: Overview)
  {
    o.lowBatteryDevices == 0 && o.offlineDevices == 0 && o.lowMedicationDevices == 0
  }

  lemma NoActiveAlertsIff(ps: seq<Patient>)
    ensures NoActiveAlerts(Summarize(ps))
        <==> forall p :: p in ps ==> !IsOffline(p) && !IsLowBattery(p) && !IsLowMedication(p)
  {
    var o := Summarize(ps);
    if !NoActiveAlerts(o) {
      var f := if o.lowBatteryDevices != 0 then Filter(ps, IsLowBattery)
               else if o.offlineDevices != 0 then Filter(ps, IsOffline)
               else Filter(ps, IsLowMedication);
      assert f[0] in f;
    }
  }

  /** Each count grows by one exactly for a patient in that condition. */
  lemma SummarizeCons(p: Patient, ps: seq<Patient>)
    ensures var o, o' := Summarize([p] + ps), Summarize(ps);
      o.totalPatients == o'.totalPatients + 1
      && o.offlineDevices == o'.offlineDevices + (if p.device.status == Offline then 1 else 0)
      && o.lowBatteryDevices == o'.lowBatteryDevices + (if p.device.batteryLevel < 20 then 1 else 0)
      && o.lowMedicationDevices == o'.lowMedicationDevices + (if p.device.medicationLevel < 15 then 1 else 0)
      && o.warnings == o'.warnings + (if BlockedAttempts(p) > 5 then 1 else 0)
  {
    FilterCons(p, ps, IsOffline);
    FilterCons(p, ps, IsLowBattery);
    FilterCons(p, ps, IsLowMedication);
    FilterCons(p, ps, HasWarning);
  }

  /** The low-battery and low-medication thresholds are strict. */
  lemma ThresholdsStrict(p: Patient)
    ensures p.device.batteryLevel == 20 ==> !IsLowBattery(p)
    ensures p.device.batteryLevel == 19 ==> IsLowBattery(p)
    ensures p.device.medicationLevel == 15 ==> !IsLowMedication(p)
    ensures p.device.medicationLevel == 14 ==> IsLowMedication(p)
  {
  }
}
