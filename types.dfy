/** Records of the dispenser dashboard: patients, their device, their
    prescription and their medication log (types.ts). */
module Types {

  /** An instant, in milliseconds since the Unix epoch (the ISO timestamps of the source). */
  type Instant = int

  datatype Option<T> = None | Some(value: T)

  /** Connectivity status of a dispenser; display only. */
  datatype DeviceStatus = Online | Offline | SyncPending | DeviceLocked

  /** The four kinds of log entry. */
  datatype LogType = DoseTaken | AttemptBlocked | DeviceError | EmergencyDose

  datatype MedicationLog = MedicationLog(
    id: string,
    timestamp: Instant,
    kind: LogType,
    note: Option<string>)

  datatype PrescriptionConfig = PrescriptionConfig(
    intervalMinutes: nat,
    dailyLimit: nat,
    therapyDurationDays: nat,
    allowedStartTime: string,   // "HH:MM"
    allowedEndTime: string,     // "HH:MM"
    emergencyUnlock: bool)

  datatype Device = Device(
    serialId: string,
    batteryLevel: int,          // documented as 0..100
    medicationLevel: int,       // documented as 0..100
    lastSync: Instant,
    firmwareVersion: string,
    status: DeviceStatus)

  datatype Patient = Patient(
    id: string,
    name: string,
    age: int,
    condition: string,
    device: Device,
    config: PrescriptionConfig,
    logs: seq<MedicationLog>)

  /** The display string of each device status (the enum's values). */
  function StatusLabel(s: DeviceStatus): (r: string)
    ensures r in {"Online", "Offline", "Sync Pending", "Locked"}
  {
    match s
    case Online => "Online"
    case Offline => "Offline"
    case SyncPending => "Sync Pending"
    case DeviceLocked => "Locked"
  }

  lemma StatusLabelInjective(a: DeviceStatus, b: DeviceStatus)
    ensures StatusLabel(a) == StatusLabel(b) ==> a == b
  {
  }

  /** A log entry that dispensed medication: a regular or an emergency dose. */
  predicate IsDose(kind: LogType)
  {
    kind == DoseTaken || kind == EmergencyDose
  }

  /** The documented 0..100 range of the two device gauges. */
  predicate LevelsInRange(d: Device)
  {
    0 <= d.batteryLevel <= 100 && 0 <= d.medicationLevel <= 100
  }
}
