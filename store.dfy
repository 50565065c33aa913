/** The patient record store of the portal (App.tsx): the list of patient
    records and the three handlers that replace it, for a config edit, a new
    log entry and a newly registered device. */
module Store {
  import opened Types
  import opened LocalTime
  import opened Eligibility

  // ---------------------------------------------------------------------
  // Newest-first order of a log

  predicate SortedDesc(logs: seq<MedicationLog>)
  {
    forall i, j :: 0 <= i < j < |logs| ==> logs[i].timestamp >= logs[j].timestamp
  }

  /** Every entry of the log is no later than t. */
  predicate NoLaterThan(logs: seq<MedicationLog>, t: Instant)
  {
    forall k :: 0 <= k < |logs| ==> logs[k].timestamp <= t
  }

  lemma NoLaterThanPermutation(a: seq<MedicationLog>, b: seq<MedicationLog>, t: Instant)
    requires multiset(a) == multiset(b) && NoLaterThan(b, t)
    ensures NoLaterThan(a, t)
  {
    forall k | 0 <= k < |a| ensures a[k].timestamp <= t {
      assert a[k] in multiset(b);
      var m :| 0 <= m < |b| && b[m] == a[k];
    }
  }

  /** An entry no earlier than every entry of a newest-first log can go in front. */
  lemma PrependSorted(x: MedicationLog, s: seq<MedicationLog>)
    requires SortedDesc(s) && NoLaterThan(s, x.timestamp)
    ensures SortedDesc([x] + s)
  {
    forall i, j | 0 <= i < j < |s| + 1
      ensures ([x] + s)[i].timestamp >= ([x] + s)[j].timestamp
    {
      assert ([x] + s)[j] == s[j - 1];
      if i > 0 {
        assert ([x] + s)[i] == s[i - 1];
      }
    }
  }

  lemma SortedHeadBound(s: seq<MedicationLog>)
    requires SortedDesc(s) && s != []
    ensures NoLaterThan(s, s[0].timestamp)
  {
  }

  /** Places x before the first entry that is not later than x, which is where a
      stable descending sort puts an entry that came first in its input. */
  function InsertDesc(x: MedicationLog, s: seq<MedicationLog>): (r: seq<MedicationLog>)
    ensures |r| == |s| + 1
    ensures multiset(r) == multiset(s) + multiset{x}
    ensures SortedDesc(s) ==> SortedDesc(r)
  {
    if s == [] || s[0].timestamp <= x.timestamp then
      assert SortedDesc(s) ==> SortedDesc([x] + s) by {
        if SortedDesc(s) {
          if s != [] {
            SortedHeadBound(s);
          }
          PrependSorted(x, s);
        }
      }
      [x] + s
    else
      var rest := InsertDesc(x, s[1..]);
      assert s == [s[0]] + s[1..];
      assert SortedDesc(s) ==> SortedDesc([s[0]] + rest) by {
        if SortedDesc(s) {
          assert SortedDesc(s[1..]);
          SortedHeadBound(s);
          assert NoLaterThan(s[1..] + [x], s[0].timestamp);
          NoLaterThanPermutation(rest, s[1..] + [x], s[0].timestamp);
          PrependSorted(s[0], rest);
        }
      }
      [s[0]] + rest
  }

  /** `sort((a, b) => b.timestamp - a.timestamp)`: a stable sort, newest first. */
  function SortDesc(s: seq<MedicationLog>): (r: seq<MedicationLog>)
    ensures SortedDesc(r)
    ensures multiset(r) == multiset(s) && |r| == |s|
  {
    if s == [] then []
    else
      assert s == [s[0]] + s[1..];
      InsertDesc(s[0], SortDesc(s[1..]))
  }

  /** A log that is already newest-first comes out of the sort unchanged. */
  lemma {:induction false} SortDescOfSorted(s: seq<MedicationLog>)
    requires SortedDesc(s)
    ensures SortDesc(s) == s
  {
    if s != [] {
      SortDescOfSorted(s[1..]);
      assert s[1..] == [] || s[0].timestamp >= s[1].timestamp;
      assert [s[0]] + s[1..] == s;
    }
  }

  /** In a newest-first log the first dose entry, the one the cooldown rule
      picks, is a latest dose. */
  lemma LatestDoseFirst(logs: seq<MedicationLog>)
    requires SortedDesc(logs)
    ensures LastDose(logs).Some? ==>
              forall l :: l in logs && IsDose(l.kind) ==> l.timestamp <= LastDose(logs).value.timestamp
  {
    var i := FirstDoseIndex(logs);
    forall l | l in logs && IsDose(l.kind)
      ensures l.timestamp <= logs[i].timestamp
    {
      var j :| 0 <= j < |logs| && logs[j] == l;
      assert j >= i;
    }
  }

  // ---------------------------------------------------------------------
  // handleUpdateConfig

  function WithConfig(p: Patient, c: PrescriptionConfig, now: Instant): Patient
  {
    p.(config := c, device := p.device.(lastSync := now))
  }

  /** Replaces the config of every record with the id and stamps its lastSync. */
  function ConfigUpdated(ps: seq<Patient>, id: string, c: PrescriptionConfig, now: Instant): (r: seq<Patient>)
    ensures |r| == |ps|
    ensures forall i :: 0 <= i < |ps| && ps[i].id != id ==> r[i] == ps[i]
    ensures forall i :: 0 <= i < |ps| && ps[i].id == id ==>
              r[i].config == c && r[i].device.lastSync == now
              && r[i] == ps[i].(config := r[i].config, device := r[i].device)
              && r[i].device == ps[i].device.(lastSync := now)
  {
    if ps == [] then []
    else
      var rest := ConfigUpdated(ps[1..], id, c, now);
      var r := [if ps[0].id == id then WithConfig(ps[0], c, now) else ps[0]] + rest;
      assert forall i :: 0 < i < |ps| ==> r[i] == rest[i - 1] && ps[i] == ps[1..][i - 1];
      r
  }

  // ---------------------------------------------------------------------
  // handleAddLog

  /** `Math.max(0, level - 1)` for a dose entry, the level itself otherwise. */
  function NextLevel(level: int, kind: LogType): (r: int)
    ensures IsDose(kind) && level >= 1 ==> r == level - 1
    ensures IsDose(kind) && level < 1 ==> r == 0
    ensures !IsDose(kind) ==> r == level
  {
    if IsDose(kind) then (if level - 1 > 0 then level - 1 else 0) else level
  }

  /** One record after a log entry is added to it. */
  function WithLog(p: Patient, log: MedicationLog): (r: Patient)
    ensures SortedDesc(r.logs)
    ensures multiset(r.logs) == multiset(p.logs) + multiset{log} && |r.logs| == |p.logs| + 1
    ensures SortedDesc(p.logs) ==> r.logs == InsertDesc(log, p.logs)
    ensures r.device.medicationLevel == NextLevel(p.device.medicationLevel, log.kind)
    ensures r == p.(logs := r.logs, device := p.device.(medicationLevel := r.device.medicationLevel))
  {
    var logs := SortDesc([log] + p.logs);
    assert SortedDesc(p.logs) ==> logs == InsertDesc(log, p.logs) by {
      if SortedDesc(p.logs) {
        SortDescOfSorted(p.logs);
        assert ([log] + p.logs)[0] == log && ([log] + p.logs)[1..] == p.logs;
      }
    }
    p.(logs := logs, device := p.device.(medicationLevel := NextLevel(p.device.medicationLevel, log.kind)))
  }

  /** One element of the `map` in handleAddLog. */
  function LogAddedTo(p: Patient, id: string, log: MedicationLog): Patient
  {
    if p.id == id then WithLog(p, log) else p
  }

  /** Adds the entry to every record with the id; the other records, the length
      and the order of the list are kept. */
  function LogAdded(ps: seq<Patient>, id: string, log: MedicationLog): (r: seq<Patient>)
    ensures |r| == |ps|
    ensures forall i :: 0 <= i < |ps| ==> r[i] == LogAddedTo(ps[i], id, log)
    ensures forall i :: 0 <= i < |ps| && ps[i].id != id ==> r[i] == ps[i]
    ensures forall i :: 0 <= i < |ps| && ps[i].id == id ==> r[i] == WithLog(ps[i], log)
  {
    if ps == [] then []
    else
      var rest := LogAdded(ps[1..], id, log);
      var r := [LogAddedTo(ps[0], id, log)] + rest;
      assert forall i :: 0 < i < |ps| ==> r[i] == rest[i - 1] && ps[i] == ps[1..][i - 1];
      r
  }

  /** An unknown id leaves the list as it was. */
  lemma LogAddedUnknownId(ps: seq<Patient>, id: string, log: MedicationLog)
    requires forall p :: p in ps ==> p.id != id
    ensures LogAdded(ps, id, log) == ps
  {
  }

  /** A dose entry of today raises today's count by exactly one and lowers the
      medication level by exactly one (floored at zero); any other entry changes
      neither. */
  lemma WithLogDoseAccounting(p: Patient, log: MedicationLog, now: Instant)
    ensures var r := WithLog(p, log);
      DosesToday(r.logs, now)
        == DosesToday(p.logs, now) + (if IsDose(log.kind) && Day(log.timestamp) == Day(now) then 1 else 0)
      && (IsDose(log.kind) && p.device.medicationLevel >= 1 ==> r.device.medicationLevel == p.device.medicationLevel - 1)
      && (!IsDose(log.kind) ==> r.device.medicationLevel == p.device.medicationLevel)
  {
    var r := WithLog(p, log);
    assert multiset(r.logs) == multiset([log] + p.logs);
    DosesTodayPermutation(r.logs, [log] + p.logs, now);
    DosesTodayCons(log, p.logs, now);
  }

  /** The store keeps the documented 0..100 range of the medication level. */
  lemma WithLogKeepsLevelsInRange(p: Patient, log: MedicationLog)
    requires LevelsInRange(p.device)
    ensures LevelsInRange(WithLog(p, log).device)
  {
  }

  /** After a dose entry is added, the cooldown runs at least until interval
      minutes after that entry, so no regular dispense is READY in between. */
  lemma WithLogStartsCooldown(p: Patient, log: MedicationLog, now: Instant)
    requires ValidConfig(p.config) && IsDose(log.kind)
    requires log.timestamp <= now < log.timestamp + p.config.intervalMinutes * MsPerMinute
    ensures var r := WithLog(p, log);
      LastDose(r.logs).Some? && LastDose(r.logs).value.timestamp >= log.timestamp
      && IsIntervalLocked(r.config, r.logs, now)
      && Evaluate(r.config, r.logs, r.device.medicationLevel, now) != Ready
  {
    var r := WithLog(p, log);
    var logs := r.logs;
    assert log in logs by {
      assert log in multiset(logs);
    }
    LatestDoseFirst(logs);
    var d := LastDose(logs).value;
    assert d.timestamp >= log.timestamp;
    assert NextAvailableTime(r.config, logs) == d.timestamp + r.config.intervalMinutes * MsPerMinute;
    ReadyIffAllRulesPass(r.config, logs, r.device.medicationLevel, now);
  }

  // ---------------------------------------------------------------------
  // handleAddPatient and lookup

  /** The new record goes in front; no uniqueness check on its id. */
  function PatientAdded(ps: seq<Patient>, p: Patient): (r: seq<Patient>)
    ensures |r| == |ps| + 1 && r[0] == p && r[1..] == ps
  {
    [p] + ps
  }

  /** `patients.find(p => p.id === id)`: the first record with the id. */
  function FindPatient(ps: seq<Patient>, id: string): (r: Option<Patient>)
    ensures r.Some? <==> exists p :: p in ps && p.id == id
    ensures r.Some? ==> r.value in ps && r.value.id == id
    ensures r.Some? ==> exists i :: 0 <= i < |ps| && ps[i] == r.value && forall j :: 0 <= j < i ==> ps[j].id != id
  {
    if ps == [] then None
    else if ps[0].id == id then Some(ps[0])
    else
      var r := FindPatient(ps[1..], id);
      assert r.Some? ==> exists i :: 0 <= i < |ps| && ps[i] == r.value && forall j :: 0 <= j < i ==> ps[j].id != id by {
        if r.Some? {
          var k :| 0 <= k < |ps| - 1 && ps[1..][k] == r.value && forall j :: 0 <= j < k ==> ps[1..][j].id != id;
          forall j | 0 <= j < k + 1 ensures ps[j].id != id {
            if j > 0 {
              assert ps[j] == ps[1..][j - 1];
            }
          }
          assert ps[k + 1] == r.value;
        }
      }
      r
  }

  /** What a view sees of a record after the store adds a log entry to it is
      that record with the entry added. */
  lemma {:induction false} FindAfterLogAdded(ps: seq<Patient>, id: string, log: MedicationLog)
    requires FindPatient(ps, id).Some?
    ensures FindPatient(LogAdded(ps, id, log), id) == Some(WithLog(FindPatient(ps, id).value, log))
  {
    if ps[0].id != id {
      FindAfterLogAdded(ps[1..], id, log);
    }
  }

  // ---------------------------------------------------------------------
  // Every stored log is newest-first

  /** The store's invariant: each record's log is newest-first. The fixtures
      are sorted when built, a registered record starts with no entries, and
      every added entry is sorted in. */
  predicate AllSorted(ps: seq<Patient>)
  {
    forall p :: p in ps ==> SortedDesc(p.logs)
  }

  lemma ConfigUpdatedKeepsSorted(ps: seq<Patient>, id: string, c: PrescriptionConfig, now: Instant)
    requires AllSorted(ps)
    ensures AllSorted(ConfigUpdated(ps, id, c, now))
  {
    var r := ConfigUpdated(ps, id, c, now);
    forall q | q in r ensures SortedDesc(q.logs) {
      var i :| 0 <= i < |r| && r[i] == q;
      assert q.logs == ps[i].logs && ps[i] in ps;
    }
  }

  lemma LogAddedKeepsSorted(ps: seq<Patient>, id: string, log: MedicationLog)
    requires AllSorted(ps)
    ensures AllSorted(LogAdded(ps, id, log))
  {
    var r := LogAdded(ps, id, log);
    forall q | q in r ensures SortedDesc(q.logs) {
      var i :| 0 <= i < |r| && r[i] == q;
      assert ps[i] in ps;
    }
  }

  lemma PatientAddedKeepsSorted(ps: seq<Patient>, p: Patient)
    requires AllSorted(ps) && SortedDesc(p.logs)
    ensures AllSorted(PatientAdded(ps, p))
  {
  }

  /** On every record the store holds, the cooldown's `lastDose` is a latest dose. */
  lemma StoredLastDoseIsLatest(ps: seq<Patient>, p: Patient)
    requires AllSorted(ps) && p in ps
    ensures LastDose(p.logs).Some? ==>
              forall l :: l in p.logs && IsDose(l.kind) ==> l.timestamp <= LastDose(p.logs).value.timestamp
  {
    LatestDoseFirst(p.logs);
  }

  // ---------------------------------------------------------------------
  // The store

  class PatientStore {
    var patients: seq<Patient>

    ghost predicate Valid()
      reads this
    {
      AllSorted(patients)
    }

    constructor(initial: seq<Patient>)
      requires AllSorted(initial)
      ensures Valid()
      ensures patients == initial
    {
      patients := initial;
    }

    method HandleUpdateConfig(id: string, c: PrescriptionConfig, now: Instant)
      requires Valid()
      modifies this
      ensures Valid()
      ensures patients == ConfigUpdated(old(patients), id, c, now)
    {
      ConfigUpdatedKeepsSorted(patients, id, c, now);
      patients := ConfigUpdated(patients, id, c, now);
    }

    method HandleAddLog(id: string, log: MedicationLog)
      requires Valid()
      modifies this
      ensures Valid()
      ensures patients == LogAdded(old(patients), id, log)
    {
      LogAddedKeepsSorted(patients, id, log);
      patients := LogAdded(patients, id, log);
    }

    method HandleAddPatient(p: Patient)
      requires Valid() && SortedDesc(p.logs)
      modifies this
      ensures Valid()
      ensures patients == PatientAdded(old(patients), p)
    {
      PatientAddedKeepsSorted(patients, p);
      patients := PatientAdded(patients, p);
    }
  }
}
