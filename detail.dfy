/** The clinician's patient page (components/PatientDetail.tsx): the per-day
    chart built by a reduce over the log, the label of each log entry, and the
    hand-off of an edited prescription to the store. */
module PatientDetail {
  import opened Types
  import opened LocalTime
  import opened Lists
  import opened Store
  import opened Eligibility

  /** One bar group of the activity chart. */
  datatype ChartPoint = ChartPoint(date: int, doses: nat, blocked: nat)

  function DoseIncrement(kind: LogType): nat
  {
    if IsDose(kind) then 1 else 0
  }

  function BlockedIncrement(kind: LogType): nat
  {
    if kind == AttemptBlocked then 1 else 0
  }

  /** `acc.find(item => item.date === date)` as a position, |acc| when absent. */
  function PointIndex(acc: seq<ChartPoint>, date: int): (i: nat)
    ensures i <= |acc|
    ensures i < |acc| ==> acc[i].date == date
    ensures forall j :: 0 <= j < i ==> acc[j].date != date
  {
    if acc == [] then 0
    else if acc[0].date == date then 0
    else 1 + PointIndex(acc[1..], date)
  }

  /** One step of the reduce: bump the point of the entry's day, or push a new one. */
  function Tally(acc: seq<ChartPoint>, log: MedicationLog): seq<ChartPoint>
  {
    var date := Day(log.timestamp);
    var i := PointIndex(acc, date);
    if i < |acc| then
      acc[i := acc[i].(doses := acc[i].doses + DoseIncrement(log.kind),
                       blocked := acc[i].blocked + BlockedIncrement(log.kind))]
    else
      acc + [ChartPoint(date, DoseIncrement(log.kind), BlockedIncrement(log.kind))]
  }

  /** The reduce over the whole log, left to right. */
  function Accumulate(logs: seq<MedicationLog>): seq<ChartPoint>
  {
    if logs == [] then [] else Tally(Accumulate(logs[..|logs| - 1]), logs[|logs| - 1])
  }

  function Reverse<T>(s: seq<T>): (r: seq<T>)
    ensures |r| == |s|
    ensures forall i :: 0 <= i < |s| ==> r[i] == s[|s| - 1 - i]
  {
    if s == [] then [] else [s[|s| - 1]] + Reverse(s[..|s| - 1])
  }

  /** `chartData`: the reduce, then `.reverse()`. */
  function Chart(logs: seq<MedicationLog>): seq<ChartPoint>
  {
    Reverse(Accumulate(logs))
  }

  /** The reduce as the component runs it: an accumulator that is searched,
      bumped in place or pushed to, and reversed at the end. */
  method ChartData(logs: seq<MedicationLog>) returns (chart: seq<ChartPoint>)
    ensures chart == Chart(logs)
  {
    var acc: seq<ChartPoint> := [];
    var k := 0;
    while k < |logs|
      invariant 0 <= k <= |logs|
      invariant acc == Accumulate(logs[..k])
    {
      var log := logs[k];
      var i := FindPoint(acc, Day(log.timestamp));
      if i < |acc| {
        acc := acc[i := acc[i].(doses := acc[i].doses + DoseIncrement(log.kind),
                                blocked := acc[i].blocked + BlockedIncrement(log.kind))];
      } else {
        acc := acc + [ChartPoint(Day(log.timestamp), DoseIncrement(log.kind), BlockedIncrement(log.kind))];
      }
      assert logs[..k + 1][..k] == logs[..k];
      k := k + 1;
    }
    assert logs[..|logs|] == logs;
    chart := ReverseInto(acc);
  }

  /** The search of `acc.find`, front to back. */
  method FindPoint(acc: seq<ChartPoint>, date: int) returns (i: nat)
    ensures i == PointIndex(acc, date)
  {
    i := 0;
    while i < |acc| && acc[i].date != date
      invariant 0 <= i <= |acc|
      invariant forall j :: 0 <= j < i ==> acc[j].date != date
    {
      i := i + 1;
    }
    PointIndexUnique(acc, date, i);
  }

  /** Only one position is the first one holding a date. */
  lemma {:induction false} PointIndexUnique(acc: seq<ChartPoint>, date: int, i: nat)
    requires i <= |acc|
    requires i < |acc| ==> acc[i].date == date
    requires forall j :: 0 <= j < i ==> acc[j].date != date
    ensures i == PointIndex(acc, date)
  {
    if acc != [] && acc[0].date != date {
      PointIndexUnique(acc[1..], date, i - 1);
    }
  }

  /** `.reverse()`, by pushing each point in front. */
  method ReverseInto(acc: seq<ChartPoint>) returns (chart: seq<ChartPoint>)
    ensures chart == Reverse(acc)
  {
    chart := [];
    var j := 0;
    while j < |acc|
      invariant 0 <= j <= |acc|
      invariant chart == Reverse(acc[..j])
    {
      assert acc[..j + 1][..j] == acc[..j];
      chart := [acc[j]] + chart;
      j := j + 1;
    }
    assert acc[..|acc|] == acc;
  }

  // ---------------------------------------------------------------------
  // What the chart shows

  function Dates(points: seq<ChartPoint>): (r: seq<int>)
    ensures |r| == |points|
    ensures forall i :: 0 <= i < |points| ==> r[i] == points[i].date
  {
    if points == [] then [] else Dates(points[..|points| - 1]) + [points[|points| - 1].date]
  }

  function LogDates(logs: seq<MedicationLog>): (r: seq<int>)
    ensures |r| == |logs|
    ensures forall i :: 0 <= i < |logs| ==> r[i] == Day(logs[i].timestamp)
  {
    if logs == [] then [] else LogDates(logs[..|logs| - 1]) + [Day(logs[|logs| - 1].timestamp)]
  }

  predicate NoDuplicates(s: seq<int>)
  {
    forall i, j :: 0 <= i < j < |s| ==> s[i] != s[j]
  }

  /** The distinct values of s in order of first appearance. */
  function Distinct(s: seq<int>): (r: seq<int>)
    ensures NoDuplicates(r)
    ensures forall x :: x in r <==> x in s
  {
    if s == [] then []
    else
      var d := Distinct(s[..|s| - 1]);
      assert s == s[..|s| - 1] + [s[|s| - 1]];
      if s[|s| - 1] in d then d else d + [s[|s| - 1]]
  }

  function TotalDoses(points: seq<ChartPoint>): nat
  {
    if points == [] then 0 else TotalDoses(points[..|points| - 1]) + points[|points| - 1].doses
  }

  function TotalBlocked(points: seq<ChartPoint>): nat
  {
    if points == [] then 0 else TotalBlocked(points[..|points| - 1]) + points[|points| - 1].blocked
  }

  lemma {:induction false} TotalsUpdate(points: seq<ChartPoint>, i: nat, p: ChartPoint)
    requires i < |points|
    ensures TotalDoses(points[i := p]) == TotalDoses(points) - points[i].doses + p.doses
    ensures TotalBlocked(points[i := p]) == TotalBlocked(points) - points[i].blocked + p.blocked
  {
    var n := |points|;
    if i < n - 1 {
      assert points[i := p][..n - 1] == points[..n - 1][i := p];
      TotalsUpdate(points[..n - 1], i, p);
    } else {
      assert points[i := p][..n - 1] == points[..n - 1];
    }
  }

  lemma {:induction false} TotalsPrepend(p: ChartPoint, points: seq<ChartPoint>)
    ensures TotalDoses([p] + points) == p.doses + TotalDoses(points)
    ensures TotalBlocked([p] + points) == p.blocked + TotalBlocked(points)
  {
    if points != [] {
      var n := |points|;
      assert ([p] + points)[..n] == [p] + points[..n - 1];
      TotalsPrepend(p, points[..n - 1]);
    } else {
      assert [p] + points == [p];
      assert [p][..0] == [];
    }
  }

  lemma {:induction false} TotalsReverse(points: seq<ChartPoint>)
    ensures TotalDoses(Reverse(points)) == TotalDoses(points)
    ensures TotalBlocked(Reverse(points)) == TotalBlocked(points)
  {
    if points != [] {
      var n := |points|;
      TotalsReverse(points[..n - 1]);
      TotalsPrepend(points[n - 1], Reverse(points[..n - 1]));
    }
  }

  /** A step keeps the dates when the day already has a point and appends the
      day otherwise. */
  lemma TallyDates(acc: seq<ChartPoint>, log: MedicationLog)
    ensures var date := Day(log.timestamp);
      Dates(Tally(acc, log)) == if date in Dates(acc) then Dates(acc) else Dates(acc) + [date]
  {
    var date := Day(log.timestamp);
    var i := PointIndex(acc, date);
    assert date in Dates(acc) <==> i < |acc|;
    if i == |acc| {
      var p := ChartPoint(date, DoseIncrement(log.kind), BlockedIncrement(log.kind));
      assert (acc + [p])[..|acc|] == acc;
    }
  }

  /** A step adds the entry's increments to the totals. */
  lemma TallyTotals(acc: seq<ChartPoint>, log: MedicationLog)
    ensures TotalDoses(Tally(acc, log)) == TotalDoses(acc) + DoseIncrement(log.kind)
    ensures TotalBlocked(Tally(acc, log)) == TotalBlocked(acc) + BlockedIncrement(log.kind)
  {
    var date := Day(log.timestamp);
    var i := PointIndex(acc, date);
    if i < |acc| {
      var p := acc[i].(doses := acc[i].doses + DoseIncrement(log.kind),
                       blocked := acc[i].blocked + BlockedIncrement(log.kind));
      TotalsUpdate(acc, i, p);
    } else {
      var p := ChartPoint(date, DoseIncrement(log.kind), BlockedIncrement(log.kind));
      assert (acc + [p])[..|acc|] == acc;
    }
  }

  /** The dates of the accumulated points are the log's days without repeats,
      in order of first appearance. */
  lemma {:induction false} AccumulateDates(logs: seq<MedicationLog>)
    ensures Dates(Accumulate(logs)) == Distinct(LogDates(logs))
  {
    if logs != [] {
      var n := |logs|;
      var init, log := logs[..n - 1], logs[n - 1];
      AccumulateDates(init);
      TallyDates(Accumulate(init), log);
      var ds := LogDates(logs);
      assert ds[..n - 1] == LogDates(init);
    }
  }

  /** The totals of the accumulated points are the numbers of dose entries and
      of blocked attempts. */
  lemma {:induction false} AccumulateTotals(logs: seq<MedicationLog>)
    ensures TotalDoses(Accumulate(logs)) == |Filter(logs, (l: MedicationLog) => IsDose(l.kind))|
    ensures TotalBlocked(Accumulate(logs)) == |Filter(logs, (l: MedicationLog) => l.kind == AttemptBlocked)|
  {
    if logs != [] {
      var n := |logs|;
      var init, log := logs[..n - 1], logs[n - 1];
      AccumulateTotals(init);
      TallyTotals(Accumulate(init), log);
      assert logs == init + [log];
      FilterConcat(init, [log], (l: MedicationLog) => IsDose(l.kind));
      FilterConcat(init, [log], (l: MedicationLog) => l.kind == AttemptBlocked);
    }
  }

  lemma DatesReverse(points: seq<ChartPoint>)
    ensures Dates(Reverse(points)) == Reverse(Dates(points))
  {
  }

  /** One point per distinct day, newest first appearance last reversed: the
      chart lists the days in reverse order of their first appearance in the
      log, no day twice, every logged day present (a day with only device
      errors gets a 0/0 point), and its totals count the dose entries and the
      blocked attempts. */
  lemma ChartFacts(logs: seq<MedicationLog>)
    ensures Dates(Chart(logs)) == Reverse(Distinct(LogDates(logs)))
    ensures NoDuplicates(Dates(Chart(logs)))
    ensures forall d :: d in Dates(Chart(logs)) <==> exists l :: l in logs && Day(l.timestamp) == d
    ensures TotalDoses(Chart(logs)) == |Filter(logs, (l: MedicationLog) => IsDose(l.kind))|
    ensures TotalBlocked(Chart(logs)) == |Filter(logs, (l: MedicationLog) => l.kind == AttemptBlocked)|
  {
    AccumulateDates(logs);
    AccumulateTotals(logs);
    TotalsReverse(Accumulate(logs));
    DatesReverse(Accumulate(logs));
    var ds := Distinct(LogDates(logs));
    ReverseKeepsElements(ds);
    LogDatesMembership(logs);
  }

  lemma ReverseKeepsElements(s: seq<int>)
    ensures forall x :: x in Reverse(s) <==> x in s
    ensures NoDuplicates(s) ==> NoDuplicates(Reverse(s))
  {
    var r := Reverse(s);
    forall x | x in s ensures x in r {
      var k :| 0 <= k < |s| && s[k] == x;
      assert r[|s| - 1 - k] == x;
    }
  }

  lemma LogDatesMembership(logs: seq<MedicationLog>)
    ensures forall d :: d in LogDates(logs) <==> exists l :: l in logs && Day(l.timestamp) == d
  {
    forall d | d in LogDates(logs) ensures exists l :: l in logs && Day(l.timestamp) == d {
      var k :| 0 <= k < |logs| && LogDates(logs)[k] == d;
      assert logs[k] in logs;
    }
    forall l | l in logs ensures Day(l.timestamp) in LogDates(logs) {
      var k :| 0 <= k < |logs| && logs[k] == l;
      assert LogDates(logs)[k] == Day(l.timestamp);
    }
  }

  // ---------------------------------------------------------------------
  // What each point counts

  /** The entry is a dose (regular or emergency) of local day d. */
  function DoseOn(d: int): MedicationLog -> bool
  {
    (l: MedicationLog) => IsDose(l.kind) && Day(l.timestamp) == d
  }

  /** The entry is a blocked attempt of local day d. */
  function BlockedOn(d: int): MedicationLog -> bool
  {
    (l: MedicationLog) => l.kind == AttemptBlocked && Day(l.timestamp) == d
  }

  /** Each point holds the numbers of doses and of blocked attempts of its day. */
  predicate CountsMatch(points: seq<ChartPoint>, logs: seq<MedicationLog>)
  {
    forall k :: 0 <= k < |points| ==>
      points[k].doses == |Filter(logs, DoseOn(points[k].date))|
      && points[k].blocked == |Filter(logs, BlockedOn(points[k].date))|
  }

  /** Appending one entry adds one to a count exactly when the entry passes its test. */
  lemma FilterSnoc(logs: seq<MedicationLog>, log: MedicationLog, f: MedicationLog -> bool)
    ensures |Filter(logs + [log], f)| == |Filter(logs, f)| + (if f(log) then 1 else 0)
  {
    FilterConcat(logs, [log], f);
    assert [log][1..] == [];
  }

  /** No entry of a day without a point passes that day's tests. */
  lemma FilterOtherDay(logs: seq<MedicationLog>, f: MedicationLog -> bool, d: int)
    requires forall l :: l in logs ==> Day(l.timestamp) != d
    requires forall l :: f(l) ==> Day(l.timestamp) == d
    ensures |Filter(logs, f)| == 0
  {
  }

  /** One step of the reduce keeps every point's counts right. */
  lemma TallyCounts(acc: seq<ChartPoint>, logs: seq<MedicationLog>, log: MedicationLog)
    requires CountsMatch(acc, logs)
    requires NoDuplicates(Dates(acc))
    requires forall l :: l in logs ==> Day(l.timestamp) in Dates(acc)
    ensures CountsMatch(Tally(acc, log), logs + [log])
  {
    var date := Day(log.timestamp);
    var i := PointIndex(acc, date);
    var r := Tally(acc, log);
    forall k | 0 <= k < |r|
      ensures r[k].doses == |Filter(logs + [log], DoseOn(r[k].date))|
      ensures r[k].blocked == |Filter(logs + [log], BlockedOn(r[k].date))|
    {
      FilterSnoc(logs, log, DoseOn(r[k].date));
      FilterSnoc(logs, log, BlockedOn(r[k].date));
      if k < |acc| && k != i {
        assert r[k] == acc[k];
        assert acc[k].date != date by {
          if k > i {
            assert Dates(acc)[i] == date && Dates(acc)[k] == acc[k].date;
          }
        }
      } else if k == |acc| {
        assert i == |acc| && r[k] == ChartPoint(date, DoseIncrement(log.kind), BlockedIncrement(log.kind));
        assert date !in Dates(acc);
        FilterOtherDay(logs, DoseOn(date), date);
        FilterOtherDay(logs, BlockedOn(date), date);
      }
    }
  }

  lemma {:induction false} AccumulateCounts(logs: seq<MedicationLog>)
    ensures CountsMatch(Accumulate(logs), logs)
  {
    if logs != [] {
      var n := |logs|;
      var init, log := logs[..n - 1], logs[n - 1];
      var acc := Accumulate(init);
      assert CountsMatch(Tally(acc, log), init + [log]) by {
        AccumulateCounts(init);
        AccumulateCovers(init);
        TallyCounts(acc, init, log);
      }
      assert init + [log] == logs;
      assert Accumulate(logs) == Tally(acc, log);
    }
  }

  /** The accumulated points have one point per logged day, none twice. */
  lemma AccumulateCovers(logs: seq<MedicationLog>)
    ensures NoDuplicates(Dates(Accumulate(logs)))
    ensures forall l :: l in logs ==> Day(l.timestamp) in Dates(Accumulate(logs))
  {
    AccumulateDates(logs);
    LogDatesMembership(logs);
  }

  /** Each point of the chart shows the doses and the blocked attempts logged
      on its own day. */
  lemma ChartPointCounts(logs: seq<MedicationLog>)
    ensures forall k :: 0 <= k < |Chart(logs)| ==>
              Chart(logs)[k].doses == |Filter(logs, DoseOn(Chart(logs)[k].date))|
              && Chart(logs)[k].blocked == |Filter(logs, BlockedOn(Chart(logs)[k].date))|
  {
    AccumulateCounts(logs);
    var acc := Accumulate(logs);
    var chart := Chart(logs);
    assert chart == Reverse(acc);
    forall k | 0 <= k < |chart|
      ensures chart[k].doses == |Filter(logs, DoseOn(chart[k].date))|
      ensures chart[k].blocked == |Filter(logs, BlockedOn(chart[k].date))|
    {
      assert chart[k] == acc[|acc| - 1 - k];
    }
  }

  /** The chart's point for the current day shows the same dose count as the
      patient app's daily-limit rule. */
  lemma ChartTodayIsAppCount(logs: seq<MedicationLog>, now: Instant, k: nat)
    requires k < |Chart(logs)| && Chart(logs)[k].date == Day(now)
    ensures Chart(logs)[k].doses == DosesToday(logs, now)
  {
    ChartPointCounts(logs);
    FilterSame(logs, DoseOn(Day(now)), (l: MedicationLog) => IsDose(l.kind) && Day(l.timestamp) == Day(now));
  }

  // ---------------------------------------------------------------------
  // The log table

  /** The badge of a log entry. */
  function LogLabel(kind: LogType): string
  {
    if kind == DoseTaken then "Dose Administered"
    else if kind == EmergencyDose then "Emergency Override"
    else "Access Denied"
  }

  /** Only the two dose kinds get their own label; blocked attempts and device
      errors alike read "Access Denied". */
  lemma LogLabelDeniedIffNotDose(kind: LogType)
    ensures LogLabel(kind) == "Access Denied" <==> !IsDose(kind)
    ensures LogLabel(DoseTaken) != LogLabel(EmergencyDose)
  {
  }

  /** The note column: the note, or "-" when there is none or it is empty. */
  function NoteText(note: Option<string>): (r: string)
    ensures r != ""
    ensures note.Some? && note.value != "" ==> r == note.value
    ensures r == "-" <==> note == None || note == Some("") || note == Some("-")
  {
    match note
    case Some(n) => if n == "" then "-" else n
    case None => "-"
  }

  // ---------------------------------------------------------------------
  // The prescription form

  /** The config form: a draft initialised from the record, and a save that
      forwards, after a delay, the draft as it was when Save was pressed. */
  class ConfigEditor {
    const patientId: string
    var draft: PrescriptionConfig
    var isSaving: bool
    /** The draft captured by the save timer in flight. */
    var pending: Option<PrescriptionConfig>

    constructor(p: Patient)
      ensures patientId == p.id && draft == p.config && !isSaving && pending == None
    {
      patientId := p.id;
      draft := p.config;
      isSaving := false;
      pending := None;
    }

    method Edit(c: PrescriptionConfig)
      modifies this
      ensures draft == c && isSaving == old(isSaving) && pending == old(pending)
    {
      draft := c;
    }

    /** `handleSaveConfig`; the button is disabled while saving. */
    method BeginSave() returns (started: bool)
      modifies this
      ensures started == !old(isSaving)
      ensures started ==> isSaving && pending == Some(old(draft))
      ensures !started ==> pending == old(pending) && isSaving == old(isSaving)
      ensures draft == old(draft)
    {
      if isSaving {
        return false;
      }
      isSaving := true;
      pending := Some(draft);
      started := true;
    }

    /** The end of the delay: `onUpdateConfig(patient.id, config)` with the
        captured draft, unchanged, for this patient only. */
    method FinishSave(store: PatientStore, now: Instant)
      requires isSaving && pending.Some? && store.Valid()
      modifies this, store
      ensures store.Valid()
      ensures store.patients == ConfigUpdated(old(store.patients), patientId, old(pending).value, now)
      ensures !isSaving && pending == None && draft == old(draft)
    {
      store.HandleUpdateConfig(patientId, pending.value, now);
      isSaving := false;
      pending := None;
    }
  }
}
