/**
 * The due-status engine of the dashboard: the latest oil-change record,
 * the distance and time left until the next change, the share of the
 * interval already used, and the good / warning / danger classification.
 * `now` is the clock reading, in milliseconds, at evaluation time.
 */
module Dashboard {
  import opened Wrappers
  import opened Domain
  import opened Calendar

  /** A record counts as an oil change when its type is absent, empty or `oil_change`. */
  predicate IsOilChange(r: ServiceRecord): (b: bool)
    ensures b <==> (if r.serviceType.None? || r.serviceType.value == "" then OilChangeType else r.serviceType.value)
                   == OilChangeType
    ensures forall o :: o in ServiceTypeOptions && o.value != OilChangeType && r.serviceType == Some(o.value) ==> !b
  {
    r.serviceType.None? || r.serviceType.value == "" || r.serviceType.value == OilChangeType
  }

  /** The first oil-change record of the history (`Array.prototype.find`). */
  function LastOilChange(history: seq<ServiceRecord>): (r: Option<ServiceRecord>)
    ensures r.None? <==> forall i :: 0 <= i < |history| ==> !IsOilChange(history[i])
    ensures r.Some? ==> exists i :: 0 <= i < |history| && history[i] == r.value && FirstOilChangeAt(history, i)
    decreases |history|
  {
    if history == [] then None
    else if IsOilChange(history[0]) then
      assert FirstOilChangeAt(history, 0);
      Some(history[0])
    else
      var r := LastOilChange(history[1..]);
      if r.Some? then
        var i :| 0 <= i < |history[1..]| && history[1..][i] == r.value && FirstOilChangeAt(history[1..], i);
        assert FirstOilChangeAt(history, i + 1);
        r
      else
        assert forall i :: 1 <= i < |history| ==> history[i] == history[1..][i - 1];
        r
  }

  /** Index `i` holds an oil-change record and no earlier index does. */
  predicate FirstOilChangeAt(history: seq<ServiceRecord>, i: int) {
    0 <= i < |history| && IsOilChange(history[i]) &&
    forall j :: 0 <= j < i ==> !IsOilChange(history[j])
  }

  /** The order in which the store returns the history: newest first. */
  predicate SortedByDateDescending(history: seq<ServiceRecord>) {
    forall i, j :: 0 <= i < j < |history| ==> history[i].date >= history[j].date
  }

  /** On a newest-first history the first oil-change record is the most recent one. */
  lemma LastOilChangeIsMostRecent(history: seq<ServiceRecord>)
    requires SortedByDateDescending(history)
    ensures LastOilChange(history).Some? ==>
      forall r :: r in history && IsOilChange(r) ==> r.date <= LastOilChange(history).value.date
  {
    var last := LastOilChange(history);
    if last.Some? {
      var i :| 0 <= i < |history| && history[i] == last.value && FirstOilChangeAt(history, i);
      forall r | r in history && IsOilChange(r)
        ensures r.date <= last.value.date
      {
        var j :| 0 <= j < |history| && history[j] == r;
        assert j >= i;
      }
    }
  }

  function Min(a: real, b: real): real {
    if a <= b then a else b
  }

  function Max(a: real, b: real): real {
    if a >= b then a else b
  }

  lemma RatioAtLeastOne(a: real, b: real)
    ensures 0.0 < b <= a ==> a / b >= 1.0
  {
    if 0.0 < b <= a {
      var q := a / b;
      assert q * b == a;
    }
  }

  /**
   * `Math.min(100, Math.max(0, kmDriven / intervalKm * 100))`. A zero
   * interval divides to plus or minus infinity, which the clamp turns into
   * 100 or 0, or to NaN (None) when nothing was driven either.
   */
  function PercentUsed(kmDriven: int, intervalKm: int): (p: Option<real>)
    ensures p.None? <==> intervalKm == 0 && kmDriven == 0
    ensures p.Some? ==> 0.0 <= p.value <= 100.0
    ensures intervalKm > 0 && kmDriven <= 0 ==> p == Some(0.0)
    ensures intervalKm > 0 && kmDriven >= intervalKm ==> p == Some(100.0)
    ensures intervalKm > 0 && 0 <= kmDriven <= intervalKm ==>
      p == Some(kmDriven as real / intervalKm as real * 100.0)
  {
    if intervalKm == 0 then
      if kmDriven > 0 then Some(100.0) else if kmDriven < 0 then Some(0.0) else None
    else
      var ratio := kmDriven as real / intervalKm as real;
      RatioAtLeastOne(kmDriven as real, intervalKm as real);
      assert intervalKm > 0 && 0 <= kmDriven <= intervalKm ==> 0.0 <= ratio <= 1.0;
      Some(Min(100.0, Max(0.0, ratio * 100.0)))
  }

  /** `Math.ceil(msLeft / (1000 * 3600 * 24))`: whole 24-hour days left, rounded up. */
  function DaysRemaining(nextChangeDate: int, now: int): (days: int)
    ensures MsPerDay * (days - 1) < nextChangeDate - now <= MsPerDay * days
  {
    -((now - nextChangeDate) / MsPerDay)
  }

  datatype Severity = Good | Warning | Danger

  /** Below this many kilometres left, a change is near. */
  const WarningKm: int := 1000
  /** Below this many days left, a change is near. */
  const WarningDays: int := 14

  /** Danger first, then warning, else good. */
  function Classify(kmRemaining: int, daysRemaining: int): (s: Severity)
    ensures s == Danger <==> kmRemaining <= 0 || daysRemaining <= 0
    ensures s == Warning <==>
      !(kmRemaining <= 0 || daysRemaining <= 0) && (kmRemaining < WarningKm || daysRemaining < WarningDays)
    ensures s == Good <==> kmRemaining >= WarningKm && daysRemaining >= WarningDays
  {
    if kmRemaining <= 0 || daysRemaining <= 0 then Danger
    else if kmRemaining < WarningKm || daysRemaining < WarningDays then Warning
    else Good
  }

  const NoServiceText: string := "هنوز سرویسی ثبت نشده"

  /**
   * The status card. `nextDate` is the time value of the next-change date,
   * which the source formats for display.
   */
  datatype Status =
    | Unknown(text: string)
    | Known(severity: Severity, kmRemaining: int, kmDriven: int, percentUsed: Option<real>,
            daysRemaining: int, nextDate: int, nextKm: int)

  /** The `status` memo of the dashboard. */
  function ComputeStatus(car: Option<Car>, history: seq<ServiceRecord>, now: int): (s: Status)
    ensures s.Unknown? <==> car.None? || LastOilChange(history).None?
    ensures s.Unknown? ==> s.text == NoServiceText
    ensures s.Known? ==>
      var rec := LastOilChange(history).value;
      && s.kmDriven == car.value.currentMileage - rec.mileageAtChange
      && s.kmRemaining == rec.intervalKm - s.kmDriven
      && s.nextKm == rec.nextChangeMileage
      && s.nextDate == rec.nextChangeDate
      && MsPerDay * (s.daysRemaining - 1) < rec.nextChangeDate - now <= MsPerDay * s.daysRemaining
      && (s.severity == Danger <==> s.kmRemaining <= 0 || s.daysRemaining <= 0)
      && (s.severity == Warning <==>
            !(s.kmRemaining <= 0 || s.daysRemaining <= 0) && (s.kmRemaining < WarningKm || s.daysRemaining < WarningDays))
      && s.percentUsed == PercentUsed(s.kmDriven, rec.intervalKm)
      && (rec.intervalKm > 0 ==> s.percentUsed.Some? && 0.0 <= s.percentUsed.value <= 100.0)
  {
    var last := LastOilChange(history);
    if last.None? || car.None? then Unknown(NoServiceText)
    else
      var rec := last.value;
      var kmDriven := car.value.currentMileage - rec.mileageAtChange;
      var kmRemaining := rec.intervalKm - kmDriven;
      var days := DaysRemaining(rec.nextChangeDate, now);
      Known(Classify(kmRemaining, days), kmRemaining, kmDriven, PercentUsed(kmDriven, rec.intervalKm),
            days, rec.nextChangeDate, rec.nextChangeMileage)
  }

  /** When the stored next-change mileage is mileage plus interval, the distance left is measured to it. */
  lemma KmRemainingToNextChange(car: Option<Car>, history: seq<ServiceRecord>, now: int)
    requires LastOilChange(history).Some?
    requires var rec := LastOilChange(history).value; rec.nextChangeMileage == rec.mileageAtChange + rec.intervalKm
    ensures var s := ComputeStatus(car, history, now);
      s.Known? ==> s.kmRemaining == s.nextKm - car.value.currentMileage
  {
  }

  /** A change driven exactly to its interval is due, whatever the date. */
  lemma OverdueScenario(id: string, date: int, nextDate: int, now: int)
    ensures var rec := ServiceRecord(id, date, 45000, 5000, 6, 50000, nextDate, None, None, None);
      var car := Car("c", "n", None, 50000, now);
      var s := ComputeStatus(Some(car), [rec], now);
      s.Known? && s.kmDriven == 5000 && s.kmRemaining == 0 && s.percentUsed == Some(100.0) && s.severity == Danger
  {
  }

  /** 800 km into a 5000 km interval with a far due date is good and 16% used. */
  lemma GoodScenario(id: string, date: int, nextDate: int, now: int)
    requires nextDate - now > MsPerDay * 14
    ensures var rec := ServiceRecord(id, date, 39200, 5000, 6, 44200, nextDate, None, None, None);
      var car := Car("c", "n", None, 40000, now);
      var s := ComputeStatus(Some(car), [rec], now);
      s.Known? && s.kmRemaining == 4200 && s.percentUsed == Some(16.0) && s.severity == Good
  {
  }

  /** The first matching entry of a list of service-type options (`find`). */
  function FindOption(options: seq<ServiceTypeOption>, value: string): (r: Option<ServiceTypeOption>)
    ensures r.Some? ==> r.value.value == value
    ensures r.Some? ==>
      exists i :: 0 <= i < |options| && options[i] == r.value && forall j :: 0 <= j < i ==> options[j].value != value
    ensures r.None? ==> forall o :: o in options ==> o.value != value
    decreases |options|
  {
    if options == [] then None
    else if options[0].value == value then Some(options[0])
    else
      var r := FindOption(options[1..], value);
      if r.Some? then
        var i :| 0 <= i < |options[1..]| && options[1..][i] == r.value
                 && forall j :: 0 <= j < i ==> options[1..][j].value != value;
        assert options[i + 1] == r.value;
        assert forall j :: 0 <= j < i + 1 ==> options[j].value != value by {
          forall j | 0 <= j < i + 1 ensures options[j].value != value {
            if j > 0 { assert options[j] == options[1..][j - 1]; }
          }
        }
        r
      else
        r
  }

  /** The label shown in the history preview: an absent or empty type reads as an oil change. */
  function ServiceLabel(r: ServiceRecord): (shown: string)
    ensures IsOilChange(r) ==> shown == OilChangeLabel
    ensures forall o :: o in ServiceTypeOptions && r.serviceType == Some(o.value) && o.value != "" ==> shown == o.labelText
    ensures (forall o :: o in ServiceTypeOptions ==> r.serviceType != Some(o.value)) ==> shown == OilChangeLabel
    ensures shown in {OilChangeLabel, "فیلتر هوا", "ضد یخ", "روغن ترمز"}
  {
    var key := if r.serviceType.None? || r.serviceType.value == "" then OilChangeType else r.serviceType.value;
    match FindOption(ServiceTypeOptions, key)
    case Some(o) => if o.labelText == "" then OilChangeLabel else o.labelText
    case None => OilChangeLabel
  }
}
