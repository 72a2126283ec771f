/**
 * The add-service form: its fields and defaults, and the record its submit
 * builds, with the next-change mileage by addition and the next-change
 * date by calendar-month addition through `setMonth`.
 */
module ServiceModal {
  import opened Wrappers
  import opened Domain
  import opened Calendar
  import opened JsNumber
  import opened Dashboard

  /**
   * Why a submit produces no record. `InvalidTimeValue` is the RangeError
   * `toISOString` throws for an empty date or a month count that
   * `ParseNumber` does not read (NaN in the source, or a fraction or
   * exponent this model does not parse); `NotANumber` stands for a mileage
   * or distance interval that `ParseNumber` does not read.
   */
  datatype BuildError = InvalidTimeValue | NotANumber

  /** The record `handleSubmit` hands to `onSave`, from the form's field values. */
  function BuildRecord(id: string, date: Option<CalendarDate>, mileage: string, intervalKm: string,
                       intervalMonths: string, oilType: Option<string>): (r: Result<ServiceRecord, BuildError>)
    requires date.Some? ==> ValidDate(date.value)
    ensures r.Success? <==>
      date.Some? && ParseNumber(mileage).Some? && ParseNumber(intervalKm).Some? && ParseNumber(intervalMonths).Some?
    ensures r.Failure? ==> (r.error == InvalidTimeValue <==> date.None? || ParseNumber(intervalMonths).None?)
    ensures r.Success? ==>
      var rec := r.value;
      && rec.id == id
      && ParseNumber(mileage) == Some(rec.mileageAtChange)
      && ParseNumber(intervalKm) == Some(rec.intervalKm)
      && ParseNumber(intervalMonths) == Some(rec.intervalMonths)
      && rec.nextChangeMileage == rec.mileageAtChange + rec.intervalKm
      && rec.date == TimeValue(date.value)
      && rec.nextChangeDate == TimeValue(AddMonths(date.value, rec.intervalMonths))
      && (rec.intervalMonths == 0 ==> rec.nextChangeDate == rec.date)
      && (rec.intervalMonths >= 0 ==> rec.nextChangeDate >= rec.date)
      && (rec.intervalMonths > 0 ==> rec.nextChangeDate > rec.date)
      && rec.oilType == oilType && rec.note.None? && rec.serviceType.None?
  {
    var months := ParseNumber(intervalMonths);
    if date.None? || months.None? then Failure(InvalidTimeValue)
    else
      var km := ParseNumber(intervalKm);
      var start := ParseNumber(mileage);
      if start.None? || km.None? then Failure(NotANumber)
      else
        var next := AddMonths(date.value, months.value);
        AddMonthsZero(date.value);
        AddMonthsNeverPrecedes(date.value, months.value);
        Success(ServiceRecord(id, TimeValue(date.value), start.value, km.value, months.value,
                              start.value + km.value, TimeValue(next), None, oilType, None))
  }

  /** Every submit of integer fields (empty ones read as 0) yields a record holding them. */
  lemma NoRejectionPath(id: string, date: CalendarDate, mileage: int, intervalKm: int, intervalMonths: int,
                        oilType: Option<string>)
    requires ValidDate(date)
    ensures var r := BuildRecord(id, Some(date), IntToString(mileage), IntToString(intervalKm),
                                 IntToString(intervalMonths), oilType);
      && r.Success?
      && r.value.mileageAtChange == mileage
      && r.value.intervalKm == intervalKm
      && r.value.intervalMonths == intervalMonths
      && r.value.nextChangeMileage == mileage + intervalKm
  {
    ParseNumberOfIntToString(mileage);
    ParseNumberOfIntToString(intervalKm);
    ParseNumberOfIntToString(intervalMonths);
  }

  /** Empty number fields give a record at 0 km, due at 0 km, on the service date. */
  lemma EmptyFieldsRecord(id: string, date: CalendarDate, oilType: Option<string>)
    requires ValidDate(date)
    ensures var r := BuildRecord(id, Some(date), "", "", "", oilType);
      && r.Success?
      && r.value.mileageAtChange == 0 && r.value.intervalKm == 0 && r.value.intervalMonths == 0
      && r.value.nextChangeMileage == 0 && r.value.nextChangeDate == r.value.date
  {
    assert ParseNumber("") == Some(0);
  }

  /** An oil change on 31 January 2024 with a 1-month interval is next due on 2 March 2024. */
  lemma JanuaryThirtyFirstRecord(id: string)
    ensures var r := BuildRecord(id, Some(CalendarDate(2024, 0, 31)), IntToString(45000), IntToString(5000),
                                 IntToString(1), None);
      r.Success? && r.value.nextChangeDate == TimeValue(CalendarDate(2024, 2, 2))
  {
    NoRejectionPath(id, CalendarDate(2024, 0, 31), 45000, 5000, 1, None);
    AddMonthsExamples();
  }

  /**
   * A record just saved is the one the dashboard reads next: it is an oil
   * change, so its stored next-change mileage sets the distance left.
   */
  lemma SavedRecordDrivesStatus(rec: ServiceRecord, car: Car, history: seq<ServiceRecord>, now: int,
                                id: string, date: Option<CalendarDate>, mileage: string, intervalKm: string,
                                intervalMonths: string, oilType: Option<string>)
    requires date.Some? ==> ValidDate(date.value)
    requires BuildRecord(id, date, mileage, intervalKm, intervalMonths, oilType) == Success(rec)
    ensures var s := ComputeStatus(Some(car), [rec] + history, now);
      && s.Known?
      && s.kmRemaining == rec.nextChangeMileage - car.currentMileage
      && s.nextKm == rec.nextChangeMileage
      && s.nextDate == rec.nextChangeDate
  {
    assert ([rec] + history)[0] == rec;
    KmRemainingToNextChange(Some(car), [rec] + history, now);
  }

  /** The form's field values, as the input elements hold them. */
  class ServiceForm {
    var date: Option<CalendarDate>
    var mileage: string
    var intervalKm: string
    var intervalMonths: string
    var oilType: Option<string>

    ghost predicate Valid()
      reads this
    {
      date.Some? ==> ValidDate(date.value)
    }

    /** The initial field values: today, the current mileage, 5000 km, 6 months, the first oil brand. */
    constructor (currentMileage: int, today: CalendarDate)
      requires ValidDate(today)
      ensures Valid()
      ensures date == Some(today) && mileage == IntToString(currentMileage)
      ensures intervalKm == IntToString(DefaultIntervalKm) && intervalMonths == IntToString(DefaultIntervalMonths)
      ensures oilType == Some(OilTypeOptions[0])
    {
      date := Some(today);
      mileage := IntToString(currentMileage);
      intervalKm := IntToString(DefaultIntervalKm);
      intervalMonths := IntToString(DefaultIntervalMonths);
      oilType := Some(OilTypeOptions[0]);
    }

    /** The date input; None when it is cleared. */
    method SetDate(v: Option<CalendarDate>)
      requires v.Some? ==> ValidDate(v.value)
      modifies this`date
      ensures Valid() && date == v
    {
      date := v;
    }

    method SetMileage(v: string)
      modifies this`mileage
      ensures mileage == v
    {
      mileage := v;
    }

    method SetIntervalKm(v: string)
      modifies this`intervalKm
      ensures intervalKm == v
    {
      intervalKm := v;
    }

    method SetIntervalMonths(v: string)
      modifies this`intervalMonths
      ensures intervalMonths == v
    {
      intervalMonths := v;
    }

    /** The oil-brand select: an empty choice leaves the brand absent. */
    method SelectOilType(v: string)
      modifies this`oilType
      ensures oilType == if v == "" then None else Some(v)
    {
      oilType := if v == "" then None else Some(v);
    }

    /** `handleSubmit`: the record passed to `onSave`; the form itself is left as it is. */
    method Submit(id: string) returns (r: Result<ServiceRecord, BuildError>)
      requires Valid()
      ensures r == BuildRecord(id, date, mileage, intervalKm, intervalMonths, oilType)
    {
      var mileageNum := ParseNumber(mileage);
      var intervalKmNum := ParseNumber(intervalKm);
      var intervalMonthsNum := ParseNumber(intervalMonths);
      if date.None? || intervalMonthsNum.None? {
        return Failure(InvalidTimeValue);
      }
      var nextDate := new DateCell(date.value);
      nextDate.SetMonth(nextDate.Month() + intervalMonthsNum.value);
      assert nextDate.value == AddMonths(date.value, intervalMonthsNum.value);
      var nextTime := nextDate.Time();
      if mileageNum.None? || intervalKmNum.None? {
        return Failure(NotANumber);
      }
      r := Success(ServiceRecord(id, TimeValue(date.value), mileageNum.value, intervalKmNum.value,
                                 intervalMonthsNum.value, mileageNum.value + intervalKmNum.value,
                                 nextTime, None, oilType, None));
    }
  }

  /** Submitting the untouched form records the current mileage with the default intervals. */
  lemma DefaultFormRecord(id: string, currentMileage: int, today: CalendarDate)
    requires ValidDate(today)
    ensures var r := BuildRecord(id, Some(today), IntToString(currentMileage), IntToString(DefaultIntervalKm),
                                 IntToString(DefaultIntervalMonths), Some(OilTypeOptions[0]));
      && r.Success?
      && r.value.mileageAtChange == currentMileage
      && r.value.intervalKm == 5000 && r.value.intervalMonths == 6
      && r.value.nextChangeMileage == currentMileage + 5000
      && r.value.nextChangeDate == TimeValue(AddMonths(today, 6))
      && r.value.oilType == Some("بهران")
  {
    NoRejectionPath(id, today, currentMileage, DefaultIntervalKm, DefaultIntervalMonths, Some(OilTypeOptions[0]));
  }
}
