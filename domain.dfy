/**
 * The records of the tracker (types.ts) and its fixed option lists and
 * defaults (constants.ts). Timestamps are milliseconds since the epoch,
 * the time value behind the ISO strings the source stores.
 */
module Domain {
  import opened Wrappers

  /** A vehicle. `category` is the optional free-text type picked in the forms. */
  datatype Car = Car(
    id: string,
    name: string,
    category: Option<string>,
    currentMileage: int,
    lastUpdated: int)

  /**
   * A service event. `serviceType` is read by the dashboard although
   * `OilChangeRecord` does not declare it; records built by the service
   * form never set it.
   */
  datatype ServiceRecord = ServiceRecord(
    id: string,
    date: int,
    mileageAtChange: int,
    intervalKm: int,
    intervalMonths: int,
    nextChangeMileage: int,
    nextChangeDate: int,
    note: Option<string>,
    oilType: Option<string>,
    serviceType: Option<string>)

  /** One entry of the service-type list: the stored value and its display label (`label` in the source). */
  datatype ServiceTypeOption = ServiceTypeOption(value: string, labelText: string)

  const DefaultIntervalKm: int := 5000
  const DefaultIntervalMonths: int := 6

  /** The vehicle types offered by the category combo box. */
  const CarCategoryOptions: seq<string> := [
    "سواری",
    "هاچ\U{200C}بک",
    "شاسی\U{200C}بلند (SUV)",
    "وانت",
    "ون",
    "کامیونت / کامیون",
    "موتورسیکلت",
    "سایر"
  ]

  /** The oil brands offered by the service form. */
  const OilTypeOptions: seq<string> := ["بهران", "لوکومولی"]

  const OilChangeType: string := "oil_change"
  const OilChangeLabel: string := "تعویض روغن"

  const ServiceTypeOptions: seq<ServiceTypeOption> := [
    ServiceTypeOption(OilChangeType, OilChangeLabel),
    ServiceTypeOption("air_filter", "فیلتر هوا"),
    ServiceTypeOption("coolant", "ضد یخ"),
    ServiceTypeOption("brake_fluid", "روغن ترمز")
  ]
}
