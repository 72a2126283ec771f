# Vehicle maintenance tracker: due status, service records and vehicle forms

A Dafny model of the domain logic of a single-user vehicle maintenance
tracker. The logic sits inside three kinds of UI component:

- **Due-status engine** (`components/Dashboard.tsx`). It takes the first oil-change
  record of the newest-first history. From that record and the vehicle's
  odometer it computes the distance driven, the distance left, the clamped
  share of the interval used and the whole days left. It then classifies
  the result as `danger`, `warning` or `good`, or `unknown` when there is
  no record or no vehicle. It also picks the label of a history entry.
- **Service-record construction** (`components/AddServiceModal.tsx`). The form's fields
  and their defaults. The submit turns them into a record: the next-change
  mileage is mileage plus interval; the next-change date is the service
  date advanced by whole months through `Date.prototype.setMonth`.
- **Vehicle forms** (`components/Onboarding.tsx`, `components/AddCarModal.tsx`).
  The mileage check on submit, the default names, keeping the id on an
  edit, the case-insensitive category suggestions, the rule that a
  category is set only by picking a suggestion and cleared by typing, the
  prefill effect of the edit dialog, and the reset after a new vehicle is
  added.

Modules, one per file:

| file | module | models |
|---|---|---|
| wrappers.dfy | `Wrappers` | `Option` for `undefined`, `Result` for error paths |
| domain.dfy | `Domain` | `Car`, `OilChangeRecord` (as `ServiceRecord`), the option lists and defaults of `constants.ts` |
| js_number.dfy | `JsNumber` | `Number(text)` on decimal integers, `toString` of integers |
| js_text.dfy | `JsText` | `toLowerCase` and `includes` |
| calendar.dfy | `Calendar` | ECMA-262 date arithmetic (DayFromYear, MakeDay, `Date.prototype.setMonth`); `DateCell`, a mutable `Date` |
| dashboard.dfy | `Dashboard` | the `status` memo and the history label |
| service_modal.dfy | `ServiceModal` | the service form (`ServiceForm`) and the record it builds |
| car_form.dfy | `CarForm` | the mileage check and category filter that both vehicle forms share |
| onboarding.dfy | `Onboarding` | the first-vehicle form (`OnboardingForm`) |
| add_car_modal.dfy | `AddCarModal` | the add/edit vehicle dialog (`CarModalForm`) |

Conventions:
- Odometer values are `int`.
- Timestamps are `int` milliseconds since the epoch. They stand for the time values behind the ISO strings the source stores.
- The clock (`new Date()`) is a parameter: `now` for the dashboard and the vehicle forms, `today` for the service form's default date.
- `crypto.randomUUID()` is a `freshId` parameter.
- A callback such as `onSave` or `onComplete` is a method's return value. `None` or `Failure` means the callback is not called.
- `percentUsed` is a `real`. NaN is `None`.
- Form fields are class fields. Each `onChange` handler is a method.

Behaviour of the code worth knowing, which the model keeps:
- The code never rejects intervals of zero or less, so `BuildRecord` accepts them (`NoRejectionPath`).
- The code divides milliseconds by a fixed 24-hour day, not by calendar days (`DaysRemaining`).
- The service form never sets a service type, and it stores the selected oil type as it is, whatever the kind of service.
- The month step inherits the ECMAScript rule: a day past the end of the target month rolls forward into the next month. So 31 January 2024 plus one month is 2 March 2024 (`Calendar.AddMonthsExamples`, `ServiceModal.JanuaryThirtyFirstRecord`).

## Model

| member | source | states |
|---|---|---|
| `Dashboard.LastOilChange` | components/Dashboard.tsx:39-48 | the result is absent exactly when no entry has an absent, empty or `oil_change` type; otherwise it is the entry at the first index that has one |
| `Dashboard.IsOilChange` | components/Dashboard.tsx:46-47 | a record is an oil change exactly when its type, with an absent or empty type read as `oil_change` (the default of line 325), is `oil_change`; the other listed types are not |
| `Dashboard.LastOilChangeIsMostRecent` | components/Dashboard.tsx:46-48 | on a history ordered newest first (services/storage.ts line 83), no oil-change record is newer than the one found |
| `Dashboard.PercentUsed` | components/Dashboard.tsx:54 | the clamped share always lies in [0, 100]; for a positive interval it is 0 when nothing was driven, 100 from the interval on, and the plain ratio times 100 in between; it is NaN only for 0 / 0 |
| `Dashboard.DaysRemaining` | components/Dashboard.tsx:57 | the result is the ceiling of the milliseconds left divided by 86 400 000: the least whole number of 24-hour days covering them |
| `Dashboard.Classify` | components/Dashboard.tsx:59-61 | danger if and only if km left ≤ 0 or days left ≤ 0; warning if and only if not danger and (km left < 1000 or days left < 14); good if and only if km left ≥ 1000 and days left ≥ 14 |
| `Dashboard.ComputeStatus` | components/Dashboard.tsx:44-72 | unknown, with the no-service text and no numbers, exactly when the vehicle or the oil-change record is missing; otherwise it gives the unclamped km driven and km left, days left as the ceiling of milliseconds over days, the stored next mileage and date, the danger and warning conditions, and the percentage `PercentUsed` gives for the km driven and the interval, in [0, 100] for a positive interval |
| `Dashboard.KmRemainingToNextChange` | components/Dashboard.tsx:52-70 | when the record's stored next-change mileage is its mileage plus interval, km left equals next-change mileage minus current mileage |
| `Dashboard.OverdueScenario` | components/Dashboard.tsx:52-61 | at 50 000 km after a change at 45 000 km with a 5000 km interval: 5000 km driven, 0 left, 100% used, danger whatever the date |
| `Dashboard.GoodScenario` | components/Dashboard.tsx:52-61 | at 40 000 km after a change at 39 200 km with a 5000 km interval and more than 14 days left: 4200 km left, 16% used, good |
| `Dashboard.FindOption` | components/Dashboard.tsx:324-325 | a found option has the value searched for and is the first such option of the list; when none is found, no option has that value |
| `Dashboard.ServiceLabel` | components/Dashboard.tsx:323-326 | an absent, empty or `oil_change` type shows the oil-change label; a listed type shows its own label; an unlisted type falls back to the oil-change label; the label is always one of the four |
| `ServiceModal.BuildRecord` | components/AddServiceModal.tsx:29-54 | a record is built exactly when the date is set and the three number fields parse; it stores the parsed mileage and intervals unchanged, next-change mileage = mileage + interval, next-change date = the service date advanced by the month count; that date equals the service date for 0 months, never precedes it for 0 or more months, and is later for 1 or more; the oil type is kept as selected; note and service type are absent; an empty date or a month count that `Number` reads as NaN is the `toISOString` RangeError |
| `ServiceModal.NoRejectionPath` | components/AddServiceModal.tsx:29-53 | every submit of integer fields yields a record carrying them, negative values included; there is no validation |
| `ServiceModal.EmptyFieldsRecord` | components/AddServiceModal.tsx:32-34 | empty number fields read as 0, giving a record at 0 km, due at 0 km, on the service date |
| `ServiceModal.JanuaryThirtyFirstRecord` | components/AddServiceModal.tsx:37-48 | a change on 31 January 2024 with a 1-month interval is next due on 2 March 2024 |
| `ServiceModal.SavedRecordDrivesStatus` | components/AddServiceModal.tsx:41-50 | a record the form built, placed first in the history, is what the dashboard reads: km left = stored next-change mileage − current mileage, with its next date and mileage shown |
| `ServiceModal.DefaultFormRecord` | components/AddServiceModal.tsx:21-25 | the untouched form records the current mileage, 5000 km, 6 months, next mileage current + 5000, next date 6 months on, and the first oil brand |
| `ServiceModal.ServiceForm.constructor` | components/AddServiceModal.tsx:21-25 | the fields start as today's date, the current mileage as text, "5000", "6" and the first oil brand |
| `ServiceModal.ServiceForm.SetDate` | components/AddServiceModal.tsx:72 | the date input sets the date, or clears it |
| `ServiceModal.ServiceForm.SetMileage` | components/AddServiceModal.tsx:80 | the mileage input sets the mileage text and nothing else |
| `ServiceModal.ServiceForm.SetIntervalKm` | components/AddServiceModal.tsx:97 | the distance-interval input sets its text and nothing else |
| `ServiceModal.ServiceForm.SetIntervalMonths` | components/AddServiceModal.tsx:105 | the month-interval input sets its text and nothing else |
| `ServiceModal.ServiceForm.SelectOilType` | components/AddServiceModal.tsx:118 | an empty selection leaves the oil type absent, any other becomes it |
| `ServiceModal.ServiceForm.Submit` | components/AddServiceModal.tsx:29-54 | with a `Date` object advanced in place by `setMonth(getMonth() + n)`, the submit yields exactly `BuildRecord` of the current fields and leaves the form unchanged |
| `Calendar.RollForward` | components/AddServiceModal.tsx:39 | the date reached is valid and lies day − 1 days after the first of the given month, so a day past the month's end rolls into the next months (ECMA-262's MakeDay) |
| `Calendar.WithMonth` | components/AddServiceModal.tsx:39 | `setMonth(m)` gives a valid date `day − 1` days after the first of month `m mod 12` of year `year + floor(m / 12)` |
| `Calendar.AddMonths` | components/AddServiceModal.tsx:37-39 | `setMonth(getMonth() + n)` gives a valid date `day − 1` days after the start of the month `n` months on in the absolute month count |
| `Calendar.YearStep` | components/AddServiceModal.tsx:39 | ECMA-262's DayFromYear of the next year is 31 days after the start of December: years and months tile the day line |
| `Calendar.YearLength` | components/AddServiceModal.tsx:39 | consecutive years start `DaysInYear` days apart: 366 days after a leap year, 365 after any other |
| `Calendar.MonthStartAtMonotone` | components/AddServiceModal.tsx:39 | month starts grow by at least 28 days a month |
| `Calendar.AddMonthsNeverPrecedes` | components/AddServiceModal.tsx:37-39 | advancing by 0 or more months never moves a date backwards; by 1 or more it moves it forwards |
| `Calendar.AddMonthsZero` | components/AddServiceModal.tsx:37-39 | advancing by 0 months keeps the date |
| `Calendar.AddMonthsExamples` | components/AddServiceModal.tsx:39 | 2024-01-31 + 1 = 2024-03-02, 2023-01-31 + 1 = 2023-03-03, 2024-11-15 + 3 = 2025-02-15, 2024-01-15 − 1 = 2023-12-15, 2024-08-31 + 6 = 2025-03-03 |
| `Calendar.DateCell.constructor` | components/AddServiceModal.tsx:38 | `new Date(d)` holds `d` |
| `Calendar.DateCell.Month` | components/AddServiceModal.tsx:39 | `getMonth` is the month of the held date, an index in 0..11 |
| `Calendar.DateCell.Time` | components/AddServiceModal.tsx:44-49 | `getTime` (the instant `toISOString` writes) is midnight UTC of the held date: a whole number of days, and that number is the date's day number |
| `Calendar.DateCell.SetMonth` | components/AddServiceModal.tsx:39 | `setMonth` replaces the held date by `WithMonth` of it, in place |
| `JsNumber.NatToString` | components/AddCarModal.tsx:26 | the decimal text of `n` is non-empty, all digits, and its digits read back as `n` |
| `JsNumber.ParseNumber` | components/AddServiceModal.tsx:32-34 | `Number` reads blank text as 0; a text it reads as a number ends in a digit once trimmed, and a negative number starts with `-` |
| `JsNumber.IntToString` | components/AddServiceModal.tsx:22 | `toString` of an integer is non-empty and ends in a digit |
| `JsNumber.ParseNumberOfIntToString` | components/AddCarModal.tsx:26 | `Number` of what `toString` wrote is the number again |
| `JsNumber.NumberExamples` | components/AddServiceModal.tsx:32-34 | `Number` reads blank text as 0, strips surrounding white space, reads signed digits, and gives NaN for "-" and "12a" |
| `JsText.ToLowerIdempotent` | components/Onboarding.tsx:22 | lower-casing twice is lower-casing once |
| `JsText.ToLower` | components/Onboarding.tsx:22 | `toLowerCase` keeps the length, maps each capital to its small letter, leaves every other character, and leaves no capital behind |
| `JsText.Includes` | components/Onboarding.tsx:22 | `includes` holds for the empty query, only when the query is no longer than the text, and whenever the text starts with the query |
| `JsText.IncludesIff` | components/Onboarding.tsx:22 | `s.includes(q)` holds if and only if `q` occurs in `s` at some index |
| `JsText.IncludesEmpty` | components/Onboarding.tsx:22 | every string includes the empty string |
| `CarForm.CheckMileageOfIntToString` | components/AddCarModal.tsx:26 | the mileage the edit dialog prefills passes the submit check as that same mileage |
| `CarForm.CheckMileage` | components/Onboarding.tsx:29-32 | the mileage is rejected exactly when it is empty or `Number` reads it as NaN; otherwise it is `Number(mileage)` |
| `CarForm.CheckMileageExamples` | components/Onboarding.tsx:29 | only empty and non-numeric text is rejected: "-5" passes as −5 and a blank " " passes as 0 |
| `CarForm.FilterCategories` | components/Onboarding.tsx:19-25 | the suggestions are exactly the options whose lower-cased text includes the lower-cased query, in the options' order (the same filter is at components/AddCarModal.tsx lines 38-44) |
| `CarForm.MatchesQuery` | components/Onboarding.tsx:22 | an option matches exactly when its lower-cased text contains the lower-cased query at some index; the empty query matches every option |
| `CarForm.FilterCategoriesCount` | components/Onboarding.tsx:19-25 | a matching option is suggested as often as it occurs among the options, a non-matching one never |
| `CarForm.FilterEmptyQuery` | components/Onboarding.tsx:19-25 | an empty query suggests every option, in order |
| `CarForm.FilterCaseInsensitive` | components/AddCarModal.tsx:38-44 | the suggestions for a query and for its lower-cased form are the same |
| `CarForm.FilterSuvExample` | components/AddCarModal.tsx:38-44 | "SUV" and "suv" both suggest the SUV option, and "SUV" does not suggest the van option |
| `Onboarding.NewCar` | components/Onboarding.tsx:27-43 | the submit is rejected exactly when the mileage is empty or not a number; otherwise the vehicle has mileage `Number(mileage)`, the typed name (never empty; the default name when none was typed), the picked category, the fresh id and the current time |
| `Onboarding.NegativeMileageAccepted` | components/Onboarding.tsx:29 | a negative mileage is accepted and stored |
| `Onboarding.OnboardingForm.Suggestions` | components/Onboarding.tsx:19-25 | the listed suggestions are exactly the options matching the current query, in the options' order |
| `Onboarding.OnboardingForm.constructor` | components/Onboarding.tsx:13-17 | every field starts empty and no category is picked |
| `Onboarding.OnboardingForm.SetName` | components/Onboarding.tsx:61 | the name input sets the name and nothing else |
| `Onboarding.OnboardingForm.SetMileage` | components/Onboarding.tsx:111 | the mileage input sets the mileage text and nothing else |
| `Onboarding.OnboardingForm.TypeCategory` | components/Onboarding.tsx:74-77 | typing sets the query and clears the picked category |
| `Onboarding.OnboardingForm.PickCategory` | components/Onboarding.tsx:91-94 | picking a listed suggestion sets both the category and the query to it, keeping the category an option |
| `Onboarding.OnboardingForm.Submit` | components/Onboarding.tsx:27-43 | the vehicle handed on is `NewCar` of the fields; a rejection sets the mileage error, an acceptance leaves it; a saved category is an option |
| `AddCarModal.SavedCar` | components/AddCarModal.tsx:48-61 | rejected exactly when the mileage is empty or not a number; otherwise the id is the edited vehicle's (unless empty) or a fresh one, the name is the typed one, else the edited vehicle's, else the new-vehicle default, the mileage is `Number(mileage)` and the category the picked one |
| `AddCarModal.UnchangedEditRoundTrip` | components/AddCarModal.tsx:23-61 | saving an edit whose prefilled fields were left alone gives back the edited vehicle, with only its last-updated time renewed |
| `AddCarModal.PrefillQuery` | components/AddCarModal.tsx:28 | the query starts as the vehicle's category; it is empty exactly when the category is absent or empty |
| `AddCarModal.CarModalForm.Suggestions` | components/AddCarModal.tsx:38-44 | the listed suggestions are exactly the options matching the current query, in the options' order |
| `AddCarModal.CarModalForm.constructor` | components/AddCarModal.tsx:16-20 | every field starts empty and no category is picked |
| `AddCarModal.CarModalForm.Sync` | components/AddCarModal.tsx:23-36 | with a vehicle to edit, the name, mileage text, category and query are prefilled from it and the error is kept; without one, every field and the error are cleared |
| `AddCarModal.CarModalForm.SetName` | components/AddCarModal.tsx:104 | the name input sets the name and nothing else |
| `AddCarModal.CarModalForm.SetMileage` | components/AddCarModal.tsx:151 | the mileage input sets the mileage text and nothing else |
| `AddCarModal.CarModalForm.TypeCategory` | components/AddCarModal.tsx:116-119 | typing sets the query and clears the picked category |
| `AddCarModal.CarModalForm.PickCategory` | components/AddCarModal.tsx:131-134 | picking a listed suggestion sets both the category and the query to it |
| `AddCarModal.CarModalForm.Submit` | components/AddCarModal.tsx:48-71 | the vehicle saved is `SavedCar` of the fields; a rejection sets only the error; a saved new vehicle resets every field; a saved edit leaves every field; a saved category is an option or the edited vehicle's own |

## Left out

- Remote storage, sign-in, the application controller, notifications and the calendar link. These are remote calls or browser facilities. `services/storage.ts`, `App.tsx` and `index.tsx` are not part of this model. Only the newest-first order of the history is used, as a precondition.
- `toPersianDateFull`, `toLocaleString` and the progress ring are display only, and the Jalali conversion is a library call. The status carries the next-change time value instead of the formatted date.
- `lastRecord` (components/Dashboard.tsx line 38) is declared as the first history entry and never used.
- Time zones. `setMonth` and `getMonth` work in local time. The model treats local time as UTC, so every date is a UTC midnight and the time within the day is not modelled.
- Parsing the `YYYY-MM-DD` text of the date input. The field is a valid calendar date or empty (None).
- `ServiceModal.BuildRecord`: for a mileage or distance interval that `Number` reads as NaN, the source still builds a record: that field and `nextChangeMileage` are NaN, while `intervalMonths` and `nextChangeDate` stay numbers. The model has no NaN, so it reports `NotANumber` instead.
- `JsNumber.ParseNumber` reads only optionally signed decimal integers surrounded by ASCII white space. Fractions, exponents, hexadecimal, `Infinity` and non-ASCII white space are not modelled. A `type="number"` field can hold text such as "1.5" or "1e3", which the source reads as a number, and here that text is rejected. In the service form, a month count of "1.5" is truncated by `setMonth` and a record is saved; the model reports `InvalidTimeValue` (or `NotANumber` for a fractional mileage or distance). In the vehicle forms (components/Onboarding.tsx line 29, components/AddCarModal.tsx line 50) a fractional mileage is accepted and stored; the model rejects it (`None`).
- `Calendar.AddMonths`: the time values are unbounded integers. ECMAScript's TimeClip turns a date more than 8.64e15 ms from the epoch into NaN, and `toISOString` then throws a RangeError. The model has no such bound.
- `JsNumber.IntToString` always writes plain decimal digits. `toString` switches to exponent notation from 1e21 on, which `Number` still reads back; the prefilled mileage text differs there.
- `JsText.ToLower` lower-cases only ASCII letters. The option lists are Persian plus the Latin "SUV", so no other case mapping arises for them.
- `Dashboard.PercentUsed` uses exact `real` arithmetic, not IEEE doubles.
- The `isOpen` guard. A closed dialog renders nothing and takes no input. `CarModalForm.Sync` stands for each run of the effect, on opening, on closing and on a change of `editingCar` (its dependencies are `editingCar` and `isOpen`, components/AddCarModal.tsx line 36).
- `onClose` after saving a service record. It only closes the dialog.
