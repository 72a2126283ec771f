/** The first-vehicle form shown before any vehicle exists. */
module Onboarding {
  import opened Wrappers
  import opened Domain
  import opened JsNumber
  import opened CarForm

  const DefaultCarName: string := "خودروی من"

  /** The vehicle `handleSubmit` hands to `onComplete`, or None when the mileage is rejected. */
  function NewCar(id: string, name: string, mileage: string, category: Option<string>, now: int): (r: Option<Car>)
    ensures r.None? <==> mileage == "" || ParseNumber(mileage).None?
    ensures r.Some? ==> Some(r.value.currentMileage) == ParseNumber(mileage)
    ensures r.Some? ==> r.value.name == (if name == "" then DefaultCarName else name) && r.value.name != ""
    ensures r.Some? ==> r.value.id == id && r.value.category == category && r.value.lastUpdated == now
  {
    match CheckMileage(mileage)
    case None => None
    case Some(km) => Some(Car(id, if name == "" then DefaultCarName else name, category, km, now))
  }

  /** A negative mileage passes the check. */
  lemma NegativeMileageAccepted(id: string, name: string, category: Option<string>, now: int, km: int)
    requires km < 0
    ensures var r := NewCar(id, name, IntToString(km), category, now);
      r.Some? && r.value.currentMileage == km
  {
    CheckMileageOfIntToString(km);
  }

  class OnboardingForm {
    var name: string
    var mileage: string
    var error: string
    var categoryQuery: string
    var selectedCategory: Option<string>

    /** The category is absent or an option picked from the suggestions. */
    ghost predicate Valid()
      reads this
    {
      CategoryPicked(selectedCategory, categoryQuery)
    }

    /** The suggestions listed under the category input. */
    function Suggestions(): (r: seq<string>)
      reads this
      ensures forall x :: x in r <==> x in CarCategoryOptions && MatchesQuery(x, categoryQuery)
      ensures IsSubsequence(r, CarCategoryOptions)
    {
      FilterCategories(CarCategoryOptions, categoryQuery)
    }

    constructor ()
      ensures Valid()
      ensures name == "" && mileage == "" && error == "" && categoryQuery == "" && selectedCategory == None
    {
      name, mileage, error, categoryQuery, selectedCategory := "", "", "", "", None;
    }

    method SetName(v: string)
      modifies this`name
      ensures name == v
    {
      name := v;
    }

    method SetMileage(v: string)
      modifies this`mileage
      ensures mileage == v
    {
      mileage := v;
    }

    /** Typing in the category input replaces the query and drops the picked category. */
    method TypeCategory(q: string)
      modifies this`categoryQuery, this`selectedCategory
      ensures Valid()
      ensures categoryQuery == q && selectedCategory == None
    {
      categoryQuery := q;
      selectedCategory := None;
    }

    /** Clicking a suggestion, which the list offers only for a non-empty query. */
    method PickCategory(option: string)
      requires categoryQuery != "" && option in Suggestions()
      modifies this`categoryQuery, this`selectedCategory
      ensures Valid()
      ensures selectedCategory == Some(option) && categoryQuery == option
    {
      selectedCategory := Some(option);
      categoryQuery := option;
    }

    /**
     * `handleSubmit`: a rejected mileage sets the error and completes
     * nothing; otherwise the new vehicle is handed on once. No field is reset.
     */
    method Submit(freshId: string, now: int) returns (completed: Option<Car>)
      requires Valid()
      modifies this`error
      ensures Valid()
      ensures completed == NewCar(freshId, name, mileage, selectedCategory, now)
      ensures error == if completed.None? then MileageErrorText else old(error)
      ensures completed.Some? && completed.value.category.Some? ==> completed.value.category.value in CarCategoryOptions
    {
      completed := NewCar(freshId, name, mileage, selectedCategory, now);
      if completed.None? {
        error := MileageErrorText;
      }
    }
  }
}
