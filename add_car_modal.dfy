/** The add-or-edit vehicle dialog. */
module AddCarModal {
  import opened Wrappers
  import opened Domain
  import opened JsNumber
  import opened CarForm

  const DefaultNewCarName: string := "خودروی جدید من"

  /**
   * The vehicle `handleSubmit` hands to `onSave`, or None when the mileage
   * is rejected. An edit keeps the edited vehicle's id unless that id is
   * empty (`editingCar?.id || crypto.randomUUID()`).
   */
  function SavedCar(editing: Option<Car>, freshId: string, name: string, mileage: string,
                    category: Option<string>, now: int): (r: Option<Car>)
    ensures r.None? <==> mileage == "" || ParseNumber(mileage).None?
    ensures r.Some? ==> r.value.id == (if editing.Some? && editing.value.id != "" then editing.value.id else freshId)
    ensures r.Some? ==>
      r.value.name == (if name != "" then name else if editing.Some? then editing.value.name else DefaultNewCarName)
    ensures r.Some? ==> Some(r.value.currentMileage) == ParseNumber(mileage)
    ensures r.Some? ==> r.value.category == category && r.value.lastUpdated == now
  {
    match CheckMileage(mileage)
    case None => None
    case Some(km) =>
      var id := if editing.Some? && editing.value.id != "" then editing.value.id else freshId;
      var carName := if name != "" then name else if editing.Some? then editing.value.name else DefaultNewCarName;
      Some(Car(id, carName, category, km, now))
  }

  /** The category query an edit starts from (`editingCar.category || ''`). */
  function PrefillQuery(category: Option<string>): (q: string)
    ensures category.Some? ==> q == category.value
    ensures q == "" <==> category.None? || category == Some("")
  {
    if category.Some? then category.value else ""
  }

  /**
   * Saving an edit without touching the prefilled fields gives back the
   * edited vehicle, with only its last-updated time renewed.
   */
  lemma {:induction false} UnchangedEditRoundTrip(c: Car, freshId: string, now: int)
    requires c.id != ""
    ensures SavedCar(Some(c), freshId, c.name, IntToString(c.currentMileage), c.category, now)
            == Some(c.(lastUpdated := now))
  {
    CheckMileageOfIntToString(c.currentMileage);
  }

  class CarModalForm {
    var name: string
    var mileage: string
    var error: string
    var categoryQuery: string
    var selectedCategory: Option<string>
    /** The `editingCar` property the dialog was last opened with. */
    var editingCar: Option<Car>

    /**
     * The category is absent, or spelled out by the query and either picked
     * from the options or carried over from the vehicle being edited.
     */
    ghost predicate Valid()
      reads this
    {
      selectedCategory.Some? ==>
        && categoryQuery == selectedCategory.value
        && (selectedCategory.value in CarCategoryOptions
            || (editingCar.Some? && editingCar.value.category == selectedCategory))
    }

    /** The suggestions listed under the category input. */
    function Suggestions(): (r: seq<string>)
      reads this
      ensures forall x :: x in r <==> x in CarCategoryOptions && MatchesQuery(x, categoryQuery)
      ensures IsSubsequence(r, CarCategoryOptions)
    {
      FilterCategories(CarCategoryOptions, categoryQuery)
    }

    constructor ()
      ensures Valid()
      ensures name == "" && mileage == "" && error == "" && categoryQuery == "" && selectedCategory == None
      ensures editingCar == None
    {
      name, mileage, error, categoryQuery, selectedCategory := "", "", "", "", None;
      editingCar := None;
    }

    /**
     * The effect that runs when the dialog opens or `editingCar` changes:
     * an edit prefills the fields from the vehicle and keeps the error,
     * otherwise every field and the error are cleared.
     */
    method Sync(editing: Option<Car>)
      modifies this
      ensures Valid()
      ensures editingCar == editing
      ensures editing.Some? ==>
        && name == editing.value.name
        && mileage == IntToString(editing.value.currentMileage)
        && selectedCategory == editing.value.category
        && categoryQuery == PrefillQuery(editing.value.category)
        && error == old(error)
      ensures editing.None? ==>
        name == "" && mileage == "" && error == "" && categoryQuery == "" && selectedCategory == None
    {
      editingCar := editing;
      if editing.Some? {
        var c := editing.value;
        name := c.name;
        mileage := IntToString(c.currentMileage);
        selectedCategory := c.category;
        categoryQuery := PrefillQuery(c.category);
      } else {
        name, mileage, error, categoryQuery, selectedCategory := "", "", "", "", None;
      }
    }

    method SetName(v: string)
      modifies this`name
      ensures name == v
    {
      name := v;
    }

    method SetMileage(v: string)
      modifies this`mileage
      ensures mileage == v
    {
      mileage := v;
    }

    /** Typing in the category input replaces the query and drops the picked category. */
    method TypeCategory(q: string)
      modifies this`categoryQuery, this`selectedCategory
      ensures Valid()
      ensures categoryQuery == q && selectedCategory == None
    {
      categoryQuery := q;
      selectedCategory := None;
    }

    /** Clicking a suggestion, which the list offers only for a non-empty query. */
    method PickCategory(option: string)
      requires categoryQuery != "" && option in Suggestions()
      modifies this`categoryQuery, this`selectedCategory
      ensures Valid()
      ensures selectedCategory == Some(option) && categoryQuery == option
    {
      selectedCategory := Some(option);
      categoryQuery := option;
    }

    /**
     * `handleSubmit`: a rejected mileage sets the error and saves nothing;
     * a saved new vehicle resets every field; a saved edit leaves them.
     */
    method Submit(freshId: string, now: int) returns (saved: Option<Car>)
      requires Valid()
      modifies this
      ensures Valid()
      ensures saved == SavedCar(editingCar, freshId, old(name), old(mileage), old(selectedCategory), now)
      ensures editingCar == old(editingCar)
      ensures saved.None? ==>
        && error == MileageErrorText
        && name == old(name) && mileage == old(mileage)
        && categoryQuery == old(categoryQuery) && selectedCategory == old(selectedCategory)
      ensures saved.Some? && editingCar.None? ==>
        name == "" && mileage == "" && error == "" && categoryQuery == "" && selectedCategory == None
      ensures saved.Some? && editingCar.Some? ==>
        && name == old(name) && mileage == old(mileage) && error == old(error)
        && categoryQuery == old(categoryQuery) && selectedCategory == old(selectedCategory)
      ensures saved.Some? && saved.value.category.Some? ==>
        saved.value.category.value in CarCategoryOptions
        || (editingCar.Some? && saved.value.category == editingCar.value.category)
    {
      saved := SavedCar(editingCar, freshId, name, mileage, selectedCategory, now);
      if saved.None? {
        error := MileageErrorText;
      } else if editingCar.None? {
        name, mileage, error, categoryQuery, selectedCategory := "", "", "", "", None;
      }
    }
  }
}
