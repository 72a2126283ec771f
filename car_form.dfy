/**
 * The logic the two vehicle forms (onboarding and add/edit vehicle) share:
 * the mileage check on submit, the suggestion filter of the category
 * combo box, and the rule that a category is only ever a picked option.
 */
module CarForm {
  import opened Wrappers
  import opened Domain
  import opened JsNumber
  import opened JsText

  const MileageErrorText: string := "لطفاً کیلومتر فعلی خودرو را به درستی وارد کنید"

  /**
   * `!mileage || isNaN(Number(mileage))` rejects the text (None);
   * otherwise the mileage is `Number(mileage)`.
   */
  function CheckMileage(mileage: string): (r: Option<int>)
    ensures r.None? <==> mileage == "" || ParseNumber(mileage).None?
    ensures r.Some? ==> ParseNumber(mileage) == r
  {
    if mileage == "" then None else ParseNumber(mileage)
  }

  /** What `toString` wrote into the mileage field is accepted as that same mileage. */
  lemma {:induction false} CheckMileageOfIntToString(n: int)
    ensures CheckMileage(IntToString(n)) == Some(n)
  {
    ParseNumberOfIntToString(n);
  }

  /**
   * Only an empty field and text that is not a number are rejected: a
   * negative mileage passes, and so does a blank one, as 0.
   */
  lemma CheckMileageExamples()
    ensures CheckMileage("") == None
    ensures CheckMileage("12a") == None
    ensures CheckMileage("-5") == Some(-5)
    ensures CheckMileage(" ") == Some(0)
  {
    NumberExamples();
    assert Trim(" ") == "";
  }

  /** `option.toLowerCase().includes(query.toLowerCase())` */
  predicate MatchesQuery(option: string, query: string): (b: bool)
    ensures b <==> exists i :: OccursAt(ToLower(option), ToLower(query), i)
    ensures query == "" ==> b
  {
    IncludesIff(ToLower(option), ToLower(query));
    Includes(ToLower(option), ToLower(query))
  }

  /** `a` is `b` with some elements left out, the rest in their order. */
  ghost predicate IsSubsequence(a: seq<string>, b: seq<string>)
    decreases |b|
  {
    if a == [] then true
    else if b == [] then false
    else (a[0] == b[0] && IsSubsequence(a[1..], b[1..])) || IsSubsequence(a, b[1..])
  }

  /**
   * The suggestions for `query` (`options.filter(...)`): exactly the
   * options that match it, in the order of `options`.
   */
  function FilterCategories(options: seq<string>, query: string): (r: seq<string>)
    ensures forall x :: x in r <==> x in options && MatchesQuery(x, query)
    ensures IsSubsequence(r, options)
    decreases |options|
  {
    if options == [] then []
    else
      var rest := FilterCategories(options[1..], query);
      if MatchesQuery(options[0], query) then
        var r := [options[0]] + rest;
        assert r[1..] == rest;
        r
      else
        assert rest != [] ==> IsSubsequence(rest, options[1..]);
        rest
  }

  /**
   * A matching option is suggested as often as it occurs among the options,
   * a non-matching one never.
   */
  lemma {:induction false} FilterCategoriesCount(options: seq<string>, query: string)
    ensures forall x :: multiset(FilterCategories(options, query))[x]
                        == if MatchesQuery(x, query) then multiset(options)[x] else 0
    decreases |options|
  {
    if options != [] {
      FilterCategoriesCount(options[1..], query);
      assert options == [options[0]] + options[1..];
      var rest := FilterCategories(options[1..], query);
      if MatchesQuery(options[0], query) {
        assert FilterCategories(options, query) == [options[0]] + rest;
      }
    }
  }

  /** An empty query suggests every option. */
  lemma {:induction false} FilterEmptyQuery(options: seq<string>)
    ensures FilterCategories(options, "") == options
    decreases |options|
  {
    if options != [] {
      IncludesEmpty(ToLower(options[0]));
      assert ToLower("") == "";
      FilterEmptyQuery(options[1..]);
    }
  }

  /** The query's case does not matter. */
  lemma {:induction false} FilterCaseInsensitive(options: seq<string>, query: string)
    ensures FilterCategories(options, query) == FilterCategories(options, ToLower(query))
    decreases |options|
  {
    ToLowerIdempotent(query);
    if options != [] {
      FilterCaseInsensitive(options[1..], query);
    }
  }

  /** Text without ASCII capitals is already lower case. */
  lemma ToLowerNoCapitals(s: string)
    requires forall i :: 0 <= i < |s| ==> !('A' <= s[i] <= 'Z')
    ensures ToLower(s) == s
  {
  }

  /** Text that lacks the first character of `q` does not include `q`. */
  lemma NotIncludes(s: string, q: string)
    requires q != [] && q[0] !in s
    ensures !Includes(s, q)
  {
    IncludesIff(s, q);
  }

  /** No ASCII capital and no letter s. */
  predicate PlainOfS(s: string)
    decreases |s|
  {
    s == [] || (s[0] != 's' && !('A' <= s[0] <= 'Z') && PlainOfS(s[1..]))
  }

  lemma {:induction false} PlainOfSAt(s: string, i: int)
    requires PlainOfS(s) && 0 <= i < |s|
    ensures s[i] != 's' && !('A' <= s[i] <= 'Z')
    decreases |s|
  {
    if i > 0 {
      PlainOfSAt(s[1..], i - 1);
    }
  }

  /** An option without the letter s, in either case, does not match "SUV". */
  lemma NoSuv(option: string)
    requires PlainOfS(option)
    ensures !MatchesQuery(option, "SUV")
  {
    forall i | 0 <= i < |option|
      ensures option[i] != 's' && !('A' <= option[i] <= 'Z')
    {
      PlainOfSAt(option, i);
    }
    ToLowerNoCapitals(option);
    assert ToLower("SUV") == "suv";
    NotIncludes(option, "suv");
  }

  /** "SUV" and "suv" both suggest the SUV option; a type without those letters is not suggested. */
  lemma FilterSuvExample()
    ensures CarCategoryOptions[2] in FilterCategories(CarCategoryOptions, "SUV")
    ensures CarCategoryOptions[2] in FilterCategories(CarCategoryOptions, "suv")
    ensures CarCategoryOptions[4] !in FilterCategories(CarCategoryOptions, "SUV")
  {
    var o := CarCategoryOptions;
    assert ToLower("SUV") == "suv" && ToLower("suv") == "suv";
    assert OccursAt(ToLower(o[2]), "suv", 11);
    IncludesIff(ToLower(o[2]), "suv");
    NoSuv(o[4]);
  }

  /** The picked category is absent, or an option that the query spells out. */
  predicate CategoryPicked(selected: Option<string>, query: string) {
    selected.Some? ==> selected.value in CarCategoryOptions && query == selected.value
  }
}
