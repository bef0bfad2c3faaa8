/** Request checks: `validateCountryData` for a country body and
    `sanitizeQueryParams` for the list endpoint's query string. */
module Validators {
  import opened JsValues
  import opened Text

  /** The result of a function that may throw a `TypeError` (calling `trim` on a
      value that is not a string). */
  datatype Outcome<+T> = Returned(value: T) | Threw(typeError: string)

  /** The three fields of a request body the validator reads. */
  datatype CountryInput = CountryInput(name: JsValue, population: JsValue, currencyCode: JsValue)

  /** `{ isValid, errors }`, with `errors` an object from field name to message. */
  datatype Validation = Validation(isValid: bool, errors: map<string, string>)

  /** The query-string fields the sanitiser reads. */
  datatype QueryInput = QueryInput(region: JsValue, currency: JsValue, sort: JsValue)

  /** The sanitised filter object; a key the source leaves unset is `None`, and the
      record type has no room for any other key. */
  datatype Filters = Filters(region: Option<string>, currency: Option<string>, sort: Option<string>)

  const Required := "is required"
  const NotPositive := "must be a positive number"

  /** `!v || v.trim() === ""` for a field named `field`: `Returned(true)` when the
      field is missing or blank; a truthy non-string has no `trim` and throws. */
  function MissingOrBlank(v: JsValue, field: string): (r: Outcome<bool>)
    ensures r.Threw? <==> Truthy(v) && !v.Str?
    ensures r == Returned(true) <==> !Truthy(v) || (v.Str? && Blank(v.s))
  {
    if !Truthy(v) then Returned(true)
    else if v.Str? then (TrimEmptyIffBlank(v.s); Returned(Trim(v.s) == ""))
    else Threw("data." + field + ".trim is not a function")
  }

  /** The population rule: absent is "is required"; anything but a non-negative
      number is "must be a positive number"; zero passes. */
  function PopulationError(v: JsValue): (r: Option<string>)
    ensures r == None <==> v.Num? && v.n >= 0.0
    ensures (v.Undefined? || v.Null?) ==> r == Some(Required)
    ensures !(v.Undefined? || v.Null?) && !(v.Num? && v.n >= 0.0) ==> r == Some(NotPositive)
  {
    if v.Undefined? || v.Null? then Some(Required)
    else if !v.Num? || v.n < 0.0 then Some(NotPositive)
    else None
  }

  /** The `errors` object, filled field by field in the source's order. */
  function ErrorMap(nameMissing: bool, population: Option<string>, codeMissing: bool): (errors: map<string, string>)
    ensures errors.Keys <= {"name", "population", "currency_code"}
    ensures "name" in errors <==> nameMissing
    ensures "name" in errors ==> errors["name"] == Required
    ensures "population" in errors <==> population.Some?
    ensures "population" in errors ==> errors["population"] == population.value
    ensures "currency_code" in errors <==> codeMissing
    ensures "currency_code" in errors ==> errors["currency_code"] == Required
  {
    var withName: map<string, string> := if nameMissing then map["name" := Required] else map[];
    var withPopulation := if population.Some? then withName["population" := population.value] else withName;
    if codeMissing then withPopulation["currency_code" := Required] else withPopulation
  }

  /** `validateCountryData(data)`. */
  function ValidateCountryData(data: CountryInput): (r: Outcome<Validation>)
    ensures r.Threw? <==> (Truthy(data.name) && !data.name.Str?)
                          || (Truthy(data.currencyCode) && !data.currencyCode.Str?)
    ensures r.Returned? ==> (r.value.isValid <==> r.value.errors == map[])
    ensures r.Returned? ==> r.value.errors.Keys <= {"name", "population", "currency_code"}
    ensures r.Returned? ==>
              ("name" in r.value.errors <==> !Truthy(data.name) || (data.name.Str? && Blank(data.name.s)))
              && ("name" in r.value.errors ==> r.value.errors["name"] == Required)
    ensures r.Returned? ==>
              ("population" in r.value.errors <==> !(data.population.Num? && data.population.n >= 0.0))
              && ("population" in r.value.errors ==> r.value.errors["population"] == PopulationError(data.population).value)
    ensures r.Returned? ==>
              ("currency_code" in r.value.errors <==>
                 !Truthy(data.currencyCode) || (data.currencyCode.Str? && Blank(data.currencyCode.s)))
              && ("currency_code" in r.value.errors ==> r.value.errors["currency_code"] == Required)
  {
    match MissingOrBlank(data.name, "name")
    case Threw(e) => Threw(e)
    case Returned(nameMissing) =>
      var population := PopulationError(data.population);
      match MissingOrBlank(data.currencyCode, "currency_code")
      case Threw(e) => Threw(e)
      case Returned(codeMissing) =>
        var errors := ErrorMap(nameMissing, population, codeMissing);
        Returned(Validation(|errors| == 0, errors))
  }

  /** A body with a non-blank name, a non-negative population (zero included) and
      a non-blank currency code is valid. */
  lemma WellFormedBodyIsValid(name: string, population: real, code: string)
    requires !Blank(name) && !Blank(code) && population >= 0.0
    ensures ValidateCountryData(CountryInput(Str(name), Num(population), Str(code)))
            == Returned(Validation(true, map[]))
  {
    var r := ValidateCountryData(CountryInput(Str(name), Num(population), Str(code)));
    assert name != "" && code != "";
    assert r.Returned? && r.value.errors.Keys == {};
  }

  /** The sort keys the sanitiser lets through, exactly as the source spells them. */
  const ValidSorts: seq<string> :=
    ["gdb_desc", "gdp_asc", "population_desc", "population_asc", "name_asc", "name_desc"]

  /** The whitelist as evidently intended, with "gdp_desc". */
  const IntendedSorts: seq<string> :=
    ["gdp_desc", "gdp_asc", "population_desc", "population_asc", "name_asc", "name_desc"]

  /** `sanitizeQueryParams` against a given sort whitelist. */
  function SanitizeWith(query: QueryInput, whitelist: seq<string>): (r: Outcome<Filters>)
    ensures r.Threw? <==> (Truthy(query.region) && !query.region.Str?)
                          || (Truthy(query.currency) && !query.currency.Str?)
    ensures r.Returned? ==>
              (r.value.region.Some? <==> Truthy(query.region))
              && (r.value.region.Some? ==> r.value.region.value == Trim(query.region.s))
    ensures r.Returned? ==>
              (r.value.currency.Some? <==> Truthy(query.currency))
              && (r.value.currency.Some? ==> r.value.currency.value == Upper(Trim(query.currency.s)))
    ensures r.Returned? ==>
              (r.value.sort.Some? <==> query.sort.Str? && query.sort.s in whitelist && query.sort.s != "")
              && (r.value.sort.Some? ==> r.value.sort.value == query.sort.s)
  {
    if Truthy(query.region) && !query.region.Str? then
      Threw("query.region.trim is not a function")
    else if Truthy(query.currency) && !query.currency.Str? then
      Threw("query.currency.trim is not a function")
    else
      var region := if Truthy(query.region) then Some(Trim(query.region.s)) else None;
      var currency := if Truthy(query.currency) then Some(Upper(Trim(query.currency.s))) else None;
      var sort := if Truthy(query.sort) && query.sort.Str? && query.sort.s in whitelist
                  then Some(query.sort.s) else None;
      Returned(Filters(region, currency, sort))
  }

  /** `sanitizeQueryParams(query)` as written. */
  function SanitizeQueryParams(query: QueryInput): (r: Outcome<Filters>)
    ensures r.Returned? ==> (r.value.sort.Some? <==> query.sort.Str? && query.sort.s in ValidSorts)
    ensures r.Returned? ==> r.value.sort != Some("gdp_desc")
  {
    SanitizeWith(query, ValidSorts)
  }

  /** `sanitizeQueryParams` with the whitelist it evidently meant to have. */
  function SanitizeQueryParamsIntended(query: QueryInput): (r: Outcome<Filters>)
    ensures r.Returned? ==> (r.value.sort.Some? <==> query.sort.Str? && query.sort.s in IntendedSorts)
  {
    SanitizeWith(query, IntendedSorts)
  }

  /** As written, a request for "gdp_desc" loses its sort key, while the
      misspelt "gdb_desc" is let through. */
  lemma GdpDescDropped()
    ensures SanitizeQueryParams(QueryInput(Undefined, Undefined, Str("gdp_desc")))
            == Returned(Filters(None, None, None))
    ensures SanitizeQueryParams(QueryInput(Undefined, Undefined, Str("gdb_desc")))
            == Returned(Filters(None, None, Some("gdb_desc")))
  {
    assert "gdp_desc" != ValidSorts[0];
  }

  /** With the intended whitelist every one of the six sort keys the list query
      understands survives sanitising unchanged. */
  lemma IntendedKeepsEverySortKey(key: string)
    requires key in IntendedSorts
    ensures SanitizeQueryParamsIntended(QueryInput(Undefined, Undefined, Str(key)))
            == Returned(Filters(None, None, Some(key)))
  {
  }
}
