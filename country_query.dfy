/** `getAllCountries(filters)`: the SQL text and the bound parameters of the list
    query, built clause by clause, and the rows its WHERE part selects. The order
    the database returns the selected rows in is not modelled; the ORDER BY
    clause that asks for it is. */
module CountryQuery {
  import opened JsValues
  import opened Text
  import opened Validators
  import opened CountryTable

  const SelectAll := "SELECT * FROM countries WHERE 1=1"
  const RegionFilter := " AND region = ?"
  const CurrencyFilter := " AND currency_code = ?"
  const DefaultOrder := " ORDER BY name ASC"

  /** The six sort keys the `switch` recognises. */
  const SortKeys: seq<string> :=
    ["gdp_desc", "gdp_asc", "population_desc", "population_asc", "name_asc", "name_desc"]

  /** The `switch` on a truthy sort key: one clause per known key, nothing for any
      other key (there is no `default` branch). */
  function SortClause(key: string): (clause: string)
    ensures clause == "" <==> key !in SortKeys
    ensures key in SortKeys ==> " ORDER BY " <= clause
  {
    if key == "gdp_desc" then " ORDER BY estimated_gdp DESC"
    else if key == "gdp_asc" then " ORDER BY estimated_gdp ASC"
    else if key == "population_desc" then " ORDER BY population DESC"
    else if key == "population_asc" then " ORDER BY population ASC"
    else if key == "name_asc" then " ORDER BY name ASC"
    else if key == "name_desc" then " ORDER BY name DESC"
    else ""
  }

  /** What the sort filter appends: the default order when it is falsy, the
      key's own clause when it is a known key, and nothing otherwise. */
  function OrderClause(sort: Option<string>): string
  {
    if TruthyText(sort) then SortClause(sort.value) else DefaultOrder
  }

  /** No sort key falls back to the name order; a known key gets its own ORDER BY
      clause; an unknown key gets no ORDER BY at all. */
  lemma OrderClauseCases(sort: Option<string>)
    ensures !TruthyText(sort) ==> OrderClause(sort) == DefaultOrder
    ensures TruthyText(sort) && sort.value !in SortKeys ==> OrderClause(sort) == ""
    ensures TruthyText(sort) && sort.value in SortKeys ==> " ORDER BY " <= OrderClause(sort)
  {
  }

  /** Distinct known keys ask for distinct orders. */
  lemma SortClausesDistinct(k1: string, k2: string)
    requires k1 in SortKeys && k2 in SortKeys && k1 != k2
    ensures SortClause(k1) != SortClause(k2)
  {
  }

  /** The clause a filter adds when it is truthy. */
  function FilterPart(value: Option<string>, clause: string): string
  {
    if TruthyText(value) then clause else ""
  }

  /** The parameter a filter pushes when it is truthy. */
  function ParamPart(value: Option<string>, bound: Option<string>): seq<Option<string>>
  {
    if TruthyText(value) then [bound] else []
  }

  /** The SQL text `getAllCountries` sends. */
  function QueryText(filters: Filters): string
  {
    SelectAll + FilterPart(filters.region, RegionFilter) + FilterPart(filters.currency, CurrencyFilter)
    + OrderClause(filters.sort)
  }

  /** The parameters it binds: the region, then whatever is bound for the
      currency placeholder (`None` is SQL NULL, what an undefined value becomes). */
  function Params(filters: Filters, currencyParam: Option<string>): seq<Option<string>>
  {
    ParamPart(filters.region, filters.region) + ParamPart(filters.currency, currencyParam)
  }

  /** The number of `?` placeholders in an SQL text. */
  function Placeholders(sql: string): nat
  {
    Occurrences(sql, '?')
  }

  lemma NoPlaceholder(sql: string)
    requires '?' !in sql
    ensures Placeholders(sql) == 0
  {
    OccurrencesAbsent(sql, '?');
  }

  /** Placeholders of a text made of a base, two filter parts and an order clause. */
  lemma PlaceholdersOfFour(base: string, first: string, second: string, order: string,
                           firstParams: seq<Option<string>>, secondParams: seq<Option<string>>)
    requires Placeholders(base) == 0 && Placeholders(order) == 0
    requires Placeholders(first) == |firstParams| && Placeholders(second) == |secondParams|
    ensures Placeholders(base + first + second + order) == |firstParams + secondParams|
  {
    OccurrencesAppend(base, first, '?');
    OccurrencesAppend(base + first, second, '?');
    OccurrencesAppend(base + first + second, order, '?');
  }

  /** Text without a placeholder followed by one placeholder has exactly one. */
  lemma OnePlaceholder(text: string)
    requires '?' !in text
    ensures Placeholders(text + "?") == 1
  {
    OccurrencesAppend(text, "?", '?');
    OccurrencesAbsent(text, '?');
    assert "?"[1..] == [];
  }

  lemma RegionFilterPlaceholders()
    ensures Placeholders(RegionFilter) == 1
  {
    OnePlaceholder(" AND region = ");
    assert RegionFilter == " AND region = " + "?";
  }

  lemma CurrencyFilterPlaceholders()
    ensures Placeholders(CurrencyFilter) == 1
  {
    OnePlaceholder(" AND currency_code = ");
    assert CurrencyFilter == " AND currency_code = " + "?";
  }

  /** A filter clause with one placeholder pushes one parameter exactly when it is
      added. */
  lemma FilterPartMatches(value: Option<string>, clause: string, bound: Option<string>)
    requires Placeholders(clause) == 1
    ensures Placeholders(FilterPart(value, clause)) == |ParamPart(value, bound)|
  {
    if !TruthyText(value) {
      NoPlaceholder("");
    }
  }

  /** No ORDER BY clause has a placeholder. */
  lemma OrderClausePlaceholders(sort: Option<string>)
    ensures Placeholders(OrderClause(sort)) == 0
  {
    NoPlaceholder(OrderClause(sort));
  }

  /** Every placeholder in the text has exactly one bound parameter. */
  lemma PlaceholdersMatchParams(filters: Filters, currencyParam: Option<string>)
    ensures Placeholders(QueryText(filters)) == |Params(filters, currencyParam)|
  {
    NoPlaceholder(SelectAll);
    RegionFilterPlaceholders();
    CurrencyFilterPlaceholders();
    FilterPartMatches(filters.region, RegionFilter, filters.region);
    FilterPartMatches(filters.currency, CurrencyFilter, currencyParam);
    OrderClausePlaceholders(filters.sort);
    PlaceholdersOfFour(SelectAll, FilterPart(filters.region, RegionFilter),
                       FilterPart(filters.currency, CurrencyFilter), OrderClause(filters.sort),
                       ParamPart(filters.region, filters.region), ParamPart(filters.currency, currencyParam));
  }

  /** The builder as the source runs it: start from the base text, then append
      a clause and push a parameter for each truthy filter, then the order. */
  method BuildQuery(filters: Filters, currencyParam: Option<string>)
    returns (query: string, params: seq<Option<string>>)
    ensures query == QueryText(filters) && params == Params(filters, currencyParam)
    ensures Placeholders(query) == |params|
  {
    query := SelectAll;
    params := [];
    if TruthyText(filters.region) {
      query := query + RegionFilter;
      params := params + [filters.region];
    }
    assert query == SelectAll + FilterPart(filters.region, RegionFilter);
    assert params == ParamPart(filters.region, filters.region);
    if TruthyText(filters.currency) {
      query := query + CurrencyFilter;
      params := params + [currencyParam];
    }
    assert query == SelectAll + FilterPart(filters.region, RegionFilter) + FilterPart(filters.currency, CurrencyFilter);
    assert params == Params(filters, currencyParam);
    if TruthyText(filters.sort) {
      query := query + SortClause(filters.sort.value);
    } else {
      query := query + DefaultOrder;
    }
    PlaceholdersMatchParams(filters, currencyParam);
  }

  /** `getAllCountries` as written: the currency placeholder is bound to
      `filters.region`. */
  method GetAllCountriesQuery(filters: Filters) returns (query: string, params: seq<Option<string>>)
    ensures query == QueryText(filters) && params == Params(filters, filters.region)
    ensures Placeholders(query) == |params|
  {
    query, params := BuildQuery(filters, filters.region);
  }

  /** The builder with the currency placeholder bound to `filters.currency`. */
  method GetAllCountriesQueryIntended(filters: Filters) returns (query: string, params: seq<Option<string>>)
    ensures query == QueryText(filters) && params == Params(filters, filters.currency)
    ensures Placeholders(query) == |params|
  {
    query, params := BuildQuery(filters, filters.currency);
  }

  /** `column = ?` under the table's case-insensitive collation; NULL on either
      side is never equal. */
  predicate SqlEquals(column: Option<string>, param: Option<string>)
  {
    column.Some? && param.Some? && Lower(column.value) == Lower(param.value)
  }

  /** The WHERE part of the built query for the parameters it binds. */
  predicate Matches(row: Row, filters: Filters, currencyParam: Option<string>)
  {
    && (TruthyText(filters.region) ==> SqlEquals(row.region, filters.region))
    && (TruthyText(filters.currency) ==> SqlEquals(row.currencyCode, currencyParam))
  }

  /** The rows the query selects, in storage order. */
  function Select(rows: seq<Row>, filters: Filters, currencyParam: Option<string>): (r: seq<Row>)
    ensures |r| <= |rows|
    ensures multiset(r) <= multiset(rows)
    ensures forall x :: x in r <==> x in rows && Matches(x, filters, currencyParam)
  {
    if rows == [] then []
    else
      var rest := Select(rows[1..], filters, currencyParam);
      assert forall x :: x in rows <==> x == rows[0] || x in rows[1..];
      assert rows == [rows[0]] + rows[1..];
      if Matches(rows[0], filters, currencyParam) then [rows[0]] + rest else rest
  }

  /** The rows `getAllCountries` returns, as written. */
  function GetAllCountries(rows: seq<Row>, filters: Filters): seq<Row>
  {
    Select(rows, filters, filters.region)
  }

  /** The rows it returns with the currency bound as intended. */
  function GetAllCountriesIntended(rows: seq<Row>, filters: Filters): seq<Row>
  {
    Select(rows, filters, filters.currency)
  }

  /** With the intended binding, every filter the caller gives holds of every
      returned row, and every stored row satisfying them is returned. */
  lemma IntendedHonoursFilters(rows: seq<Row>, filters: Filters, x: Row)
    ensures x in GetAllCountriesIntended(rows, filters) <==>
              x in rows
              && (TruthyText(filters.region) ==> SqlEquals(x.region, filters.region))
              && (TruthyText(filters.currency) ==> SqlEquals(x.currencyCode, filters.currency))
  {
  }

  /** Without a currency filter the binding does not matter: both versions return
      the same rows. */
  lemma AsWrittenAgreesWithoutCurrency(rows: seq<Row>, filters: Filters)
    requires !TruthyText(filters.currency)
    ensures GetAllCountries(rows, filters) == GetAllCountriesIntended(rows, filters)
  {
    SelectIgnoresUnusedParam(rows, filters, filters.region, filters.currency);
  }

  lemma {:induction false} SelectIgnoresUnusedParam(rows: seq<Row>, filters: Filters, p1: Option<string>, p2: Option<string>)
    requires !TruthyText(filters.currency)
    ensures Select(rows, filters, p1) == Select(rows, filters, p2)
  {
    if rows != [] {
      SelectIgnoresUnusedParam(rows[1..], filters, p1, p2);
    }
  }

  /** As written, a currency filter alone binds NULL and returns no row at all,
      whatever the table holds. */
  lemma {:induction false} CurrencyAloneSelectsNothing(rows: seq<Row>, currency: string)
    requires currency != ""
    ensures GetAllCountries(rows, Filters(None, Some(currency), None)) == []
  {
    if rows != [] {
      CurrencyAloneSelectsNothing(rows[1..], currency);
    }
  }

  /** A table with one USD country: the currency filter "USD" finds it when bound
      as intended, and finds nothing as written. */
  lemma CurrencyFilterFinding(row: Row)
    requires row.currencyCode == Some("USD")
    ensures GetAllCountriesIntended([row], Filters(None, Some("USD"), None)) == [row]
    ensures GetAllCountries([row], Filters(None, Some("USD"), None)) == []
  {
    CurrencyAloneSelectsNothing([row], "USD");
    assert Matches(row, Filters(None, Some("USD"), None), Some("USD"));
  }

  /** As written, asking for "gdp_desc" yields the default name order, because the
      sanitiser drops the key; with both halves as intended it yields the GDP order. */
  lemma GdpDescRequestOrder()
    ensures var f := SanitizeQueryParams(QueryInput(Undefined, Undefined, Str("gdp_desc")));
            f.Returned? && QueryText(f.value) == SelectAll + DefaultOrder
    ensures var f := SanitizeQueryParamsIntended(QueryInput(Undefined, Undefined, Str("gdp_desc")));
            f.Returned? && QueryText(f.value) == SelectAll + " ORDER BY estimated_gdp DESC"
  {
    GdpDescDropped();
    IntendedKeepsEverySortKey("gdp_desc");
  }
}
