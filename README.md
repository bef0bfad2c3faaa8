# Country data service — a Dafny model

This project models the service layer of a small REST API that caches country
data in MySQL. A refresh fetches a countries feed and an exchange-rate table.
Each country becomes one record, with an estimated GDP of
`population * m / rate` for a random multiplier `m` in [1000, 2000). The record
is upserted by case-insensitive name inside one transaction, together with a
`last_refreshed_at` metadata value, and then a summary image is drawn. Around
the refresh sit:

- the read operations: list with filters and sorting, get by name, status, top N by GDP;
- delete by name;
- the validation and sanitising of requests;
- the error handler that turns a thrown error into an HTTP status and a JSON body;
- the text content of the summary image.

Modules, one per concern:

- `JsValues` (js_values.dfy): `Option`, loose JavaScript values and truthiness, and `x || null`.
- `Text` (text.dfy): JavaScript `trim`, ASCII case mapping, decimal printing, and character counting.
- `ErrorHandling` (error_handling.dfy): `AppError` and the `errorHandler` decision.
- `Validators` (validators.dfy): `validateCountryData` and `sanitizeQueryParams`.
- `ImageService` (image_service.dfy): `formatGDP`, the list lines, the "Last Updated" line and the image path.
- `CountryRecord` (country_record.dfy): `processCountryData`.
- `CountryTable` (country_table.dfy): the `countries` table as a value, with the upsert, delete and top-N
  specifications and the lemmas about them.
- `CountryQuery` (country_query.dfy): the `getAllCountries` query builder and the rows its WHERE part selects.
- `CountryService` (country_service.dfy): class `CountryStore`. Its fields are the table rows, the
  auto-increment counter, the metadata value and the summary image. Its methods are the refresh
  transaction, upsert, delete and the reads.

Inputs the service gets from outside are parameters:

- the two fetch results, each of which may have failed;
- the random multiplier of each feed entry;
- the database clock `NOW()`;
- the ISO timestamp `new Date().toISOString()`;
- which database statement of the transaction fails, if any;
- whether the top-N read or the image write after the commit fails;
- `toFixed(2)` and the locale date formatter.

A transaction is a snapshot of the rows and the metadata value, restored on
rollback. The auto-increment counter is not restored: InnoDB does not give back
ids that a rolled-back insert drew, so `Refresh` states the counter after a
failure separately. A database starts as `migrate.js` creates it: no rows and a
NULL metadata value. Names are unique up to case, from the `UNIQUE` key under the
case-insensitive collation. `CountryStore.Valid()` holds that invariant together
with "every id is below the counter", and every method that changes the table
preserves it.

Three behaviours of the code that a reader might not expect, and that the model keeps:

- `total_countries` in the refresh result is the length of the feed, not the
  number of rows in the table. Two feed entries whose names differ only in case
  give one row (`CountryTable.FeedLengthIsNotRowCount`).
- An unrecognised sort key does not fall back to the default order: the `switch`
  has no `default` branch, so no ORDER BY is appended (`CountryQuery.OrderClauseCases`).
- The random multiplier does not make every GDP ranking uncertain. At the same
  positive rate, a country with a positive population and at least twice the
  population of another always has the larger GDP (`CountryRecord.DoublePopulationOutranks`).

## Model

| member | source | states |
|---|---|---|
| JsValues.OrNull | src/services/countryService.js:77-80 | `x \|\| null` on a text field: NULL exactly when the value is absent or empty, otherwise the value itself |
| Text.Trim | src/utils/validators.js:28 | `s.trim()`: no contract of its own; its meaning is stated by `Text.TrimIsInnerSlice`, `Text.TrimEmptyIffBlank` and `Text.TrimIdempotent` |
| Text.TrimIsInnerSlice | src/utils/validators.js:28 | `trim` returns a contiguous slice of its input that neither starts nor ends with whitespace, and everything cut off is whitespace |
| Text.TrimEmptyIffBlank | src/utils/validators.js:4 | a string trims to "" exactly when it is all whitespace |
| Text.TrimIdempotent | src/utils/validators.js:28 | trimming twice is trimming once |
| Text.UpperIsCanonical | src/utils/validators.js:32 | the upper-cased currency code holds no lower-case ASCII letter and upper-casing it again changes nothing |
| Text.Lower | src/services/countryService.js:127 | SQL `LOWER` on ASCII letters: same length, each character lower-cased and nothing else changed |
| Text.Upper | src/utils/validators.js:32 | `toUpperCase` on ASCII letters: same length, each character upper-cased and nothing else changed |
| Text.LowerIdempotent | src/services/countryService.js:127 | lower-casing twice is lower-casing once |
| Text.NatToStringRoundTrip | src/services/imageService.js:45 | the decimal text of a count reads back as that count |
| ErrorHandling.NewAppError | src/middleware/errorHandling.js:27-33 | an `AppError` carries the given message, status and details (null by default) and no driver code |
| ErrorHandling.StatusOf | src/middleware/errorHandling.js:5 | the status is the error's status when truthy, otherwise 500 |
| ErrorHandling.MessageOf | src/middleware/errorHandling.js:6 | the message is the error's message when non-empty, otherwise "Internal server error" |
| ErrorHandling.Respond | src/middleware/errorHandling.js:1-25 | a duplicate-key error always gives 400 "Duplicate entry" with the fixed details; any other error gives the defaulted status and message, with `details` present only when truthy |
| ErrorHandling.ResponseWellFormed | src/middleware/errorHandling.js:16-22 | every body has a non-empty `error`; `details` is present exactly when there is a non-empty detail to show |
| ErrorHandling.AppErrorResponse | src/middleware/errorHandling.js:1-33 | an `AppError` with a status and a message is answered with that status and message, and with its details when they are truthy |
| ErrorHandling.DuplicateOverridesEverything | src/middleware/errorHandling.js:10-14 | two duplicate-key errors are answered identically, with 400, whatever else they carry |
| Validators.MissingOrBlank | src/utils/validators.js:4 | a field is reported missing exactly when it is falsy or a whitespace-only string; a truthy non-string throws |
| Validators.PopulationError | src/utils/validators.js:8-12 | no population error exactly for a non-negative number (zero included); null or undefined is "is required"; any other non-number or a negative number is "must be a positive number" |
| Validators.ErrorMap | src/utils/validators.js:2-16 | the errors object has a key exactly for each failed rule, with that rule's message, and no other key |
| Validators.ValidateCountryData | src/utils/validators.js:1-22 | `isValid` exactly when the errors map is empty; each of the name, population and currency rules both ways; the throwing inputs |
| Validators.WellFormedBodyIsValid | src/utils/validators.js:1-22 | a body with a non-blank name and currency code and a non-negative population is valid with no errors |
| Validators.SanitizeWith | src/utils/validators.js:24-50 | `region` is the trimmed input and `currency` the trimmed, upper-cased input, each present exactly when the input is truthy; `sort` is copied unchanged exactly when it is whitelisted; no other key exists |
| Validators.SanitizeQueryParams | src/utils/validators.js:35-47 | as written: the sort key survives exactly when it is in the misspelt whitelist, so "gdp_desc" never survives |
| Validators.SanitizeQueryParamsIntended | src/utils/validators.js:35-47 | with the whitelist spelt "gdp_desc": the sort key survives exactly when it is one of the six keys |
| Validators.GdpDescDropped | src/utils/validators.js:36-46 | as written, "gdp_desc" is dropped while "gdb_desc" passes |
| Validators.IntendedKeepsEverySortKey | src/utils/validators.js:36-46 | with the intended whitelist every known sort key passes unchanged |
| ImageService.FormatGdp | src/services/imageService.js:91-104 | "0" exactly for a missing or zero value; otherwise T from 10^12, B from 10^9 below 10^12, M for everything else (negatives too), with mantissa times divisor equal to the value |
| ImageService.MantissaRange | src/services/imageService.js:97-103 | a T mantissa is at least 1; a B mantissa lies in [1, 1000); a positive M mantissa lies in (0, 1000) |
| ImageService.GdpText | src/services/imageService.js:92-102 | the printed GDP is "0" or the two-decimal mantissa followed by the suffix |
| ImageService.ListLine | src/services/imageService.js:56-59 | the list text `${index + 1}. ${name} - $${formatGDP(gdp)}`: no contract of its own; `ImageService.ListLineNumbered` states its numbering and `ImageService.DrawTopList` that there is one per entry in order |
| ImageService.ListLineNumbered | src/services/imageService.js:58-59 | each list line starts with its 1-based position and ". ", and that number reads back as the position |
| ImageService.DrawTopList | src/services/imageService.js:53-64 | one line per entry, in input order, each the entry's list text, 35 units below the previous one, starting at 240 |
| ImageService.DateLine | src/services/imageService.js:70-76 | "Last Updated: Never" exactly when the refresh time is falsy, otherwise the formatted time |
| ImageService.CacheDir | src/services/imageService.js:8 | the configured directory when set and non-empty, otherwise "./cache"; never empty |
| ImageService.SummaryImagePath | src/services/imageService.js:106-108 | the image path is the cache directory followed by "/summary.png" |
| ImageService.GenerateSummaryImage | src/services/imageService.js:10-89 | the heading, total and list-header texts, one line per top entry, the date line last, and a file path equal to the path the image endpoint serves |
| CountryRecord.ProcessCountryData | src/services/countryService.js:75-111 | name and population copied; falsy capital, region and flag become NULL; no currencies gives no code, no rate and GDP 0; otherwise the first code is kept, and a truthy rate gives that rate with GDP population·m/rate, else no rate and no GDP |
| CountryRecord.GdpWithinMultiplierRange | src/services/countryService.js:94-95 | at a positive rate and a positive population the GDP lies in [population·1000/rate, population·2000/rate) whatever the draw |
| CountryRecord.DoublePopulationOutranks | src/services/countryService.js:94-95 | at the same positive rate, with both populations positive, twice the population always means the larger GDP |
| CountryRecord.Records | src/services/countryService.js:43-46 | one record per feed entry, in order, each consistent and named as its entry |
| CountryTable.FindByName | src/services/countryService.js:126-129 | the first row whose name matches case-insensitively, or none exactly when no row matches |
| CountryTable.FindIsOnlyMatch | src/services/countryService.js:126-131 | with unique names, the lookup finds the one matching row |
| CountryTable.Updated | src/services/countryService.js:133-147 | the UPDATE keeps the row's id, name and creation time and carries every other field of the record, stamped with the statement's `NOW()` |
| CountryTable.Inserted | src/services/countryService.js:150-164 | the INSERT row has the given id, the record's name, and carries every other field of the record, with both timestamps from the statement's `NOW()` |
| CountryTable.UpsertRow | src/services/countryService.js:113-166 | a matching row keeps id, name and creation time and gets every other field from the record; otherwise one row is appended with the next id; all other rows are unchanged; the count grows by at most one; the name invariant is kept |
| CountryTable.UpsertAll | src/services/countryService.js:43-46 | the upserts of one refresh in feed order, upsert `k` stamped with the clock's reading `k`: no contract of its own; `CountryTable.UpsertAllValid`, `UpsertAllKeepsRows`, `UpsertAllCovers` and `UpsertAllNoNewRows` state its properties |
| CountryTable.UpsertAllValid | src/services/countryService.js:43-46 | a batch of upserts keeps names unique and ids below the counter |
| CountryTable.UpsertAllKeepsRows | src/services/countryService.js:43-46 | a batch of upserts never removes a row nor changes an existing row's id or name |
| CountryTable.UpsertAllCovers | src/services/countryService.js:43-46 | after a batch of upserts every record's name has a matching row |
| CountryTable.UpsertAllNoNewRows | src/services/countryService.js:131-147 | a batch whose names all match existing rows adds no row |
| CountryTable.RepeatRefreshKeepsCount | src/services/countryService.js:43-46 | a second refresh with the same feed, whatever its rates, draws and clock, leaves the row count as the first left it |
| CountryTable.FeedLengthIsNotRowCount | src/services/countryService.js:58-64 | a feed of two names equal up to case reports 2 countries but leaves 1 row |
| CountryTable.RemoveByName | src/services/countryService.js:228-231 | the rows that remain are exactly those whose name does not match; nothing is removed exactly when nothing matches |
| CountryTable.RemoveKeepsValid | src/services/countryService.js:228-231 | deleting keeps names unique and ids below the counter |
| CountryTable.RemoveAtMostOne | src/services/countryService.js:228-231 | with unique names a delete removes at most one row |
| CountryTable.WithGdp | src/services/countryService.js:255 | `WHERE estimated_gdp IS NOT NULL`: exactly the rows with a GDP, as name and GDP |
| CountryTable.WithGdpNoDuplicates | src/services/countryService.js:255 | with unique names, no two entries the GDP filter returns are equal: each row appears once |
| CountryTable.InsertByGdp | src/services/countryService.js:255 | inserting an entry keeps every element and adds the entry |
| CountryTable.SortByGdp | src/services/countryService.js:255 | the sorted entries are a permutation of the input |
| CountryTable.InsertSorted | src/services/countryService.js:255 | inserting into a non-increasing sequence keeps it non-increasing |
| CountryTable.SortSorted | src/services/countryService.js:255 | `ORDER BY estimated_gdp DESC`: the sorted entries are in non-increasing GDP order |
| CountryTable.PrefixOfSorted | src/services/countryService.js:255 | `LIMIT`: a prefix of a sorted sequence is a sub-multiset of it and still sorted |
| CountryTable.PrefixDominates | src/services/countryService.js:255 | `LIMIT`: a prefix of a non-increasing sequence has a GDP at least that of everything left out |
| CountryTable.TopByGdp | src/services/countryService.js:253-259 | `min(limit, rows with a GDP)` entries, a sub-multiset of the rows with a GDP (each a stored row), non-increasing, with no left-out row ranking above any returned one; all rows with a GDP when fewer than the limit |
| CountryQuery.SortClause | src/services/countryService.js:186-205 | the `switch`: empty exactly for a key outside the six, and an ORDER BY clause for each of the six |
| CountryQuery.OrderClause | src/services/countryService.js:185-208 | the sort step: no contract of its own; `CountryQuery.OrderClauseCases` states its three cases |
| CountryQuery.OrderClauseCases | src/services/countryService.js:185-208 | no sort key gives ORDER BY name ASC; an unknown key gives no ORDER BY; a known key gives an ORDER BY clause |
| CountryQuery.SortClausesDistinct | src/services/countryService.js:186-205 | the six known keys give six different orders |
| CountryQuery.QueryText | src/services/countryService.js:168-208 | the final SQL text: no contract of its own; `CountryQuery.BuildQuery` proves the step-by-step appends produce it and `CountryQuery.PlaceholdersMatchParams` counts its `?` |
| CountryQuery.Params | src/services/countryService.js:170-182 | the final parameter list: no contract of its own; `CountryQuery.BuildQuery` proves the pushes produce it and `CountryQuery.PlaceholdersMatchParams` matches it to the text |
| CountryQuery.PlaceholdersMatchParams | src/services/countryService.js:168-208 | the query text has exactly as many `?` as there are bound parameters |
| CountryQuery.BuildQuery | src/services/countryService.js:168-208 | the step-by-step appends give the base text, then each truthy filter's clause with one parameter, then the order clause; placeholders and parameters match |
| CountryQuery.GetAllCountriesQuery | src/services/countryService.js:179-182 | as written: the currency placeholder is bound to the region filter |
| CountryQuery.GetAllCountriesQueryIntended | src/services/countryService.js:179-182 | the currency placeholder bound to the currency filter |
| CountryQuery.Select | src/services/countryService.js:210-211 | the rows returned are exactly the stored rows satisfying every truthy filter under a case-insensitive `=`, each at most as often as it is stored |
| CountryQuery.GetAllCountries | src/services/countryService.js:210-211 | the rows returned as written: no contract of its own; `CountryQuery.Select`, `CountryQuery.CurrencyAloneSelectsNothing` and `CountryQuery.AsWrittenAgreesWithoutCurrency` state what they are |
| CountryQuery.GetAllCountriesIntended | src/services/countryService.js:210-211 | the rows returned with the intended binding: no contract of its own; `CountryQuery.IntendedHonoursFilters` states what they are |
| CountryQuery.IntendedHonoursFilters | src/services/countryService.js:168-182 | with the intended binding a row is returned exactly when it is stored and matches every filter given |
| CountryQuery.AsWrittenAgreesWithoutCurrency | src/services/countryService.js:179-182 | without a currency filter the as-written and intended queries return the same rows |
| CountryQuery.CurrencyAloneSelectsNothing | src/services/countryService.js:179-182 | as written, a currency filter without a region filter returns no row, whatever the table holds |
| CountryQuery.CurrencyFilterFinding | src/services/countryService.js:179-182 | a table with one USD country: filtering by "USD" finds it as intended and nothing as written |
| CountryQuery.GdpDescRequestOrder | src/utils/validators.js:35-47 | as written, a "gdp_desc" request is ordered by name; as intended, by GDP descending |
| CountryService.CountriesUnavailable | src/services/countryService.js:23-29 | a failed countries fetch is a 503 with the fixed details |
| CountryService.RatesUnavailable | src/services/countryService.js:34-36 | a failed rates fetch is a 503 whose details are the fetch error's message |
| CountryService.NotFound | src/services/countryService.js:220-222 | a missing country is a 404 without details |
| CountryService.FetchFailuresRespond503 | src/services/countryService.js:23-36 | both fetch failures reach the client as 503 "External data source unavailable" with their details |
| CountryService.NotFoundResponds404 | src/services/countryService.js:220-222 | a missing country reaches the client as 404 "Country not found" with no details |
| CountryService.FirstFault | src/services/countryService.js:40-69 | the first failing statement of the transaction, if any, and no earlier statement fails; the last index stands for the metadata update or the commit, and a failing `beginTransaction` ends as a failure at index 0 |
| CountryService.CountryStore.constructor | src/database/migrate.js:67-71 | the freshly migrated store: no rows, counter 1, NULL metadata, no image; status reports 0 and NULL |
| CountryService.CountryStore.Upsert | src/services/countryService.js:113-166 | the new table is exactly the upsert specification applied to the old one, and the invariant is kept |
| CountryService.CountryStore.Refresh | src/services/countryService.js:10-73 | a failed fetch throws its 503 and changes nothing; a failed statement throws its error and restores rows, metadata and image; otherwise every feed entry is upserted in order, each at its own clock reading, every fetched name has a row, the metadata is `now`, and a post-commit failure throws but keeps the committed state; on success the image is drawn from the feed length and the top 5, and the feed length and `now` are returned |
| CountryService.CountryStore.UpsertBatch | src/services/countryService.js:43-46 | the loop upserts the entries in feed order and stops at the first failing statement |
| CountryService.CountryStore.UpsertEntry | src/services/countryService.js:44-45 | one loop iteration: the entry is transformed with its own draw and upserted with its own clock reading, extending the batch by one record |
| CountryService.CountryStore.Rollback | src/services/countryService.js:67-69 | rows and metadata return to the snapshot; the invariant is kept |
| CountryService.CountryStore.GetCountryByName | src/services/countryService.js:214-225 | a stored row whose name matches case-insensitively, returned exactly when one exists; otherwise the 404 |
| CountryService.CountryStore.GetReturnsTheOnlyMatch | src/services/countryService.js:214-225 | with unique names, the row returned is the one matching row |
| CountryService.CountryStore.DeleteCountry | src/services/countryService.js:227-238 | the rows left are the old rows without the matching one; success exactly when a row matched, removing exactly one row; otherwise the 404 with the table unchanged |
| CountryService.CountryStore.GetStatus | src/services/countryService.js:240-251 | the row count; NULL exactly when the metadata value is falsy, and otherwise the stored value itself |
| CountryService.CountryStore.TopCountriesByGdp | src/services/countryService.js:253-259 | `min(limit, rows with a GDP)` entries, a sub-multiset of the stored rows with a GDP, in non-increasing GDP order, with no left-out row ranking above any returned one |

## Left out

- HTTP wiring: the routes, the controllers and the `fs.access` probe before serving the image are not modelled.
- Network: the two fetches are given as outcomes. The URL and the timeout are not modelled; `fetchExchangeRates` is not part of this model.
- Randomness and clocks: `Math.random`, `NOW()` and `new Date()` are parameters. The multiplier carries its [1000, 2000) bound. Each upsert reads the database clock on its own, so rows touched by one refresh may carry different timestamps. The metadata row's `updated_at` is not modelled.
- Floating point: GDP and exchange rates are exact reals; population is an unbounded integer. IEEE rounding, NaN and infinities are not modelled. The DECIMAL column rounding and the strings the driver returns for DECIMAL values are not modelled.
- ImageService.GdpText: `toFixed(2)` is a parameter, so the two-decimal rounding is not modelled. The locale date formatting is a parameter too.
- ImageService.FormatGdp: a NaN GDP is falsy in the source and prints "0"; reals have no NaN.
- Rendering: the canvas, fonts, colours, horizontal coordinates, directory creation and the file write are not modelled. An image is modelled by the texts drawn on it, their heights and its path.
- Text.Lower: case-insensitive name matching is ASCII lower-casing. The accent and trailing-space rules of MySQL's `_ci` collation are not modelled.
- Text.Upper: ASCII upper-casing only; JavaScript's full Unicode `toUpperCase` is not modelled.
- CountryQuery.Select: the order in which the database returns the selected rows is not modelled; only the ORDER BY text is.
- CountryTable.TopByGdp: GDP ties are broken by storage order. For rows with equal GDP, `ORDER BY estimated_gdp DESC LIMIT 5` leaves both their order and, at the cut, which of them are returned unspecified; the model (and the summary image built from it) fixes one choice.
- CountryService.CountryStore.Refresh: rollback does not restore the auto-increment counter, as in InnoDB. After a failure at statement k, the counter has advanced once for each INSERT among upserts 0 to k-1. An id that the failing INSERT itself may consume is not modelled.
- A feed entry without a currency code (`currencies[0].code` undefined) is modelled with a string code.
- ImageService.SummaryImagePath: `path.join` normalisation is not modelled. The path is the directory, "/" and the file name as given, so the model yields `./cache/summary.png` where `path.join("./cache", "summary.png")` yields `cache/summary.png`.
- Concurrency: concurrent refreshes, isolation levels and the connection pool are not modelled.
- Logging: `console.log` and `console.error`.

## Findings

| source | as written | input that shows it | evidently intended | confidence | as-written member | corrected member |
|---|---|---|---|---|---|---|
| src/services/countryService.js:179-182 | the currency filter pushes `filters.region` as the value for `currency_code = ?` | `{ currency: "USD" }` on a table holding a USD country: the parameter is undefined, bound as NULL, and no row is returned | push `filters.currency` | high (not executed) | CountryQuery.CurrencyFilterFinding | CountryQuery.IntendedHonoursFilters |
| src/utils/validators.js:36-46 | the sort whitelist spells "gdb_desc" | `?sort=gdp_desc`: the key is dropped and the list comes back ordered by name | whitelist "gdp_desc", the key the query builder understands | high (not executed) | Validators.GdpDescDropped | Validators.IntendedKeepsEverySortKey |
