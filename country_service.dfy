/** The service's state and the operations that change or read it: the
    `countries` table with its auto-increment counter, the `last_refreshed_at`
    metadata value, and the summary image file. `refreshCountries` runs its
    upserts and the metadata write inside one transaction; the transaction is a
    snapshot taken before the first statement and restored on any error. */
module CountryService {
  import opened JsValues
  import opened ErrorHandling
  import opened CountryRecord
  import opened ImageService
  import opened CountryTable

  /** The outcome of one of the two HTTP fetches; `FetchFailed` carries the
      error's message. */
  datatype Fetch<+T> = Fetched(data: T) | FetchFailed(message: string)

  /** `{ message, total_countries, last_refreshed_at }`. */
  datatype RefreshSummary = RefreshSummary(message: string, totalCountries: nat, lastRefreshedAt: string)

  /** `{ total_countries, last_refreshed_at }`. */
  datatype StatusReport = StatusReport(totalCountries: nat, lastRefreshedAt: Option<string>)

  const Unavailable := "External data source unavailable"
  const RefreshedMessage := "Countries refreshed successfully"
  const DeletedMessage := "Country deleted successfully"

  /** The number of top countries the summary image lists. */
  const SummaryTop: nat := 5

  /** The error thrown when the countries feed cannot be fetched. */
  function CountriesUnavailable(): (e: Error)
    ensures StatusOf(e) == 503 && e.details == Some("Could not fetch data from Countries API")
  {
    NewAppError(Unavailable, 503, Some("Could not fetch data from Countries API"))
  }

  /** The error thrown when the exchange rates cannot be fetched; the details are
      the fetch error's own message. */
  function RatesUnavailable(message: string): (e: Error)
    ensures StatusOf(e) == 503 && e.details == Some(message)
  {
    NewAppError(Unavailable, 503, Some(message))
  }

  /** `new AppError("Country not found", 404)`. */
  function NotFound(): (e: Error)
    ensures StatusOf(e) == 404 && e.details.None?
  {
    NewAppError("Country not found", 404, None)
  }

  /** A fetch failure reaches the client as a 503 with the failure's details. */
  lemma FetchFailuresRespond503(message: string)
    ensures Respond(CountriesUnavailable())
            == Response(503, ResponseBody(Unavailable, Some("Could not fetch data from Countries API")))
    ensures Respond(RatesUnavailable(message)) == Response(503, ResponseBody(Unavailable, OrNull(Some(message))))
  {
    AppErrorResponse(Unavailable, 503, Some("Could not fetch data from Countries API"));
    AppErrorResponse(Unavailable, 503, Some(message));
  }

  /** A missing country reaches the client as a 404 without details. */
  lemma NotFoundResponds404()
    ensures Respond(NotFound()) == Response(404, ResponseBody("Country not found", None))
  {
    AppErrorResponse("Country not found", 404, None);
  }

  /** The first statement of a refresh that fails: statement `k < n` is the
      `k`-th upsert and statement `n` the metadata update or the commit, which
      end alike. A failing `beginTransaction` ends as a failure at statement 0:
      nothing has been written yet. */
  function FirstFault(faults: map<nat, Error>, from: nat, n: nat): (k: Option<nat>)
    requires from <= n + 1
    ensures k.None? <==> forall j :: from <= j <= n ==> j !in faults
    ensures k.Some? ==> from <= k.value <= n && k.value in faults
                        && forall j :: from <= j < k.value ==> j !in faults
    decreases n + 1 - from
  {
    if from > n then None
    else if from in faults then Some(from)
    else FirstFault(faults, from + 1, n)
  }

  /** None of the first `k` statements fails. */
  predicate NoFaultBefore(faults: map<nat, Error>, k: nat)
  {
    forall j :: 0 <= j < k ==> j !in faults
  }

  lemma NoFaultStep(faults: map<nat, Error>, k: nat)
    requires NoFaultBefore(faults, k) && k !in faults
    ensures NoFaultBefore(faults, k + 1)
  {
  }

  lemma FirstFaultIs(faults: map<nat, Error>, n: nat, k: nat)
    requires k <= n && k in faults && NoFaultBefore(faults, k)
    ensures FirstFault(faults, 0, n) == Some(k)
  {
  }

  lemma NoFirstFault(faults: map<nat, Error>, n: nat)
    requires NoFaultBefore(faults, n) && n !in faults
    ensures FirstFault(faults, 0, n).None?
  {
  }

  class CountryStore {
    /** The rows of `countries`, in storage order. */
    var rows: seq<Row>
    /** The auto-increment counter of `countries`. */
    var nextId: nat
    /** The `last_refreshed_at` metadata value (NULL until the first refresh). */
    var lastRefreshed: Option<string>
    /** What the summary image file was last drawn from; `None` before any image
        was written. */
    var summary: Option<SummaryInputs>

    ghost predicate Valid()
      reads this
    {
      TableValid(Table(rows, nextId))
    }

    /** The freshly migrated database: no rows, metadata NULL, no image. */
    constructor ()
      ensures Valid()
      ensures rows == [] && nextId == 1 && lastRefreshed.None? && summary.None?
      ensures GetStatus() == StatusReport(0, None)
    {
      rows := [];
      nextId := 1;
      lastRefreshed := None;
      summary := None;
    }

    /** `upsertCountry`: look the name up case-insensitively, then UPDATE the row
        found or INSERT a new one. */
    method Upsert(rec: Record, dbNow: DbTime)
      requires Valid()
      modifies this`rows, this`nextId
      ensures Valid() && nextId >= old(nextId)
      ensures Table(rows, nextId) == UpsertRow(old(Table(rows, nextId)), rec, dbNow)
    {
      var existing := FindByName(rows, rec.name);
      if existing.Some? {
        var i := existing.value;
        rows := rows[i := Updated(rows[i], rec, dbNow)];
      } else {
        rows := rows + [Inserted(nextId, rec, dbNow)];
        nextId := nextId + 1;
      }
      assert Table(rows, nextId) == UpsertRow(old(Table(rows, nextId)), rec, dbNow);
    }

    /** `refreshCountries`. The random multiplier of the `k`-th feed entry is
        `draw(k)`, the database clock reads `dbNow(k)` during upsert `k`, the
        timestamp it reports is `now`; `faults` says which statements of the
        transaction fail, and `postCommitFault` whether the top-5 read or the
        image write after the commit fails. */
    method Refresh(countries: Fetch<seq<RawCountry>>, rates: Fetch<map<string, real>>,
                   draw: nat -> Multiplier, dbNow: nat -> DbTime, now: string,
                   faults: map<nat, Error>, postCommitFault: Option<Error>)
      returns (r: Result<RefreshSummary>)
      requires Valid()
      modifies this
      ensures Valid()
      // A failed fetch changes nothing.
      ensures countries.FetchFailed? ==>
                r == Failure(CountriesUnavailable()) && unchanged(this)
      ensures countries.Fetched? && rates.FetchFailed? ==>
                r == Failure(RatesUnavailable(rates.message)) && unchanged(this)
      // A failed statement rolls rows and metadata back; ids already drawn stay used.
      ensures countries.Fetched? && rates.Fetched? ==>
                var recs := Records(countries.data, rates.data, draw);
                var k := FirstFault(faults, 0, |countries.data|);
                k.Some? ==>
                  && r == Failure(faults[k.value])
                  && rows == old(rows) && lastRefreshed == old(lastRefreshed) && summary == old(summary)
                  && nextId == UpsertAll(old(Table(rows, nextId)), recs[..k.value], dbNow).nextId
      // Otherwise the whole batch is committed with the new timestamp.
      ensures countries.Fetched? && rates.Fetched? ==>
                var recs := Records(countries.data, rates.data, draw);
                FirstFault(faults, 0, |countries.data|).None? ==>
                  && Table(rows, nextId) == UpsertAll(old(Table(rows, nextId)), recs, dbNow)
                  && (forall k :: 0 <= k < |countries.data| ==> HasName(rows, countries.data[k].name))
                  && lastRefreshed == Some(now)
                  && (postCommitFault.Some? ==> r == Failure(postCommitFault.value) && summary == old(summary))
                  && (postCommitFault.None? ==>
                        && r == Success(RefreshSummary(RefreshedMessage, |countries.data|, now))
                        && summary == Some(SummaryInputs(|countries.data|, TopByGdp(rows, SummaryTop), Some(now))))
    {
      if countries.FetchFailed? {
        return Failure(CountriesUnavailable());
      }
      if rates.FetchFailed? {
        return Failure(RatesUnavailable(rates.message));
      }
      var feed := countries.data;
      var exchangeRates := rates.data;
      ghost var recs := Records(feed, exchangeRates, draw);
      ghost var start := Table(rows, nextId);
      // beginTransaction: what a rollback restores.
      var savedRows := rows;
      var savedMeta := lastRefreshed;
      var failedAt := UpsertBatch(feed, exchangeRates, draw, dbNow, faults);
      if failedAt.Some? {
        FirstFaultIs(faults, |feed|, failedAt.value);
        Rollback(savedRows, savedMeta, start);
        return Failure(faults[failedAt.value]);
      }
      if |feed| in faults {
        FirstFaultIs(faults, |feed|, |feed|);
        assert recs[..|feed|] == recs;
        Rollback(savedRows, savedMeta, start);
        return Failure(faults[|feed|]);
      }
      NoFirstFault(faults, |feed|);
      UpsertAllCovers(start, recs, dbNow);
      lastRefreshed := Some(now);
      // commit
      if postCommitFault.Some? {
        return Failure(postCommitFault.value);
      }
      var topCountries := TopCountriesByGdp(SummaryTop);
      summary := Some(SummaryInputs(|feed|, topCountries, Some(now)));
      r := Success(RefreshSummary(RefreshedMessage, |feed|, now));
    }

    /** The `for` loop of `refreshCountries`: transform and upsert each feed entry
        in order, stopping at the first statement that fails. */
    method UpsertBatch(feed: seq<RawCountry>, exchangeRates: map<string, real>, draw: nat -> Multiplier,
                       dbNow: nat -> DbTime, faults: map<nat, Error>)
      returns (failedAt: Option<nat>)
      requires Valid()
      modifies this`rows, this`nextId
      ensures Valid() && nextId >= old(nextId)
      ensures failedAt.None? ==>
                && NoFaultBefore(faults, |feed|)
                && Table(rows, nextId) == UpsertAll(old(Table(rows, nextId)), Records(feed, exchangeRates, draw), dbNow)
      ensures failedAt.Some? ==>
                && failedAt.value < |feed| && failedAt.value in faults
                && NoFaultBefore(faults, failedAt.value)
                && Table(rows, nextId)
                   == UpsertAll(old(Table(rows, nextId)), Records(feed, exchangeRates, draw)[..failedAt.value], dbNow)
    {
      ghost var recs := Records(feed, exchangeRates, draw);
      ghost var start := Table(rows, nextId);
      var i := 0;
      while i < |feed|
        invariant 0 <= i <= |feed|
        invariant Valid() && nextId >= start.nextId
        invariant Table(rows, nextId) == UpsertAll(start, recs[..i], dbNow)
        invariant NoFaultBefore(faults, i)
      {
        if i in faults {
          return Some(i);
        }
        UpsertEntry(feed, exchangeRates, draw, dbNow, i, start);
        NoFaultStep(faults, i);
        i := i + 1;
      }
      assert recs[..|feed|] == recs;
      return None;
    }

    /** One iteration of that loop: `processCountryData` on entry `i`, then
        `upsertCountry`. */
    method UpsertEntry(feed: seq<RawCountry>, exchangeRates: map<string, real>, draw: nat -> Multiplier,
                       dbNow: nat -> DbTime, i: nat, ghost start: Table)
      requires i < |feed| && Valid()
      requires Table(rows, nextId) == UpsertAll(start, Records(feed, exchangeRates, draw)[..i], dbNow)
      modifies this`rows, this`nextId
      ensures Valid() && nextId >= old(nextId)
      ensures Table(rows, nextId) == UpsertAll(start, Records(feed, exchangeRates, draw)[..i + 1], dbNow)
    {
      ghost var recs := Records(feed, exchangeRates, draw);
      var countryRecord := ProcessCountryData(feed[i], exchangeRates, draw(i));
      Upsert(countryRecord, dbNow(i));
      assert recs[..i + 1][..i] == recs[..i];
    }

    /** `connection.rollback()`: rows and metadata return to the snapshot; the
        auto-increment counter keeps the ids the failed statements drew. */
    method Rollback(savedRows: seq<Row>, savedMeta: Option<string>, ghost start: Table)
      requires Valid() && TableValid(start) && savedRows == start.rows && nextId >= start.nextId
      modifies this`rows, this`lastRefreshed
      ensures Valid()
      ensures rows == savedRows && lastRefreshed == savedMeta
    {
      rows := savedRows;
      lastRefreshed := savedMeta;
    }

    /** `getCountryByName`: the row whose lower-cased name equals the lower-cased
        argument, or a 404. */
    function GetCountryByName(name: string): (r: Result<Row>)
      reads this
      ensures r.Success? <==> HasName(rows, name)
      ensures r.Success? ==> r.value in rows && SameName(r.value.name, name)
      ensures r.Failure? ==> r.error == NotFound()
    {
      match FindByName(rows, name)
      case Some(i) => Success(rows[i])
      case None => Failure(NotFound())
    }

    /** Names are unique up to case, so the row returned is the one row matching. */
    lemma GetReturnsTheOnlyMatch(name: string, j: nat)
      requires Valid() && j < |rows| && SameName(rows[j].name, name)
      ensures GetCountryByName(name) == Success(rows[j])
    {
      FindIsOnlyMatch(rows, name, j);
    }

    /** `deleteCountry`: remove the rows matching the name case-insensitively, or
        report a 404 and leave the table as it is. */
    method DeleteCountry(name: string) returns (r: Result<string>)
      requires Valid()
      modifies this`rows
      ensures Valid()
      ensures rows == RemoveByName(old(rows), name)
      ensures r.Success? <==> HasName(old(rows), name)
      ensures r.Success? ==> r.value == DeletedMessage && |rows| == |old(rows)| - 1
      ensures r.Failure? ==> r.error == NotFound() && rows == old(rows)
    {
      RemoveKeepsValid(Table(rows, nextId), name);
      RemoveAtMostOne(rows, name);
      var remaining := RemoveByName(rows, name);
      var affectedRows := |rows| - |remaining|;
      rows := remaining;
      if affectedRows == 0 {
        return Failure(NotFound());
      }
      return Success(DeletedMessage);
    }

    /** `getStatus`: the row count and the metadata value, NULL when it is empty. */
    function GetStatus(): (s: StatusReport)
      reads this
      ensures s.totalCountries == |rows|
      ensures s.lastRefreshedAt.None? <==> !TruthyText(lastRefreshed)
      ensures s.lastRefreshedAt.Some? ==> s.lastRefreshedAt == lastRefreshed
    {
      StatusReport(|rows|, OrNull(lastRefreshed))
    }

    /** `getTopCountriesByGDP(limit)`. */
    function TopCountriesByGdp(limit: nat): (r: seq<TopEntry>)
      reads this
      ensures |r| == if limit < |WithGdp(rows)| then limit else |WithGdp(rows)|
      ensures multiset(r) <= multiset(WithGdp(rows))
      ensures NonIncreasing(r)
      ensures Dominates(r, multiset(WithGdp(rows)) - multiset(r))
    {
      TopByGdp(rows, limit)
    }
  }
}
