/** The record transformer of the refresh pipeline (`processCountryData`): one
    raw country from the countries feed plus the exchange-rate table becomes one
    record to store. */
module CountryRecord {
  import opened JsValues

  /** One entry of a raw country's `currencies` list; only `code` is read. */
  datatype Currency = Currency(code: string)

  /** A raw country as the countries feed delivers it. Optional string fields may
      be absent or empty; `currencies` may be absent (`None`) or empty. */
  datatype RawCountry = RawCountry(
    name: string,
    capital: Option<string>,
    region: Option<string>,
    population: int,
    flag: Option<string>,
    currencies: Option<seq<Currency>>)

  /** The record written to the `countries` table. */
  datatype Record = Record(
    name: string,
    capital: Option<string>,
    region: Option<string>,
    population: int,
    currencyCode: Option<string>,
    exchangeRate: Option<real>,
    estimatedGdp: Option<real>,
    flagUrl: Option<string>)

  /** The random multiplier `Math.random() * (2000 - 1000) + 1000`, supplied by
      the caller so that the transformer is a function. */
  type Multiplier = m: real | 1000.0 <= m < 2000.0 witness 1000.0

  /** `country.currencies && country.currencies.length > 0`. */
  predicate HasCurrencies(c: RawCountry)
  {
    c.currencies.Some? && |c.currencies.value| > 0
  }

  /** `exchangeRates[code]` is truthy: present and non-zero. */
  predicate RateKnown(rates: map<string, real>, code: string)
  {
    code in rates && rates[code] != 0.0
  }

  /** The asymmetry every stored record obeys: no currency means a GDP of exactly
      zero; a currency without a usable rate means no rate and no GDP; a rate is
      never zero and always comes with a currency code and a GDP. */
  predicate Consistent(r: Record)
  {
    && (r.currencyCode.None? ==> r.exchangeRate.None? && r.estimatedGdp == Some(0.0))
    && (r.currencyCode.Some? && r.exchangeRate.None? ==> r.estimatedGdp.None?)
    && (r.exchangeRate.Some? ==> r.currencyCode.Some? && r.exchangeRate.value != 0.0 && r.estimatedGdp.Some?)
  }

  /** `processCountryData(country, exchangeRates)` with the multiplier drawn as `m`. */
  function ProcessCountryData(c: RawCountry, rates: map<string, real>, m: Multiplier): (r: Record)
    ensures r.name == c.name && r.population == c.population
    ensures r.capital == OrNull(c.capital) && r.region == OrNull(c.region) && r.flagUrl == OrNull(c.flag)
    ensures !HasCurrencies(c) ==>
              r.currencyCode.None? && r.exchangeRate.None? && r.estimatedGdp == Some(0.0)
    ensures HasCurrencies(c) ==> r.currencyCode == Some(c.currencies.value[0].code)
    ensures HasCurrencies(c) && RateKnown(rates, c.currencies.value[0].code) ==>
              var rate := rates[c.currencies.value[0].code];
              r.exchangeRate == Some(rate) && r.estimatedGdp == Some(c.population as real * m / rate)
    ensures HasCurrencies(c) && !RateKnown(rates, c.currencies.value[0].code) ==>
              r.exchangeRate.None? && r.estimatedGdp.None?
    ensures Consistent(r)
  {
    var (currencyCode, exchangeRate, estimatedGdp) :=
      if HasCurrencies(c) then
        var code := c.currencies.value[0].code;
        if RateKnown(rates, code) then
          (Some(code), Some(rates[code]), Some(c.population as real * m / rates[code]))
        else (Some(code), None, None)
      else (None, None, Some(0.0));
    Record(c.name, OrNull(c.capital), OrNull(c.region), c.population,
           currencyCode, exchangeRate, estimatedGdp, OrNull(c.flag))
  }

  /** With a positive rate, the estimated GDP lies between population * 1000 / rate
      (inclusive) and population * 2000 / rate (exclusive), whatever the draw. */
  lemma GdpWithinMultiplierRange(c: RawCountry, rates: map<string, real>, m: Multiplier)
    requires HasCurrencies(c) && c.currencies.value[0].code in rates
    requires rates[c.currencies.value[0].code] > 0.0 && c.population > 0
    ensures var rate := rates[c.currencies.value[0].code];
            var g := ProcessCountryData(c, rates, m).estimatedGdp.value;
            c.population as real * 1000.0 / rate <= g < c.population as real * 2000.0 / rate
  {
    var rate := rates[c.currencies.value[0].code];
    var p := c.population as real;
    assert p * 1000.0 <= p * m < p * 2000.0;
    DivideKeepsOrder(p * 1000.0, p * m, rate);
    DivideKeepsStrictOrder(p * m, p * 2000.0, rate);
  }

  /** Two countries priced in the same positive rate, one with at least twice the
      population of the other, are ranked by population for every pair of draws:
      the random multiplier cannot reorder them. */
  lemma DoublePopulationOutranks(small: RawCountry, large: RawCountry, rates: map<string, real>,
                                 m1: Multiplier, m2: Multiplier)
    requires HasCurrencies(small) && HasCurrencies(large)
    requires small.currencies.value[0].code == large.currencies.value[0].code
    requires small.currencies.value[0].code in rates && rates[small.currencies.value[0].code] > 0.0
    requires small.population > 0 && large.population >= 2 * small.population
    ensures ProcessCountryData(small, rates, m1).estimatedGdp.value
            < ProcessCountryData(large, rates, m2).estimatedGdp.value
  {
    var rate := rates[small.currencies.value[0].code];
    GdpWithinMultiplierRange(small, rates, m1);
    GdpWithinMultiplierRange(large, rates, m2);
    var ps := small.population as real;
    var pl := large.population as real;
    assert ps * 2000.0 <= pl * 1000.0;
    DivideKeepsOrder(ps * 2000.0, pl * 1000.0, rate);
  }

  lemma DivideKeepsOrder(a: real, b: real, d: real)
    requires d > 0.0 && a <= b
    ensures a / d <= b / d
  {
  }

  lemma DivideKeepsStrictOrder(a: real, b: real, d: real)
    requires d > 0.0 && a < b
    ensures a / d < b / d
  {
  }

  /** The records one refresh writes: feed entry `i` transformed with draw `i`. */
  function Records(feed: seq<RawCountry>, rates: map<string, real>, draw: nat -> Multiplier): (recs: seq<Record>)
    ensures |recs| == |feed|
    ensures forall i :: 0 <= i < |feed| ==> recs[i] == ProcessCountryData(feed[i], rates, draw(i))
    ensures forall i :: 0 <= i < |feed| ==> recs[i].name == feed[i].name && Consistent(recs[i])
  {
    seq(|feed|, i requires 0 <= i < |feed| => ProcessCountryData(feed[i], rates, draw(i)))
  }
}
