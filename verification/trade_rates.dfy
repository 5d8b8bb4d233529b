/** The public rates endpoint of the trade controller: one row per supported
    symbol, in the controller's order, each with the naira rate the price
    client gives (null when unavailable) and its dollar equivalent. */
module TradeRates {
  import opened Wrappers
  import opened Text
  import opened Trading
  import opened RateService

  /** One entry of the response: the upper-case symbol, `rate_ngn` and
      `rate_usd`. */
  datatype RateRow = RateRow(symbol: string, rateNgn: Option<real>, rateUsd: Option<real>)

  /** The response rows and the cache after the lookups. */
  datatype RatesTable = RatesTable(rows: seq<RateRow>, cache: RateCache)

  /** `rate_usd`: the naira rate divided by 1550 when truthy, else null. */
  function DollarRate(rate: Option<real>): (r: Option<real>)
    ensures r.Some? <==> Truthy(rate)
    ensures r.Some? ==> r.value * UsdToNgn == rate.value
  {
    if Truthy(rate) then Some(rate.value / UsdToNgn) else None
  }

  /** The loop of `rates()` over `symbols`, threading the cache. Every
      symbol gets a row, and each row's rate is the one a lookup against the
      initial cache gives. */
  function RateRows(symbols: seq<string>, cache: RateCache, fetch: string -> Option<PriceResponse>): (r: RatesTable)
    requires Distinct(symbols)
    requires forall i | 0 <= i < |symbols| :: IsLowerCase(symbols[i])
    ensures |r.rows| == |symbols|
    ensures forall i | 0 <= i < |symbols| ::
              && r.rows[i].symbol == Upper(symbols[i])
              && r.rows[i].rateNgn == GetRate(symbols[i], cache, fetch(symbols[i])).rate
              && r.rows[i].rateUsd == DollarRate(r.rows[i].rateNgn)
    decreases |symbols|
  {
    if |symbols| == 0 then RatesTable([], cache)
    else
      var s := symbols[0];
      var look := GetRate(s, cache, fetch(s));
      var rest := RateRows(symbols[1..], look.cache, fetch);
      forall i | 1 <= i < |symbols|
        ensures GetRate(symbols[i], look.cache, fetch(symbols[i])).rate == GetRate(symbols[i], cache, fetch(symbols[i])).rate
      {
        LookupsIndependent(s, symbols[i], cache, fetch);
      }
      RatesTable([RateRow(Upper(s), look.rate, DollarRate(look.rate))] + rest.rows, rest.cache)
  }

  lemma SupportedDistinctLowerCase()
    ensures Distinct(SupportedCryptos)
    ensures forall i | 0 <= i < |SupportedCryptos| :: IsLowerCase(SupportedCryptos[i])
  {
  }

  /** rates(): one row per supported symbol, even when its rate is null. */
  function Rates(cache: RateCache, fetch: string -> Option<PriceResponse>): (r: RatesTable)
    ensures |r.rows| == |SupportedCryptos|
    ensures forall i | 0 <= i < |SupportedCryptos| ::
              && r.rows[i].symbol == Upper(SupportedCryptos[i])
              && r.rows[i].rateNgn == GetRate(SupportedCryptos[i], cache, fetch(SupportedCryptos[i])).rate
              && r.rows[i].rateUsd == DollarRate(r.rows[i].rateNgn)
  {
    SupportedDistinctLowerCase();
    RateRows(SupportedCryptos, cache, fetch)
  }

  /** The rates endpoint and getAllRates agree: a symbol is missing from
      getAllRates exactly when its row shows no dollar rate, and otherwise
      both show the same naira rate. */
  lemma RatesAgreeWithAllRates(cache: RateCache, fetch: string -> Option<PriceResponse>)
    ensures forall i | 0 <= i < |SupportedCryptos| ::
              var s := SupportedCryptos[i];
              var row := Rates(cache, fetch).rows[i];
              && (s in GetAllRates(cache, fetch).rates <==> row.rateUsd.Some?)
              && (s in GetAllRates(cache, fetch).rates ==> row.rateNgn == Some(GetAllRates(cache, fetch).rates[s]))
  {
  }

  /** With a sound cache, the rate handed to an order is unavailable exactly
      when the lookup gave null: a zero rate never arises. */
  lemma ServiceRateAvailability(symbol: string, cache: RateCache, response: Option<PriceResponse>)
    requires CacheSound(cache)
    ensures var rate := GetRate(symbol, cache, response).rate;
            Truthy(rate) <==> rate.Some?
  {
    GetRateKeepsCacheSound(symbol, cache, response);
  }
}
