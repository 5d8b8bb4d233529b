/** The rate side of the price client: deriving a naira rate from a price
    response, the per-symbol cache short-circuit, and the all-rates sweep.
    The HTTP call is abstracted to the response it would return (`None`
    for a failed or unreachable request); the cache is a plain map whose
    entries do not expire. */
module RateService {
  import opened Wrappers
  import opened Text

  /** The fixed naira-per-dollar conversion used when no naira price is quoted. */
  const UsdToNgn: real := 1550.0

  /** The upstream coin id of each supported symbol. */
  const CoinIds: map<string, string> := map["btc" := "bitcoin", "eth" := "ethereum", "usdt" := "tether"]

  /** The supported symbols in the order the all-rates sweep visits them. */
  const RateSymbols: seq<string> := ["btc", "eth", "usdt"]

  /** The quoted prices of one coin; either may be missing. */
  datatype CoinPrice = CoinPrice(ngn: Option<real>, usd: Option<real>)

  /** A simple-price response: prices keyed by coin id. */
  type PriceResponse = map<string, CoinPrice>

  /** The key-value cache shared by all lookups. */
  type RateCache = map<string, real>

  /** The result of one lookup: the rate (`None` is PHP's null), the cache
      afterwards, and whether an HTTP request was made. */
  datatype Lookup = Lookup(rate: Option<real>, cache: RateCache, requested: bool)

  function CacheKey(symbol: string): string {
    "crypto_rate_" + symbol
  }

  lemma CacheKeyInjective(a: string, b: string)
    requires CacheKey(a) == CacheKey(b)
    ensures a == b
  {
    assert a == CacheKey(a)[12..];
    assert b == CacheKey(b)[12..];
  }

  /** A price counts when it is present and positive. */
  predicate Quoted(p: Option<real>) {
    p.Some? && p.value > 0.0
  }

  /** The naira rate a price entry yields: the naira price when quoted, else
      the dollar price converted at 1550, else none. */
  function RateFrom(p: CoinPrice): (r: Option<real>)
    ensures r.Some? <==> Quoted(p.ngn) || Quoted(p.usd)
    ensures r.Some? ==> r.value > 0.0
    ensures Quoted(p.ngn) ==> r == p.ngn
    ensures !Quoted(p.ngn) && Quoted(p.usd) ==> r == Some(p.usd.value * UsdToNgn)
  {
    if Quoted(p.ngn) then p.ngn
    else if Quoted(p.usd) then Some(p.usd.value * UsdToNgn)
    else None
  }

  /** The rate a response yields for a coin id, if any. */
  function ResponseRate(response: Option<PriceResponse>, id: string): Option<real> {
    if response.Some? && id in response.value then RateFrom(response.value[id]) else None
  }

  /** getRate. `response` is what the simple-price request would return. */
  function GetRate(symbol: string, cache: RateCache, response: Option<PriceResponse>): (r: Lookup)
    ensures var s := Lower(symbol);
            && (s !in CoinIds ==> r == Lookup(None, cache, false))
            && (s in CoinIds && CacheKey(s) in cache ==> r == Lookup(Some(cache[CacheKey(s)]), cache, false))
            && (r.requested <==> s in CoinIds && CacheKey(s) !in cache)
            && (r.requested ==> r.rate == ResponseRate(response, CoinIds[s]))
            && (r.requested && r.rate.Some? ==> r.cache == cache[CacheKey(s) := r.rate.value])
            && (r.requested && r.rate.None? ==> r.cache == cache)
  {
    var s := Lower(symbol);
    if s !in CoinIds then Lookup(None, cache, false)
    else if CacheKey(s) in cache then Lookup(Some(cache[CacheKey(s)]), cache, false)
    else
      var rate := ResponseRate(response, CoinIds[s]);
      if rate.Some? then Lookup(rate, cache[CacheKey(s) := rate.value], true)
      else Lookup(None, cache, true)
  }

  /** Every cached rate is positive: the only writer stores positive rates. */
  predicate CacheSound(cache: RateCache) {
    forall k | k in cache :: cache[k] > 0.0
  }

  /** With a sound cache a lookup returns no rate or a positive one, and
      leaves the cache sound: "unavailable" is always null, never zero. */
  lemma GetRateKeepsCacheSound(symbol: string, cache: RateCache, response: Option<PriceResponse>)
    requires CacheSound(cache)
    ensures var r := GetRate(symbol, cache, response);
            && (r.rate.Some? ==> r.rate.value > 0.0)
            && CacheSound(r.cache)
  {
  }

  /** A lookup that yields a rate makes the next lookup of the same symbol a
      cache hit: same rate, no request, whatever the upstream now says. */
  lemma GetRateCachesRate(symbol: string, cache: RateCache, response: Option<PriceResponse>, later: Option<PriceResponse>)
    requires GetRate(symbol, cache, response).rate.Some?
    ensures var r := GetRate(symbol, cache, response);
            GetRate(symbol, r.cache, later) == Lookup(r.rate, r.cache, false)
  {
  }

  /** The case of the symbol does not matter to the lookup. */
  lemma GetRateIgnoresCase(a: string, b: string, cache: RateCache, response: Option<PriceResponse>)
    requires Lower(a) == Lower(b)
    ensures GetRate(a, cache, response) == GetRate(b, cache, response)
  {
  }

  /** A lookup writes at most its own symbol's cache entry. */
  lemma GetRateFrame(symbol: string, cache: RateCache, response: Option<PriceResponse>, k: string)
    requires k != CacheKey(Lower(symbol))
    ensures var c := GetRate(symbol, cache, response).cache;
            (k in c <==> k in cache) && (k in cache ==> c[k] == cache[k])
  {
  }

  /** Two caches that agree on a symbol's entry give that symbol the same rate. */
  lemma GetRateLocal(symbol: string, c1: RateCache, c2: RateCache, response: Option<PriceResponse>)
    requires var k := CacheKey(Lower(symbol)); (k in c1 <==> k in c2) && (k in c1 ==> c1[k] == c2[k])
    ensures GetRate(symbol, c1, response).rate == GetRate(symbol, c2, response).rate
  {
  }

  /** Looking up one lower-case symbol does not change the rate a later
      lookup of another finds. */
  lemma LookupsIndependent(s: string, t: string, cache: RateCache, fetch: string -> Option<PriceResponse>)
    requires s != t && IsLowerCase(s) && IsLowerCase(t)
    ensures GetRate(t, GetRate(s, cache, fetch(s)).cache, fetch(t)).rate == GetRate(t, cache, fetch(t)).rate
  {
    LowerOfLowerCase(s);
    LowerOfLowerCase(t);
    if CacheKey(t) == CacheKey(s) {
      CacheKeyInjective(t, s);
    }
    GetRateFrame(s, cache, fetch(s), CacheKey(t));
    GetRateLocal(t, GetRate(s, cache, fetch(s)).cache, cache, fetch(t));
  }

  /** The rates collected so far and the cache after the lookups. */
  datatype Sweep = Sweep(rates: map<string, real>, cache: RateCache)

  predicate Distinct(symbols: seq<string>) {
    forall i, j | 0 <= i < j < |symbols| :: symbols[i] != symbols[j]
  }

  /** The loop of getAllRates over `symbols`, one request per cache miss;
      `fetch` gives each symbol's response. Because every lookup touches
      only its own cache entry, each symbol's rate is the one a lookup
      against the initial cache would give. */
  function SweepRates(symbols: seq<string>, cache: RateCache, fetch: string -> Option<PriceResponse>): (r: Sweep)
    requires Distinct(symbols)
    requires forall i | 0 <= i < |symbols| :: IsLowerCase(symbols[i])
    ensures forall s :: s in r.rates <==> s in symbols && Truthy(GetRate(s, cache, fetch(s)).rate)
    ensures forall s | s in r.rates :: GetRate(s, cache, fetch(s)).rate == Some(r.rates[s])
    decreases |symbols|
  {
    if |symbols| == 0 then Sweep(map[], cache)
    else
      var s := symbols[0];
      var look := GetRate(s, cache, fetch(s));
      var rest := SweepRates(symbols[1..], look.cache, fetch);
      forall t | t in symbols[1..]
        ensures t != s && GetRate(t, look.cache, fetch(t)).rate == GetRate(t, cache, fetch(t)).rate
      {
        var i :| 0 <= i < |symbols[1..]| && symbols[1..][i] == t;
        assert t == symbols[i + 1];
        LookupsIndependent(s, t, cache, fetch);
      }
      Sweep(if Truthy(look.rate) then rest.rates[s := look.rate.value] else rest.rates, rest.cache)
  }

  /** getAllRates: keys are supported symbols, exactly those whose lookup
      gives a truthy rate, each mapped to that rate. */
  function GetAllRates(cache: RateCache, fetch: string -> Option<PriceResponse>): (r: Sweep)
    ensures forall s | s in r.rates :: s in CoinIds
    ensures forall s | s in CoinIds :: s in r.rates <==> Truthy(GetRate(s, cache, fetch(s)).rate)
    ensures forall s | s in r.rates :: GetRate(s, cache, fetch(s)).rate == Some(r.rates[s])
  {
    SweepRates(RateSymbols, cache, fetch)
  }

  /** With a sound cache every collected rate is positive. */
  lemma AllRatesPositive(cache: RateCache, fetch: string -> Option<PriceResponse>)
    requires CacheSound(cache)
    ensures forall s | s in GetAllRates(cache, fetch).rates :: GetAllRates(cache, fetch).rates[s] > 0.0
  {
    forall s | s in GetAllRates(cache, fetch).rates ensures GetAllRates(cache, fetch).rates[s] > 0.0 {
      GetRateKeepsCacheSound(s, cache, fetch(s));
    }
  }
}
