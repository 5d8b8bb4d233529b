/** The pure helpers of the price client's market-data calls: the OHLC
    day snapping, the markets page-size clamp with its page cache, and the
    24-hour gainers/losers ranking. Responses are inputs (`None` for a
    failed request); caches are maps whose entries do not expire. */
module Market {
  import opened Wrappers
  import opened Seqs

  /** The day ranges the OHLC endpoint accepts, ascending. */
  const OhlcDays: seq<int> := [1, 7, 14, 30, 90, 180, 365]

  /** The range used when no accepted range covers the request. */
  const FallbackOhlcDays: int := 7

  /** The first entry of `ds` that is at least `days`, if any. */
  function FirstCovering(ds: seq<int>, days: int): (r: Option<int>)
    ensures r.Some? <==> exists i | 0 <= i < |ds| :: ds[i] >= days
    ensures r.Some? ==> r.value in ds && r.value >= days
    ensures r.Some? ==> exists i | 0 <= i < |ds| :: ds[i] == r.value && forall j | 0 <= j < i :: ds[j] < days
  {
    if |ds| == 0 then None
    else if ds[0] >= days then Some(ds[0])
    else
      var rest := FirstCovering(ds[1..], days);
      assert forall i | 0 <= i < |ds[1..]| :: ds[1..][i] == ds[i + 1];
      rest
  }

  /** The OHLC day snapping: the smallest accepted range covering the
      request, or 7 when the request exceeds a year. */
  function SnapOhlcDays(days: int): (r: int)
    ensures r in OhlcDays
    ensures days <= 365 ==> r >= days && forall d | d in OhlcDays && d >= days :: r <= d
    ensures days > 365 ==> r == FallbackOhlcDays
  {
    var found := FirstCovering(OhlcDays, days);
    assert days <= 365 ==> OhlcDays[6] >= days;
    found.GetOr(FallbackOhlcDays)
  }

  /** An accepted range is kept as it is. */
  lemma SnapKeepsAcceptedDays(days: int)
    requires days in OhlcDays
    ensures SnapOhlcDays(days) == days
  {
  }

  /** Snapping never shortens a range of at most a year, and is monotone on
      them. */
  lemma SnapMonotone(a: int, b: int)
    requires a <= b <= 365
    ensures SnapOhlcDays(a) <= SnapOhlcDays(b)
  {
  }

  /** The largest page the markets call requests. */
  const MaxMarketsPerPage: int := 250

  /** The per_page the markets call sends: `min(per_page, 250)`. */
  function MarketsPerPage(perPage: int): (r: int)
    ensures r <= MaxMarketsPerPage
    ensures r == perPage || (perPage > MaxMarketsPerPage && r == MaxMarketsPerPage)
  {
    if perPage < MaxMarketsPerPage then perPage else MaxMarketsPerPage
  }

  /** A markets response: its rows. */
  type MarketsData = seq<Coin>

  /** The result of a markets call: the data, the cache afterwards, and the
      per_page sent upstream when a request was made. */
  datatype MarketsLookup = MarketsLookup(data: Option<MarketsData>, cache: map<int, MarketsData>, requested: Option<int>)

  /** The answer a truthiness check lets through: a failed request and an
      empty array are both falsy, and both give null. */
  function Served(response: Option<MarketsData>): (r: Option<MarketsData>)
    ensures r.Some? <==> response.Some? && |response.value| > 0
    ensures r.Some? ==> r == response
  {
    if response.Some? && |response.value| > 0 then response else None
  }

  /** getMarkets as written: the cache key is the page number alone, so a
      page cached for one per_page is served for every other per_page.
      `fetch` is the upstream response for a (page, per_page) request; only
      a non-empty answer is cached and returned. */
  function GetMarkets(page: int, perPage: int, cache: map<int, MarketsData>, fetch: (int, int) -> Option<MarketsData>): (r: MarketsLookup)
    ensures page in cache ==> r == MarketsLookup(Some(cache[page]), cache, None)
    ensures page !in cache ==> r.requested == Some(MarketsPerPage(perPage))
    ensures page !in cache ==> (r.data.Some? <==> fetch(page, MarketsPerPage(perPage)).Some? && |fetch(page, MarketsPerPage(perPage)).value| > 0)
    ensures page !in cache && r.data.Some? ==> r.data == fetch(page, MarketsPerPage(perPage)) && r.cache == cache[page := r.data.value]
    ensures page !in cache && r.data.None? ==> r.cache == cache
    ensures r.requested.Some? ==> r.requested.value <= MaxMarketsPerPage
  {
    if page in cache then MarketsLookup(Some(cache[page]), cache, None)
    else
      var data := Served(fetch(page, MarketsPerPage(perPage)));
      MarketsLookup(data, if data.Some? then cache[page := data.value] else cache, Some(MarketsPerPage(perPage)))
  }

  /** The page cache as written ignores per_page: after page 1 is fetched
      with 10 rows per page, a request for 250 rows gets the 10-row answer
      back without any upstream call. */
  lemma MarketsCacheIgnoresPerPage(page: int, cache: map<int, MarketsData>, fetch: (int, int) -> Option<MarketsData>, small: int, large: int)
    requires page !in cache && Served(fetch(page, MarketsPerPage(small))).Some?
    ensures var first := GetMarkets(page, small, cache, fetch);
            var second := GetMarkets(page, large, first.cache, fetch);
            && second.requested.None?
            && second.data == fetch(page, MarketsPerPage(small))
  {
  }

  /** getMarkets keyed by (page, per_page): every answer is the upstream
      answer for the page size actually requested. */
  function GetMarketsKeyed(page: int, perPage: int, cache: map<(int, int), MarketsData>, fetch: (int, int) -> Option<MarketsData>): (r: (Option<MarketsData>, map<(int, int), MarketsData>))
    ensures (page, MarketsPerPage(perPage)) !in cache ==> r.0 == Served(fetch(page, MarketsPerPage(perPage)))
    ensures (page, MarketsPerPage(perPage)) in cache ==> r.0 == Some(cache[(page, MarketsPerPage(perPage))]) && r.1 == cache
    ensures forall k | k in r.1 && k !in cache :: k == (page, MarketsPerPage(perPage)) && Served(fetch(k.0, k.1)) == Some(r.1[k])
    ensures forall k | k in cache :: k in r.1 && r.1[k] == cache[k]
  {
    var key := (page, MarketsPerPage(perPage));
    if key in cache then (Some(cache[key]), cache)
    else
      var data := Served(fetch(key.0, key.1));
      (data, if data.Some? then cache[key := data.value] else cache)
  }

  /** A cache holding only non-empty upstream answers for the keys it is
      indexed by. */
  predicate CacheFaithful(cache: map<(int, int), MarketsData>, fetch: (int, int) -> Option<MarketsData>) {
    forall k | k in cache :: Served(fetch(k.0, k.1)) == Some(cache[k])
  }

  /** With the per_page in the key, a faithful cache stays faithful and
      every answer, cached or not, is what the upstream answer for the page
      size requested serves: its rows when non-empty, null otherwise. */
  lemma KeyedMarketsAnswerRequestedSize(page: int, perPage: int, cache: map<(int, int), MarketsData>, fetch: (int, int) -> Option<MarketsData>)
    requires CacheFaithful(cache, fetch)
    ensures var r := GetMarketsKeyed(page, perPage, cache, fetch);
            && r.0 == Served(fetch(page, MarketsPerPage(perPage)))
            && CacheFaithful(r.1, fetch)
  {
  }

  /** One market row: the coin and its 24-hour change, which may be missing. */
  datatype Coin = Coin(id: string, change24h: Option<real>)

  /** The sort key: a missing change counts as 0. */
  function Change(c: Coin): real {
    c.change24h.GetOr(0.0)
  }

  predicate SortedByChangeDesc(s: seq<Coin>) {
    forall i, j | 0 <= i < j < |s| :: Change(s[i]) >= Change(s[j])
  }

  /** Inserts `c` before the first row it does not fall below. */
  function InsertByChange(c: Coin, s: seq<Coin>): (r: seq<Coin>)
    ensures multiset(r) == multiset(s) + multiset{c}
    ensures |r| == |s| + 1
  {
    if |s| == 0 then [c]
    else if Change(c) >= Change(s[0]) then [c] + s
    else
      assert s == [s[0]] + s[1..];
      [s[0]] + InsertByChange(c, s[1..])
  }

  lemma {:induction false} InsertKeepsSorted(c: Coin, s: seq<Coin>)
    requires SortedByChangeDesc(s)
    ensures SortedByChangeDesc(InsertByChange(c, s))
  {
    if |s| > 0 && Change(c) < Change(s[0]) {
      var rest := InsertByChange(c, s[1..]);
      InsertKeepsSorted(c, s[1..]);
      forall j | 0 <= j < |rest| ensures Change(rest[j]) <= Change(s[0]) {
        assert rest[j] in multiset(rest);
        if rest[j] != c {
          assert rest[j] in multiset(s[1..]);
          var k :| 0 <= k < |s[1..]| && s[1..][k] == rest[j];
          assert s[k + 1] == rest[j];
        }
      }
    }
  }

  /** The descending sort by 24-hour change. */
  function SortByChange(s: seq<Coin>): (r: seq<Coin>)
    ensures SortedByChangeDesc(r)
    ensures multiset(r) == multiset(s)
    ensures |r| == |s|
  {
    if |s| == 0 then []
    else
      assert s == [s[0]] + s[1..];
      InsertKeepsSorted(s[0], SortByChange(s[1..]));
      InsertByChange(s[0], SortByChange(s[1..]))
  }

  /** How many rows each list holds. */
  const ListSize: nat := 10

  datatype GainersLosers = GainersLosers(gainers: seq<Coin>, losers: seq<Coin>)

  /** Every row of the sorted list comes from the input. */
  lemma SortedRowsFromInput(s: seq<Coin>)
    ensures forall i | 0 <= i < |SortByChange(s)| :: SortByChange(s)[i] in s
  {
    var r := SortByChange(s);
    forall i | 0 <= i < |r| ensures r[i] in s {
      assert r[i] in multiset(r);
    }
  }

  /** The last `n` rows of a descending list, reversed, ascend. */
  lemma ReversedTailAscends(sorted: seq<Coin>, n: nat)
    requires SortedByChangeDesc(sorted) && n <= |sorted|
    ensures var losers := Reverse(sorted[|sorted| - n..]);
            forall i, j | 0 <= i < j < |losers| :: Change(losers[i]) <= Change(losers[j])
  {
    var losers := Reverse(sorted[|sorted| - n..]);
    forall i, j | 0 <= i < j < |losers| ensures Change(losers[i]) <= Change(losers[j]) {
      assert losers[i] == sorted[|sorted| - 1 - i];
      assert losers[j] == sorted[|sorted| - 1 - j];
    }
  }

  /** The first `n` rows of a descending list are descending, and when
      every row comes from `data`, so do they and the last `n` rows,
      reversed. */
  lemma RankRows(sorted: seq<Coin>, data: seq<Coin>, n: nat)
    requires n <= |sorted| && SortedByChangeDesc(sorted)
    requires forall i | 0 <= i < |sorted| :: sorted[i] in data
    ensures SortedByChangeDesc(sorted[..n])
    ensures forall i | 0 <= i < n :: sorted[..n][i] in data
    ensures forall x | x in Reverse(sorted[|sorted| - n..]) :: x in data
  {
    var losers := Reverse(sorted[|sorted| - n..]);
    forall x | x in losers ensures x in data {
      var i :| 0 <= i < n && losers[i] == x;
      assert losers[i] == sorted[|sorted| - 1 - i];
    }
  }

  /** The ranking of a non-empty response: the first ten rows of the sorted
      list as gainers, the last ten reversed as losers (all rows when fewer). */
  function Rank(data: seq<Coin>): (r: GainersLosers)
    ensures var n := if |data| < ListSize then |data| else ListSize;
            |r.gainers| == n && |r.losers| == n
    ensures forall i | 0 <= i < |r.gainers| :: r.gainers[i] in data
    ensures forall i | 0 <= i < |r.losers| :: r.losers[i] in data
    ensures SortedByChangeDesc(r.gainers)
    ensures forall i, j | 0 <= i < j < |r.losers| :: Change(r.losers[i]) <= Change(r.losers[j])
  {
    var sorted := SortByChange(data);
    var n := if |sorted| < ListSize then |sorted| else ListSize;
    SortedRowsFromInput(data);
    RankRows(sorted, data, n);
    ReversedTailAscends(sorted, n);
    GainersLosers(sorted[..n], Reverse(sorted[|sorted| - n..]))
  }

  /** The gainers are the first rows of the sorted list and the losers its
      last rows, reversed; gainers outrank every row that is not a gainer,
      and losers are outranked by every row that is not a loser: the lists
      hold the ten highest and the ten lowest changes. */
  lemma RankSeparates(data: seq<Coin>)
    ensures var sorted := SortByChange(data);
            var r := Rank(data);
            var n := |r.gainers|;
            && r.gainers == sorted[..n]
            && (forall i, j | 0 <= i < n <= j < |sorted| :: Change(r.gainers[i]) >= Change(sorted[j]))
            && r.losers == Reverse(sorted[|sorted| - n..])
            && (forall i, j | 0 <= i < n && 0 <= j < |sorted| - n :: Change(r.losers[i]) <= Change(sorted[j]))
  {
    var sorted := SortByChange(data);
    var r := Rank(data);
    var n := |r.gainers|;
    assert r.gainers == sorted[..n];
    assert r.losers == Reverse(sorted[|sorted| - n..]);
    forall i, j | 0 <= i < n <= j < |sorted| ensures Change(r.gainers[i]) >= Change(sorted[j]) {
      assert r.gainers[i] == sorted[i];
    }
    forall i, j | 0 <= i < n && 0 <= j < |sorted| - n ensures Change(r.losers[i]) <= Change(sorted[j]) {
      assert r.losers[i] == sorted[|sorted| - 1 - i];
    }
  }

  /** getTopGainersLosers: a cached ranking is returned as it is; otherwise
      a failed or empty response gives null, and a non-empty one is ranked
      and cached. */
  function TopGainersLosers(cache: Option<GainersLosers>, response: Option<seq<Coin>>): (r: (Option<GainersLosers>, Option<GainersLosers>))
    ensures cache.Some? ==> r == (cache, cache)
    ensures cache.None? ==> (r.0.Some? <==> response.Some? && |response.value| > 0)
    ensures cache.None? && r.0.Some? ==> r.0 == Some(Rank(response.value)) && r.1 == r.0
    ensures cache.None? && r.0.None? ==> r.1 == None
  {
    if cache.Some? then (cache, cache)
    else if response.Some? && |response.value| > 0 then
      var ranked := Rank(response.value);
      (Some(ranked), Some(ranked))
    else (None, None)
  }
}
