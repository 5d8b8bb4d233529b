/** Trade history: the user's own trades, optionally narrowed by symbol and
    by side, newest first, paginated. */
module History {
  import opened Wrappers
  import opened Text
  import opened Schema
  import opened Ledgers
  import opened Seqs
  import opened Pagination

  /** The query string apart from the page: every parameter may be absent. */
  datatype HistoryQuery = HistoryQuery(
    perPage: Option<nat>,
    symbol: Option<string>,
    side: Option<string>)

  /** PHP truthiness of a query string: the empty string and "0" are false. */
  predicate TruthyText(s: string) {
    s != "" && s != "0"
  }

  /** The side a `type` parameter selects: only the exact words buy and sell. */
  function SideFilter(side: Option<string>): (r: Option<Side>)
    ensures r == Some(Buy) <==> side == Some("buy")
    ensures r == Some(Sell) <==> side == Some("sell")
  {
    match side
    case Some(s) => if s == "buy" then Some(Buy) else if s == "sell" then Some(Sell) else None
    case None => None
  }

  /** The symbol a `symbol` parameter selects, lower-cased, when truthy. */
  function SymbolFilter(symbol: Option<string>): (r: Option<string>)
    ensures r.Some? <==> symbol.Some? && TruthyText(symbol.value)
    ensures r.Some? ==> r.value == Lower(symbol.value) && IsLowerCase(r.value)
  {
    match symbol
    case Some(s) => if TruthyText(s) then Some(Lower(s)) else None
    case None => None
  }

  /** Whether a trade row belongs in the user's filtered history. */
  predicate Selects(q: HistoryQuery, user: nat, t: Trade) {
    && t.userId == user
    && (SymbolFilter(q.symbol).Some? ==> t.symbol == SymbolFilter(q.symbol).value)
    && (SideFilter(q.side).Some? ==> t.side == SideFilter(q.side).value)
  }

  function Selection(q: HistoryQuery, user: nat): Trade -> bool {
    (t: Trade) => Selects(q, user, t)
  }

  function TradeId(t: Trade): int {
    t.id
  }

  /** The whole filtered history, newest first, before pagination. */
  function HistoryList(l: Ledger, user: nat, q: HistoryQuery): seq<Trade> {
    Reverse(Filter(l.trades, Selection(q, user)))
  }

  /** history: one page of the filtered history. Every row returned is the
      user's and matches both filters; every such row is counted. */
  function TradeHistory(l: Ledger, user: nat, q: HistoryQuery, page: Option<int>): (p: Page<Trade>)
    ensures forall t | t in p.items :: t in l.trades && Selects(q, user, t)
    ensures p.total == |Filter(l.trades, Selection(q, user))|
    ensures p.perPage == EffectivePerPage(q.perPage.GetOr(DefaultPerPage))
    ensures p.currentPage == EffectivePage(page.GetOr(DefaultPage))
    ensures p.lastPage == LastPage(p.total, p.perPage)
  {
    var selected := Filter(l.trades, Selection(q, user));
    ReverseSameElements(selected);
    PageItemsIn(Reverse(selected), page.GetOr(DefaultPage), q.perPage.GetOr(DefaultPerPage));
    Paginate(Reverse(selected), page.GetOr(DefaultPage), q.perPage.GetOr(DefaultPerPage))
  }

  /** Every row of another user's is absent from every page. */
  lemma HistoryIsPrivate(l: Ledger, user: nat, q: HistoryQuery, page: Option<int>, t: Trade)
    requires t.userId != user
    ensures t !in TradeHistory(l, user, q, page).items
  {
  }

  /** The whole history contains exactly the matching rows of the user. */
  lemma HistoryListComplete(l: Ledger, user: nat, q: HistoryQuery, t: Trade)
    ensures t in HistoryList(l, user, q) <==> t in l.trades && Selects(q, user, t)
  {
    ReverseSameElements(Filter(l.trades, Selection(q, user)));
  }

  /** With ids assigned in insertion order, every page is strictly newest
      first. */
  lemma HistoryNewestFirst(l: Ledger, user: nat, q: HistoryQuery, page: Option<int>)
    requires TradeIdsSequential(l.trades)
    ensures Decreasing(TradeHistory(l, user, q, page).items, TradeId)
  {
    var selected := Filter(l.trades, Selection(q, user));
    assert Decreasing(Reverse(selected), TradeId) by {
      assert Increasing(l.trades, TradeId);
      FilterKeepsIncreasing(l.trades, Selection(q, user), TradeId);
      ReverseOfIncreasing(selected, TradeId);
    }
    var p := Paginate(Reverse(selected), page.GetOr(DefaultPage), q.perPage.GetOr(DefaultPerPage));
    assert TradeHistory(l, user, q, page) == p;
    if |p.items| > 0 {
      RunOfDecreasing(Reverse(selected), p.items, Offset(p.currentPage, p.perPage), TradeId);
    }
  }

  /** A `type` other than exactly buy or sell (say "BUY" or "all") is
      ignored rather than rejected: the result is the unfiltered one. */
  lemma UnknownSideIgnored(l: Ledger, user: nat, q: HistoryQuery, page: Option<int>, side: string)
    requires side != "buy" && side != "sell"
    ensures TradeHistory(l, user, q.(side := Some(side)), page) == TradeHistory(l, user, q.(side := None), page)
  {
    FilterCongruent(l.trades, Selection(q.(side := Some(side)), user), Selection(q.(side := None), user));
  }

  /** An empty or "0" symbol is falsy and applies no filter. */
  lemma FalsySymbolIgnored(l: Ledger, user: nat, q: HistoryQuery, page: Option<int>, symbol: string)
    requires !TruthyText(symbol)
    ensures TradeHistory(l, user, q.(symbol := Some(symbol)), page) == TradeHistory(l, user, q.(symbol := None), page)
  {
    FilterCongruent(l.trades, Selection(q.(symbol := Some(symbol)), user), Selection(q.(symbol := None), user));
  }

  /** The symbol filter ignores case: "BTC" and "btc" select the same rows. */
  lemma SymbolFilterIgnoresCase(l: Ledger, user: nat, q: HistoryQuery, page: Option<int>, a: string, b: string)
    requires TruthyText(a) && TruthyText(b) && Lower(a) == Lower(b)
    ensures TradeHistory(l, user, q.(symbol := Some(a)), page) == TradeHistory(l, user, q.(symbol := Some(b)), page)
  {
    FilterCongruent(l.trades, Selection(q.(symbol := Some(a)), user), Selection(q.(symbol := Some(b)), user));
  }

  /** The history endpoint for one query, as a function of the page. */
  function HistoryPages(l: Ledger, user: nat, q: HistoryQuery): nat -> seq<Trade> {
    (k: nat) => TradeHistory(l, user, q, Some(k)).items
  }

  /** Asking for another page changes neither the filtered list nor the
      page size: page `k` of the endpoint is window `k` of the list. */
  lemma HistoryPageOfList(l: Ledger, user: nat, q: HistoryQuery, k: nat)
    requires k >= 1
    ensures TradeHistory(l, user, q, Some(k)).items
            == Paginate(HistoryList(l, user, q), k, EffectivePerPage(q.perPage.GetOr(DefaultPerPage))).items
  {
  }

  /** Every page of the endpoint is the matching window of the list. */
  lemma HistoryPagesAreWindows(l: Ledger, user: nat, q: HistoryQuery)
    ensures forall i: nat | 1 <= i :: HistoryPages(l, user, q)(i)
              == Paginate(HistoryList(l, user, q), i, EffectivePerPage(q.perPage.GetOr(DefaultPerPage))).items
  {
    forall i: nat | 1 <= i
      ensures HistoryPages(l, user, q)(i)
              == Paginate(HistoryList(l, user, q), i, EffectivePerPage(q.perPage.GetOr(DefaultPerPage))).items
    {
      HistoryPageOfList(l, user, q, i);
    }
  }

  /** The endpoint's page count is the one the whole list needs. */
  lemma HistoryLastPage(l: Ledger, user: nat, q: HistoryQuery, page: Option<int>)
    ensures TradeHistory(l, user, q, page).lastPage
            == LastPage(|HistoryList(l, user, q)|, EffectivePerPage(q.perPage.GetOr(DefaultPerPage)))
  {
    assert |HistoryList(l, user, q)| == |Filter(l.trades, Selection(q, user))|;
  }

  /** Walking the endpoint's pages 1 to last_page returns the whole
      filtered history, each row once and newest first. */
  lemma HistoryPagesCoverAll(l: Ledger, user: nat, q: HistoryQuery, page: Option<int>)
    ensures var p := TradeHistory(l, user, q, page);
            JoinPages(HistoryPages(l, user, q), p.lastPage) == HistoryList(l, user, q)
  {
    var p := TradeHistory(l, user, q, page);
    HistoryLastPage(l, user, q, page);
    HistoryPagesAreWindows(l, user, q);
    WindowPagesCoverAll(HistoryPages(l, user, q), HistoryList(l, user, q), EffectivePerPage(q.perPage.GetOr(DefaultPerPage)), p.lastPage);
  }
}
