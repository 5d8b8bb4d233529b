/** The trade feature scenarios, worked through the model: one user whose
    wallet has id 1, BTC at 95,000,000 naira, ETH at 5,000,000 and USDT at
    1,550. */
module Scenarios {
  import opened Wrappers
  import opened Schema
  import opened Ledgers
  import opened Api
  import opened Trading

  const TestUser: nat := 1
  const BtcRate: Option<real> := Some(95000000.0)
  const EthRate: Option<real> := Some(5000000.0)
  const UsdtRate: Option<real> := Some(1550.0)

  /** The user's ledger: a wallet with `balance` and the given holdings. */
  function TestLedger(balance: real, holdings: seq<Holding>): Ledger {
    Ledger(map[TestUser := Wallet(1, balance)], holdings, [], [])
  }

  const BuyBtc: OrderRequest := OrderRequest(Some("btc"), Some(0.001))
  const SellBtc: OrderRequest := OrderRequest(Some("btc"), Some(0.1))

  /** 0.001 BTC: subtotal 95,000, fee 1,900, total 96,900. */
  const BuyBtcQuote: Quote := Quote(Buy, "btc", 0.001, 95000000.0, 95000.0, 1900.0, 96900.0)

  /** 0.1 BTC: gross 9,500,000, fee 190,000, net 9,310,000. */
  const SellBtcQuote: Quote := Quote(Sell, "btc", 0.1, 95000000.0, 9500000.0, 190000.0, 9310000.0)

  lemma BuyBtcPriced()
    ensures ValidateOrder(Buy, BuyBtc, BtcRate) == Ok(BuyBtcQuote)
  {
    assert RequestErrors(BuyBtc) == {};
    SupportedAreLowerCase("btc");
    assert Price(Buy, "btc", 0.001, 95000000.0) == BuyBtcQuote;
  }

  lemma SellBtcPriced()
    ensures ValidateOrder(Sell, SellBtc, BtcRate) == Ok(SellBtcQuote)
  {
    assert RequestErrors(SellBtc) == {};
    SupportedAreLowerCase("btc");
    assert Price(Sell, "btc", 0.1, 95000000.0) == SellBtcQuote;
  }

  /** Balance 1,000,000, buy 0.001 BTC: 201, total 96,900, new balance
      903,100, a 0.001 BTC holding, one completed buy row and one audit row. */
  lemma BuyScenario()
    ensures var r := BuyOrder(TestLedger(1000000.0, []), TestUser, BuyBtc, BtcRate);
            && r.Ok?
            && r.value.quote.fiat == 96900.0
            && r.value.balance == 903100.0
            && r.value.ledger.holdings == [Holding(1, "btc", 0.001)]
            && r.value.ledger.trades == [Trade(1, TestUser, Buy, "btc", 0.001, 96900.0, 95000000.0, 1900.0, Completed)]
            && r.value.ledger.transactions ==
                 [Transaction(1, TestUser, "buy_crypto", 96900.0, Some(Bought(0.001, "btc")), 1000000.0, 903100.0)]
  {
    BuyBtcPriced();
  }

  /** The same buy with balance 100: 96,900 clears the 5,000 minimum, so the
      refusal is for funds, 422, reporting 96,900 required and 100 available. */
  lemma BuyInsufficientScenario()
    ensures var r := BuyOrder(TestLedger(100.0, []), TestUser, BuyBtc, BtcRate);
            && r == Err(InsufficientFunds(96900.0, 100.0))
            && HttpStatus(r.error) == 422
  {
    BuyBtcPriced();
  }

  /** Holding 0.5 BTC, sell 0.1: 201, the holding drops to 0.4 and the
      balance rises by 9,310,000. */
  lemma SellScenario()
    ensures var r := SellOrder(TestLedger(1000000.0, [Holding(1, "btc", 0.5)]), TestUser, SellBtc, BtcRate);
            && r.Ok?
            && r.value.quote.fiat == 9310000.0
            && r.value.balance == 10310000.0
            && r.value.ledger.holdings == [Holding(1, "btc", 0.4)]
            && r.value.ledger.trades == [Trade(1, TestUser, Sell, "btc", 0.1, 9310000.0, 95000000.0, 190000.0, Completed)]
  {
    SellBtcPriced();
  }

  /** No holding at all: 422, 0.1 required and 0 available. */
  lemma SellWithoutHoldingScenario()
    ensures var r := SellOrder(TestLedger(1000000.0, []), TestUser, SellBtc, BtcRate);
            && r == Err(InsufficientHoldings(0.1, 0.0))
            && HttpStatus(r.error) == 422
  {
    SellBtcPriced();
  }

  /** No rate: 503 for both sides, before any wallet is read. */
  lemma RateUnavailableScenario(l: Ledger)
    ensures BuyOrder(l, TestUser, BuyBtc, None) == Err(RateUnavailable("btc"))
    ensures SellOrder(l, TestUser, SellBtc, Some(0.0)) == Err(RateUnavailable("btc"))
    ensures HttpStatus(RateUnavailable("btc")) == 503
  {
    SupportedAreLowerCase("btc");
  }

  /** An upper-case symbol fails the request rule: 422. */
  lemma UpperCaseSymbolScenario(l: Ledger)
    ensures BuyOrder(l, TestUser, OrderRequest(Some("BTC"), Some(0.001)), BtcRate) == Err(ValidationFailed({SymbolField}))
  {
    assert "BTC"[0] != "btc"[0] && "BTC"[0] != "eth"[0] && "BTC"[0] != "usdt"[0];
    assert RequestErrors(OrderRequest(Some("BTC"), Some(0.001))) == {SymbolField};
  }

  /** 0.0005 ETH is under the ETH minimum of 0.001 although it passes the
      request rule's 0.0001. */
  lemma EthBelowMinimumScenario(l: Ledger)
    ensures BuyOrder(l, TestUser, OrderRequest(Some("eth"), Some(0.0005)), EthRate) == Err(BelowMinimumAmount("eth", 0.001))
  {
    SupportedAreLowerCase("eth");
  }

  /** 2 USDT at 1,550 costs 3,162 with the fee: under the 5,000 minimum. */
  lemma UsdtBelowMinimumTransactionScenario(l: Ledger)
    ensures BuyOrder(l, TestUser, OrderRequest(Some("usdt"), Some(2.0)), UsdtRate) == Err(BelowMinimumTransaction(5000.0))
  {
    SupportedAreLowerCase("usdt");
    assert Price(Buy, "usdt", 2.0, 1550.0).fiat == 3162.0;
  }

  /** The handler computes with full precision: 0.00123456 ETH at 5,000,000
      has a fee of 123.456 naira, which the two-digit fee column cannot hold
      as is. */
  lemma FeeExceedsColumnScaleScenario()
    ensures var r := BuyOrder(TestLedger(1000000.0, []), TestUser, OrderRequest(Some("eth"), Some(0.00123456)), EthRate);
            && r.Ok?
            && r.value.trade.fee == 123.456
            && !TradeFitsColumns(r.value.trade)
  {
    SupportedAreLowerCase("eth");
    var q := Price(Buy, "eth", 0.00123456, 5000000.0);
    assert q.fee == 123.456;
    assert 123.456 * Pow10(2) == 12345.6;
    assert (12345.6).Floor == 12345;
  }
}
