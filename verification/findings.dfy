/** Two places where the trade path as written departs from what its own
    design promises, each modelled as written next to the corrected
    behaviour the rest of the model uses. */
module Findings {
  import opened Wrappers
  import opened Schema
  import opened Ledgers
  import opened Api
  import opened Trading
  import opened TradingProperties
  import opened Scenarios

  // ---------------------------------------------------------------------
  // 1. The transactions.type enum lacks the two values the trades write.

  /** The buy handler run against the transactions table as migrated. */
  function BuyOrderAsMigrated(l: Ledger, user: nat, req: OrderRequest, rate: Option<real>): (r: Result<Settlement, ApiError>)
    ensures QuoteBuy(l, user, req, rate).Err? ==> r == Err(QuoteBuy(l, user, req, rate).error)
  {
    match QuoteBuy(l, user, req, rate)
    case Err(e) => Err(e)
    case Ok(p) => SettleBuy(MigratedTransactionKinds, l, p)
  }

  /** The sell handler run against the transactions table as migrated. */
  function SellOrderAsMigrated(l: Ledger, user: nat, req: OrderRequest, rate: Option<real>): (r: Result<Settlement, ApiError>)
    ensures QuoteSell(l, user, req, rate).Err? ==> r == Err(QuoteSell(l, user, req, rate).error)
  {
    match QuoteSell(l, user, req, rate)
    case Err(e) => Err(e)
    case Ok(p) => SettleSell(MigratedTransactionKinds, l, p)
  }

  /** As migrated, no trade can ever complete: every order that passes all
      checks fails at the audit insert, rolls back and answers 500. */
  lemma MigratedSchemaRejectsEveryTrade(l: Ledger, user: nat, req: OrderRequest, rate: Option<real>)
    ensures QuoteBuy(l, user, req, rate).Ok? ==> BuyOrderAsMigrated(l, user, req, rate) == Err(InternalFailure)
    ensures QuoteSell(l, user, req, rate).Ok? ==> SellOrderAsMigrated(l, user, req, rate) == Err(InternalFailure)
    ensures BuyOrderAsMigrated(l, user, req, rate).Err? && SellOrderAsMigrated(l, user, req, rate).Err?
  {
  }

  /** The enum extended with the two values: the same orders succeed, and
      the corrected handlers succeed exactly when every check passes. */
  lemma ExtendedSchemaAcceptsChecked(l: Ledger, user: nat, req: OrderRequest, rate: Option<real>)
    ensures BuyOrder(l, user, req, rate).Ok? <==> QuoteBuy(l, user, req, rate).Ok?
    ensures SellOrder(l, user, req, rate).Ok? <==> QuoteSell(l, user, req, rate).Ok?
    ensures "buy_crypto" !in MigratedTransactionKinds && "buy_crypto" in TransactionKinds
    ensures "sell_crypto" !in MigratedTransactionKinds && "sell_crypto" in TransactionKinds
  {
  }

  // ---------------------------------------------------------------------
  // 2. The balance and holding checks run before the database transaction
  //    and are not repeated inside it.

  /** The buy's unit of work as written: no re-check. The balance is
      decremented in the database by the total, but the audit row records
      the balance the handler read before the transaction. */
  function SettleBuyUnlocked(kinds: set<string>, l: Ledger, p: Plan): (r: Result<Settlement, ApiError>)
    ensures r.Ok? <==> p.user in l.wallets && "buy_crypto" in kinds
    ensures r.Ok? ==>
      && r.value.ledger.wallets == l.wallets[p.user := l.wallets[p.user].(balance := l.wallets[p.user].balance - p.quote.fiat)]
      && r.value.balance == l.wallets[p.user].balance - p.quote.fiat
      && |r.value.ledger.transactions| == |l.transactions| + 1
      && r.value.ledger.transactions[|l.transactions|].previousBalance == p.wallet.balance
      && r.value.ledger.transactions[|l.transactions|].newBalance == p.wallet.balance - p.quote.fiat
  {
    if p.user !in l.wallets then Err(InternalFailure)
    else
      var w := l.wallets[p.user];
      var q := p.quote;
      var paid := w.(balance := w.balance - q.fiat);
      var t := Trade(|l.trades| + 1, p.user, Buy, q.symbol, q.amount, q.fiat, q.rate, q.fee, Completed);
      var x := Transaction(|l.transactions| + 1, p.user, "buy_crypto", q.fiat, Some(Bought(q.amount, q.symbol)),
                           p.wallet.balance, p.wallet.balance - q.fiat);
      var next := Ledger(l.wallets[p.user := paid], CreditHolding(l.holdings, p.wallet.id, q.symbol, q.amount),
                         l.trades + [t], l.transactions + [x]);
      Commit(kinds, next, t, x, q, paid.balance)
  }

  /** Run alone, with nothing between the read and the write, the unit of
      work as written is the corrected one. */
  lemma UnlockedBuyAloneIsLocked(kinds: set<string>, l: Ledger, p: Plan)
    requires p.user in l.wallets && l.wallets[p.user] == p.wallet && p.wallet.balance >= p.quote.fiat
    ensures SettleBuyUnlocked(kinds, l, p) == SettleBuy(kinds, l, p)
  {
  }

  /** The sell's unit of work as written: the holding read before the
      transaction is decremented without a re-check, and the audit row
      records the stale balance. A holding row that had gone since the read
      answers 500 here, where the handler's decrement of the stale row would
      update nothing and carry on; no operation of the core removes a
      holding row, so that case does not arise. */
  function SettleSellUnlocked(kinds: set<string>, l: Ledger, p: Plan): (r: Result<Settlement, ApiError>)
    ensures r.Ok? <==> p.user in l.wallets && FindHolding(l.holdings, p.wallet.id, p.quote.symbol).Some? && "sell_crypto" in kinds
    ensures r.Ok? ==>
      && r.value.ledger.holdings == DebitHolding(l.holdings, p.wallet.id, p.quote.symbol, p.quote.amount)
      && r.value.ledger.wallets == l.wallets[p.user := l.wallets[p.user].(balance := l.wallets[p.user].balance + p.quote.fiat)]
      && |r.value.ledger.transactions| == |l.transactions| + 1
      && r.value.ledger.transactions[|l.transactions|].previousBalance == p.wallet.balance
  {
    if p.user !in l.wallets || FindHolding(l.holdings, p.wallet.id, p.quote.symbol).None? then Err(InternalFailure)
    else
      var w := l.wallets[p.user];
      var q := p.quote;
      var paid := w.(balance := w.balance + q.fiat);
      var t := Trade(|l.trades| + 1, p.user, Sell, q.symbol, q.amount, q.fiat, q.rate, q.fee, Completed);
      var x := Transaction(|l.transactions| + 1, p.user, "sell_crypto", q.fiat, Some(Sold(q.amount, q.symbol)),
                           p.wallet.balance, p.wallet.balance + q.fiat);
      var next := Ledger(l.wallets[p.user := paid], DebitHolding(l.holdings, p.wallet.id, q.symbol, q.amount),
                         l.trades + [t], l.transactions + [x]);
      Commit(kinds, next, t, x, q, paid.balance)
  }

  /** Run alone, with the holding read still current, the sell's unit of
      work as written is the corrected one. */
  lemma UnlockedSellAloneIsLocked(kinds: set<string>, l: Ledger, p: Plan)
    requires p.user in l.wallets && l.wallets[p.user] == p.wallet
    requires FindHolding(l.holdings, p.wallet.id, p.quote.symbol).Some?
    requires HoldingAmount(l.holdings, p.wallet.id, p.quote.symbol) >= p.quote.amount
    ensures SettleSellUnlocked(kinds, l, p) == SettleSell(kinds, l, p)
  {
  }

  /** A user with 100,000 naira and nothing else. */
  const Funded: Ledger := TestLedger(100000.0, [])

  /** A user with an empty wallet holding 0.15 BTC. */
  const Holder: Ledger := TestLedger(0.0, [Holding(1, "btc", 0.15)])

  lemma StartingLedgersValid()
    ensures Valid(Funded) && Valid(Holder)
  {
    assert HoldingsOwned(Holder) by {
      assert Holder.holdings[0].walletId in WalletIds(Holder.wallets) by {
        assert Holder.wallets[TestUser].id == 1;
      }
    }
  }

  /** Both buy requests read the same wallet before either commits. */
  lemma FundedBuyPlan()
    ensures QuoteBuy(Funded, TestUser, BuyBtc, BtcRate) == Ok(Plan(TestUser, Wallet(1, 100000.0), BuyBtcQuote))
  {
    BuyBtcPriced();
  }

  /** Two requests to buy 0.001 BTC (96,900 each) arrive together against
      100,000; both pass the balance check before either commits. As written
      both commit: the balance ends at -93,800 and the second audit row
      claims a previous balance of 100,000 where 3,100 was left. */
  lemma UnlockedBuysOverdraw()
    ensures var p := Plan(TestUser, Wallet(1, 100000.0), BuyBtcQuote);
            var first := SettleBuyUnlocked(TransactionKinds, Funded, p);
            && first.Ok? && first.value.balance == 3100.0
            && var second := SettleBuyUnlocked(TransactionKinds, first.value.ledger, p);
               && second.Ok?
               && second.value.balance == -93800.0
               && second.value.ledger.transactions[1].previousBalance == 100000.0
               && !Valid(second.value.ledger)
  {
    FundedBuyPlan();
  }

  /** The corrected unit of work re-checks under the transaction: the second
      buy of the same interleaving is refused for funds. */
  lemma LockedBuysRefuseSecond()
    ensures var p := Plan(TestUser, Wallet(1, 100000.0), BuyBtcQuote);
            var first := SettleBuy(TransactionKinds, Funded, p);
            && first.Ok? && first.value.balance == 3100.0
            && SettleBuy(TransactionKinds, first.value.ledger, p) == Err(InsufficientFunds(96900.0, 3100.0))
  {
    FundedBuyPlan();
  }

  lemma HolderSellPlan()
    ensures QuoteSell(Holder, TestUser, SellBtc, BtcRate) == Ok(Plan(TestUser, Wallet(1, 0.0), SellBtcQuote))
  {
    SellBtcPriced();
  }

  /** Two requests to sell 0.1 BTC of a 0.15 BTC holding both pass the
      holding check; as written both commit and the holding ends at -0.05. */
  lemma UnlockedSellsOversell()
    ensures var p := Plan(TestUser, Wallet(1, 0.0), SellBtcQuote);
            var first := SettleSellUnlocked(TransactionKinds, Holder, p);
            && first.Ok?
            && var second := SettleSellUnlocked(TransactionKinds, first.value.ledger, p);
               && second.Ok?
               && second.value.ledger.holdings == [Holding(1, "btc", -0.05)]
               && !Valid(second.value.ledger)
  {
    HolderSellPlan();
    var p := Plan(TestUser, Wallet(1, 0.0), SellBtcQuote);
    var l1 := SettleSellUnlocked(TransactionKinds, Holder, p).value.ledger;
    assert l1.holdings == [Holding(1, "btc", 0.05)];
  }

  /** The corrected sell refuses the second request of that interleaving. */
  lemma LockedSellsRefuseSecond()
    ensures var p := Plan(TestUser, Wallet(1, 0.0), SellBtcQuote);
            var first := SettleSell(TransactionKinds, Holder, p);
            && first.Ok?
            && SettleSell(TransactionKinds, first.value.ledger, p) == Err(InsufficientHoldings(0.1, 0.05))
  {
    var p := Plan(TestUser, Wallet(1, 0.0), SellBtcQuote);
    assert SettleSell(TransactionKinds, Holder, p).value.ledger.holdings == [Holding(1, "btc", 0.05)];
  }

  /** The test's buy, against the migrated enum: 500 where 201 is expected. */
  lemma MigratedSchemaFailsBuyScenario()
    ensures BuyOrderAsMigrated(TestLedger(1000000.0, []), TestUser, BuyBtc, BtcRate) == Err(InternalFailure)
    ensures HttpStatus(InternalFailure) == 500
    ensures BuyOrder(TestLedger(1000000.0, []), TestUser, BuyBtc, BtcRate).Ok?
  {
    BuyBtcPriced();
  }
}
