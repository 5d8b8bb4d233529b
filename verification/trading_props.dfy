/** Properties of the settlement engine stated against independent
    definitions: when an order is accepted, which error a rejected order
    reports, the exact balance and holding deltas, and the ledger invariant
    every settlement keeps. */
module TradingProperties {
  import opened Wrappers
  import opened Schema
  import opened Ledgers
  import opened Api
  import opened Trading

  /** Naira cost of buying `amount` at `rate`, fee included. */
  function TotalCost(amount: real, rate: real): real {
    amount * rate * (1.0 + BuyFeePercent / 100.0)
  }

  /** Naira credited for selling `amount` at `rate`, fee deducted. */
  function NetProceeds(amount: real, rate: real): real {
    amount * rate * (1.0 - SellFeePercent / 100.0)
  }

  /** The order passes every request-independent-of-the-ledger check. */
  predicate OrderAcceptable(side: Side, req: OrderRequest, rate: Option<real>) {
    && req.symbol.Some? && req.symbol.value in MinimumCryptoAmounts.Keys && req.symbol.value in SupportedCryptos
    && req.amount.Some? && req.amount.value >= RequestMinimumAmount
    && req.amount.value >= MinimumCryptoAmounts[req.symbol.value]
    && rate.Some? && rate.value != 0.0
    && (if side == Buy then TotalCost(req.amount.value, rate.value) else NetProceeds(req.amount.value, rate.value))
         >= MinimumTransactionAmount
  }

  lemma {:induction false} ValidateOrderAccepts(side: Side, req: OrderRequest, rate: Option<real>)
    ensures ValidateOrder(side, req, rate).Ok? <==> OrderAcceptable(side, req, rate)
    ensures ValidateOrder(side, req, rate).Ok? ==>
              ValidateOrder(side, req, rate).value.symbol == req.symbol.value
              && ValidateOrder(side, req, rate).value.fiat ==
                   (if side == Buy then TotalCost(req.amount.value, rate.value) else NetProceeds(req.amount.value, rate.value))
  {
    var v := ValidateOrder(side, req, rate);
    if RequestErrors(req) == {} {
      var symbol := req.symbol.value;
      var amount := req.amount.value;
      SupportedAreLowerCase(symbol);
      if amount >= MinimumCryptoAmounts[symbol] && Truthy(rate) {
        var q := Price(side, symbol, amount, rate.value);
        assert q.fiat == if side == Buy then TotalCost(amount, rate.value) else NetProceeds(amount, rate.value);
        assert v == if q.fiat < MinimumTransactionAmount then Err(BelowMinimumTransaction(MinimumTransactionAmount)) else Ok(q);
      }
    }
  }

  /** A buy succeeds exactly when every check of the pipeline passes. */
  lemma BuySucceedsIff(l: Ledger, user: nat, req: OrderRequest, rate: Option<real>)
    ensures BuyOrder(l, user, req, rate).Ok? <==>
              && OrderAcceptable(Buy, req, rate)
              && user in l.wallets
              && l.wallets[user].balance >= TotalCost(req.amount.value, rate.value)
  {
    ValidateOrderAccepts(Buy, req, rate);
  }

  /** A sell succeeds exactly when every check passes and the wallet holds a
      row for the symbol of at least the amount. */
  lemma SellSucceedsIff(l: Ledger, user: nat, req: OrderRequest, rate: Option<real>)
    ensures SellOrder(l, user, req, rate).Ok? <==>
              && OrderAcceptable(Sell, req, rate)
              && user in l.wallets
              && FindHolding(l.holdings, l.wallets[user].id, req.symbol.value).Some?
              && HoldingAmount(l.holdings, l.wallets[user].id, req.symbol.value) >= req.amount.value
  {
    ValidateOrderAccepts(Sell, req, rate);
  }

  /** The error an order reports is the one of the first failing step, in
      the fixed order: request rules, per-symbol minimum, rate, naira
      minimum, then the wallet. */
  lemma {:induction false} PipelineOrder(side: Side, req: OrderRequest, rate: Option<real>)
    ensures RequestErrors(req) != {} ==> ValidateOrder(side, req, rate) == Err(ValidationFailed(RequestErrors(req)))
    ensures RequestErrors(req) == {} ==> req.symbol.value in MinimumCryptoAmounts
    ensures RequestErrors(req) == {} && req.amount.value < MinimumCryptoAmounts[req.symbol.value] ==>
              ValidateOrder(side, req, rate) ==
                Err(BelowMinimumAmount(req.symbol.value, MinimumCryptoAmounts[req.symbol.value]))
    ensures RequestErrors(req) == {} && req.amount.value >= MinimumCryptoAmounts[req.symbol.value]
              && !Truthy(rate) ==>
              ValidateOrder(side, req, rate) == Err(RateUnavailable(req.symbol.value))
    ensures RequestErrors(req) == {} && req.amount.value >= MinimumCryptoAmounts[req.symbol.value]
              && Truthy(rate)
              && (if side == Buy then TotalCost(req.amount.value, rate.value) else NetProceeds(req.amount.value, rate.value))
                   < MinimumTransactionAmount ==>
              ValidateOrder(side, req, rate) == Err(BelowMinimumTransaction(MinimumTransactionAmount))
  {
    var v := ValidateOrder(side, req, rate);
    if RequestErrors(req) == {} {
      var symbol := req.symbol.value;
      var amount := req.amount.value;
      SupportedAreLowerCase(symbol);
      if amount >= MinimumCryptoAmounts[symbol] && Truthy(rate) {
        var q := Price(side, symbol, amount, rate.value);
        assert q.fiat == if side == Buy then TotalCost(amount, rate.value) else NetProceeds(amount, rate.value);
        assert v == if q.fiat < MinimumTransactionAmount then Err(BelowMinimumTransaction(MinimumTransactionAmount)) else Ok(q);
      }
    }
  }

  /** After a valid quote, a buy fails on a missing wallet, then on funds. */
  lemma BuyWalletChecks(l: Ledger, user: nat, req: OrderRequest, rate: Option<real>)
    requires OrderAcceptable(Buy, req, rate)
    ensures user !in l.wallets ==> BuyOrder(l, user, req, rate) == Err(InternalFailure)
    ensures user in l.wallets && l.wallets[user].balance < TotalCost(req.amount.value, rate.value) ==>
              BuyOrder(l, user, req, rate) ==
                Err(InsufficientFunds(TotalCost(req.amount.value, rate.value), l.wallets[user].balance))
  {
    ValidateOrderAccepts(Buy, req, rate);
  }

  /** After a valid quote, a sell fails on a missing wallet, then on the
      holding, reporting 0 available when there is no row. */
  lemma SellHoldingChecks(l: Ledger, user: nat, req: OrderRequest, rate: Option<real>)
    requires OrderAcceptable(Sell, req, rate)
    ensures user !in l.wallets ==> SellOrder(l, user, req, rate) == Err(InternalFailure)
    ensures user in l.wallets && FindHolding(l.holdings, l.wallets[user].id, req.symbol.value).None? ==>
              SellOrder(l, user, req, rate) == Err(InsufficientHoldings(req.amount.value, 0.0))
    ensures user in l.wallets && HoldingAmount(l.holdings, l.wallets[user].id, req.symbol.value) < req.amount.value ==>
              SellOrder(l, user, req, rate) ==
                Err(InsufficientHoldings(req.amount.value, HoldingAmount(l.holdings, l.wallets[user].id, req.symbol.value)))
  {
    ValidateOrderAccepts(Sell, req, rate);
  }

  /** The row-by-row effect of a settled buy, in terms of its quote. */
  lemma BuyAppliedEffects(l: Ledger, user: nat, q: Quote, s: Settlement)
    requires BuyApplied(l, user, q, s)
    ensures user in l.wallets && user in s.ledger.wallets
    ensures s.ledger.wallets[user].balance == l.wallets[user].balance - q.fiat
    ensures s.balance == s.ledger.wallets[user].balance
    ensures forall v | v in l.wallets && v != user :: v in s.ledger.wallets && s.ledger.wallets[v] == l.wallets[v]
    ensures HoldingAmount(s.ledger.holdings, l.wallets[user].id, q.symbol)
              == HoldingAmount(l.holdings, l.wallets[user].id, q.symbol) + q.amount
    ensures forall i | 0 <= i < |l.holdings| && !Matches(l.holdings[i], l.wallets[user].id, q.symbol) ::
              s.ledger.holdings[i] == l.holdings[i]
    ensures |s.ledger.trades| == |l.trades| + 1 && s.ledger.trades[..|l.trades|] == l.trades
    ensures s.ledger.trades[|l.trades|] == Trade(|l.trades| + 1, user, Buy, q.symbol, q.amount, q.fiat, q.rate, q.fee, Completed)
    ensures |s.ledger.transactions| == |l.transactions| + 1
    ensures s.ledger.transactions[..|l.transactions|] == l.transactions
    ensures s.ledger.transactions[|l.transactions|].kind == "buy_crypto"
    ensures s.ledger.transactions[|l.transactions|].amount == q.fiat
    ensures s.ledger.transactions[|l.transactions|].previousBalance == l.wallets[user].balance
    ensures s.ledger.transactions[|l.transactions|].newBalance == s.ledger.wallets[user].balance
  {
    assert s.ledger.trades[..|l.trades|] == l.trades;
    assert s.ledger.transactions[..|l.transactions|] == l.transactions;
  }

  /** The exact effect of a successful buy: the balance falls by
      amount x rate x 1.02 and stays non-negative, the holding rises by the
      amount (from 0 when it was absent), other rows and wallets are
      untouched, and exactly one trade and one audit row are appended. */
  lemma BuyEffects(l: Ledger, user: nat, req: OrderRequest, rate: Option<real>)
    requires BuyOrder(l, user, req, rate).Ok?
    ensures var s := BuyOrder(l, user, req, rate).value;
            var w := l.wallets[user];
            var amount := req.amount.value;
            && user in l.wallets && user in s.ledger.wallets
            && s.ledger.wallets[user].balance == w.balance - TotalCost(amount, rate.value)
            && s.ledger.wallets[user].balance >= 0.0
            && s.balance == s.ledger.wallets[user].balance
            && (forall v | v in l.wallets && v != user :: v in s.ledger.wallets && s.ledger.wallets[v] == l.wallets[v])
            && HoldingAmount(s.ledger.holdings, w.id, req.symbol.value)
                 == HoldingAmount(l.holdings, w.id, req.symbol.value) + amount
            && (forall i | 0 <= i < |l.holdings| && !Matches(l.holdings[i], w.id, req.symbol.value) ::
                  s.ledger.holdings[i] == l.holdings[i])
            && |s.ledger.trades| == |l.trades| + 1 && s.ledger.trades[..|l.trades|] == l.trades
            && s.ledger.trades[|l.trades|] == Trade(|l.trades| + 1, user, Buy, req.symbol.value, amount,
                                                     TotalCost(amount, rate.value), rate.value,
                                                     s.quote.fee, Completed)
            && s.quote == ValidateOrder(Buy, req, rate).value
            && |s.ledger.transactions| == |l.transactions| + 1
            && s.ledger.transactions[..|l.transactions|] == l.transactions
            && s.ledger.transactions[|l.transactions|].kind == "buy_crypto"
            && s.ledger.transactions[|l.transactions|].amount == TotalCost(amount, rate.value)
            && s.ledger.transactions[|l.transactions|].previousBalance == w.balance
            && s.ledger.transactions[|l.transactions|].newBalance == s.ledger.wallets[user].balance
  {
    ValidateOrderAccepts(Buy, req, rate);
    var s := BuyOrder(l, user, req, rate).value;
    BuyAppliedEffects(l, user, s.quote, s);
  }

  /** The row-by-row effect of a settled sell, in terms of its quote. */
  lemma SellAppliedEffects(l: Ledger, user: nat, q: Quote, s: Settlement)
    requires SellApplied(l, user, q, s)
    ensures user in l.wallets && user in s.ledger.wallets
    ensures s.ledger.wallets[user].balance == l.wallets[user].balance + q.fiat
    ensures s.balance == s.ledger.wallets[user].balance
    ensures forall v | v in l.wallets && v != user :: v in s.ledger.wallets && s.ledger.wallets[v] == l.wallets[v]
    ensures HoldingAmount(s.ledger.holdings, l.wallets[user].id, q.symbol)
              == HoldingAmount(l.holdings, l.wallets[user].id, q.symbol) - q.amount
    ensures forall i | 0 <= i < |l.holdings| && !Matches(l.holdings[i], l.wallets[user].id, q.symbol) ::
              s.ledger.holdings[i] == l.holdings[i]
    ensures |s.ledger.trades| == |l.trades| + 1 && s.ledger.trades[..|l.trades|] == l.trades
    ensures s.ledger.trades[|l.trades|] == Trade(|l.trades| + 1, user, Sell, q.symbol, q.amount, q.fiat, q.rate, q.fee, Completed)
    ensures |s.ledger.transactions| == |l.transactions| + 1
    ensures s.ledger.transactions[..|l.transactions|] == l.transactions
    ensures s.ledger.transactions[|l.transactions|].kind == "sell_crypto"
    ensures s.ledger.transactions[|l.transactions|].amount == q.fiat
    ensures s.ledger.transactions[|l.transactions|].previousBalance == l.wallets[user].balance
    ensures s.ledger.transactions[|l.transactions|].newBalance == s.ledger.wallets[user].balance
  {
    assert s.ledger.trades[..|l.trades|] == l.trades;
    assert s.ledger.transactions[..|l.transactions|] == l.transactions;
  }

  /** The exact effect of a successful sell: the holding falls by exactly the
      amount and stays non-negative, the balance rises by amount x rate x 0.98,
      and exactly one trade and one audit row are appended. */
  lemma SellEffects(l: Ledger, user: nat, req: OrderRequest, rate: Option<real>)
    requires SellOrder(l, user, req, rate).Ok?
    ensures var s := SellOrder(l, user, req, rate).value;
            var w := l.wallets[user];
            var amount := req.amount.value;
            && user in l.wallets && user in s.ledger.wallets
            && s.ledger.wallets[user].balance == w.balance + NetProceeds(amount, rate.value)
            && s.balance == s.ledger.wallets[user].balance
            && (forall v | v in l.wallets && v != user :: v in s.ledger.wallets && s.ledger.wallets[v] == l.wallets[v])
            && HoldingAmount(s.ledger.holdings, w.id, req.symbol.value)
                 == HoldingAmount(l.holdings, w.id, req.symbol.value) - amount
            && HoldingAmount(s.ledger.holdings, w.id, req.symbol.value) >= 0.0
            && |s.ledger.holdings| == |l.holdings|
            && (forall i | 0 <= i < |l.holdings| && !Matches(l.holdings[i], w.id, req.symbol.value) ::
                  s.ledger.holdings[i] == l.holdings[i])
            && |s.ledger.trades| == |l.trades| + 1 && s.ledger.trades[..|l.trades|] == l.trades
            && s.ledger.trades[|l.trades|] == Trade(|l.trades| + 1, user, Sell, req.symbol.value, amount,
                                                     NetProceeds(amount, rate.value), rate.value,
                                                     s.quote.fee, Completed)
            && s.quote == ValidateOrder(Sell, req, rate).value
            && |s.ledger.transactions| == |l.transactions| + 1
            && s.ledger.transactions[..|l.transactions|] == l.transactions
            && s.ledger.transactions[|l.transactions|].kind == "sell_crypto"
            && s.ledger.transactions[|l.transactions|].amount == NetProceeds(amount, rate.value)
            && s.ledger.transactions[|l.transactions|].previousBalance == w.balance
            && s.ledger.transactions[|l.transactions|].newBalance == s.ledger.wallets[user].balance
  {
    ValidateOrderAccepts(Sell, req, rate);
    var s := SellOrder(l, user, req, rate).value;
    SellAppliedEffects(l, user, s.quote, s);
  }

  /** A plan the pipeline could have produced: positive amount and rate, and
      a non-negative fee-adjusted amount. */
  predicate PlanSound(p: Plan) {
    p.quote.amount > 0.0 && p.quote.rate > 0.0 && p.quote.fiat >= 0.0
  }

  lemma QuotedPlansAreSound(side: Side, req: OrderRequest, rate: Option<real>, p: Plan)
    requires ValidateOrder(side, req, rate) == Ok(p.quote)
    ensures PlanSound(p)
  {
  }

  /** Settling a buy inside the transaction keeps the ledger invariant, for
      any sound plan and whatever the ledger became since the plan was
      quoted: the balance is re-checked under the transaction. */
  lemma {:induction false} SettleBuyKeepsValid(kinds: set<string>, l: Ledger, p: Plan)
    requires Valid(l) && PlanSound(p)
    requires SettleBuy(kinds, l, p).Ok?
    ensures Valid(SettleBuy(kinds, l, p).value.ledger)
  {
    BuyAppliedKeepsValid(l, p.user, p.quote, SettleBuy(kinds, l, p).value);
  }

  lemma {:induction false} BuyAppliedKeepsValid(l: Ledger, user: nat, q: Quote, s: Settlement)
    requires Valid(l) && q.amount > 0.0 && q.rate > 0.0
    requires BuyApplied(l, user, q, s) && l.wallets[user].balance >= q.fiat
    ensures Valid(s.ledger)
  {
    BuyAppliedKeepsHoldings(l, user, q, s);
    BuyAppliedKeepsAudit(l, user, q, s);
  }

  /** The holdings part of the buy's preservation proof. */
  lemma BuyAppliedKeepsHoldings(l: Ledger, user: nat, q: Quote, s: Settlement)
    requires HoldingsNonNegative(l.holdings) && HoldingsUnique(l.holdings) && HoldingsOwned(l)
    requires BuyApplied(l, user, q, s) && q.amount > 0.0
    ensures HoldingsNonNegative(s.ledger.holdings) && HoldingsUnique(s.ledger.holdings) && HoldingsOwned(s.ledger)
  {
    var w := l.wallets[user];
    RebalanceKeepsWallets(l.wallets, user, w.(balance := w.balance - q.fiat));
    assert w.id in WalletIds(l.wallets);
    CreditKeepsOwned(l.holdings, WalletIds(l.wallets), w.id, q.symbol, q.amount);
  }

  /** What a settled buy writes, spelled out row by row: the wallet's new
      balance, the audit row that continues the user's chain and the next
      completed trade row. */
  lemma BuyAppliedShape(l: Ledger, user: nat, q: Quote, s: Settlement, x: Transaction)
    requires BuyApplied(l, user, q, s) && q.amount > 0.0 && q.rate > 0.0 && l.wallets[user].balance >= q.fiat
    requires x == Transaction(|l.transactions| + 1, user, "buy_crypto", q.fiat, Some(Bought(q.amount, q.symbol)),
                              l.wallets[user].balance, l.wallets[user].balance - q.fiat)
    ensures s.ledger.wallets == l.wallets[user := l.wallets[user].(balance := l.wallets[user].balance - q.fiat)]
    ensures s.ledger.transactions == l.transactions + [x]
    ensures x.userId == user && x.newBalance == l.wallets[user].balance - q.fiat && ContinuesAudit(l, x)
    ensures s.ledger.trades == l.trades + [s.trade]
    ensures s.trade.id == |l.trades| + 1 && s.trade.status == Completed && s.trade.amount > 0.0 && s.trade.rate > 0.0
  {
    assert "buy_crypto" in TransactionKinds && "buy_crypto" !in CreditKinds;
  }

  /** The wallet, trade and audit part of the buy's preservation proof. */
  lemma BuyAppliedKeepsAudit(l: Ledger, user: nat, q: Quote, s: Settlement)
    requires BalancesNonNegative(l.wallets) && WalletIdsDistinct(l.wallets)
    requires TradeIdsSequential(l.trades) && TradesSettled(l.trades)
    requires TransactionIdsSequential(l.transactions) && TransactionsInSchema(l.transactions)
    requires EntriesBalanced(l.transactions) && EntriesChained(l.transactions)
    requires EntriesOwned(l) && AuditMatchesBalances(l)
    requires q.amount > 0.0 && q.rate > 0.0
    requires BuyApplied(l, user, q, s) && l.wallets[user].balance >= q.fiat
    ensures BalancesNonNegative(s.ledger.wallets) && WalletIdsDistinct(s.ledger.wallets)
    ensures TradeIdsSequential(s.ledger.trades) && TradesSettled(s.ledger.trades)
    ensures TransactionIdsSequential(s.ledger.transactions) && TransactionsInSchema(s.ledger.transactions)
    ensures EntriesBalanced(s.ledger.transactions) && EntriesChained(s.ledger.transactions)
    ensures EntriesOwned(s.ledger) && AuditMatchesBalances(s.ledger)
  {
    var balance := l.wallets[user].balance;
    var x := Transaction(|l.transactions| + 1, user, "buy_crypto", q.fiat, Some(Bought(q.amount, q.symbol)),
                         balance, balance - q.fiat);
    BuyAppliedShape(l, user, q, s, x);
    var w' := l.wallets[user].(balance := l.wallets[user].balance - q.fiat);
    EntryKeepsWalletsAndAudit(l, user, l.wallets[user].balance - q.fiat, w', x, s.ledger);
    AppendTradeKeepsTrades(l.trades, s.trade);
  }

  /** Appending the next completed trade keeps the trade rows' invariant. */
  lemma AppendTradeKeepsTrades(ts: seq<Trade>, t: Trade)
    requires TradeIdsSequential(ts) && TradesSettled(ts)
    requires t.id == |ts| + 1 && t.status == Completed && t.amount > 0.0 && t.rate > 0.0
    ensures TradeIdsSequential(ts + [t]) && TradesSettled(ts + [t])
  {
    assert forall i | 0 <= i < |ts| :: (ts + [t])[i] == ts[i];
  }

  /** Settling a sell inside the transaction keeps the ledger invariant: the
      holding is re-checked, so it never goes negative. */
  lemma {:induction false} SettleSellKeepsValid(kinds: set<string>, l: Ledger, p: Plan)
    requires Valid(l) && PlanSound(p)
    requires SettleSell(kinds, l, p).Ok?
    ensures Valid(SettleSell(kinds, l, p).value.ledger)
  {
    SellAppliedKeepsValid(l, p.user, p.quote, SettleSell(kinds, l, p).value);
  }

  lemma {:induction false} SellAppliedKeepsValid(l: Ledger, user: nat, q: Quote, s: Settlement)
    requires Valid(l) && q.amount > 0.0 && q.rate > 0.0 && q.fiat >= 0.0
    requires SellApplied(l, user, q, s)
    requires HoldingAmount(l.holdings, l.wallets[user].id, q.symbol) >= q.amount
    ensures Valid(s.ledger)
  {
    SellAppliedKeepsHoldings(l, user, q, s);
    SellAppliedKeepsAudit(l, user, q, s);
  }

  /** The holdings part of the sell's preservation proof. */
  lemma SellAppliedKeepsHoldings(l: Ledger, user: nat, q: Quote, s: Settlement)
    requires HoldingsNonNegative(l.holdings) && HoldingsUnique(l.holdings) && HoldingsOwned(l)
    requires SellApplied(l, user, q, s)
    requires HoldingAmount(l.holdings, l.wallets[user].id, q.symbol) >= q.amount
    ensures HoldingsNonNegative(s.ledger.holdings) && HoldingsUnique(s.ledger.holdings) && HoldingsOwned(s.ledger)
  {
    var w := l.wallets[user];
    RebalanceKeepsWallets(l.wallets, user, w.(balance := w.balance + q.fiat));
    DebitKeepsOwned(l.holdings, WalletIds(l.wallets), w.id, q.symbol, q.amount);
  }

  /** What a settled sell writes, spelled out row by row: the wallet's new
      balance, the audit row that continues the user's chain and the next
      completed trade row. */
  lemma SellAppliedShape(l: Ledger, user: nat, q: Quote, s: Settlement, x: Transaction)
    requires SellApplied(l, user, q, s) && q.amount > 0.0 && q.rate > 0.0 && q.fiat >= 0.0
    requires x == Transaction(|l.transactions| + 1, user, "sell_crypto", q.fiat, Some(Sold(q.amount, q.symbol)),
                              l.wallets[user].balance, l.wallets[user].balance + q.fiat)
    ensures s.ledger.wallets == l.wallets[user := l.wallets[user].(balance := l.wallets[user].balance + q.fiat)]
    ensures s.ledger.transactions == l.transactions + [x]
    ensures x.userId == user && x.newBalance == l.wallets[user].balance + q.fiat && ContinuesAudit(l, x)
    ensures s.ledger.trades == l.trades + [s.trade]
    ensures s.trade.id == |l.trades| + 1 && s.trade.status == Completed && s.trade.amount > 0.0 && s.trade.rate > 0.0
  {
    assert "sell_crypto" in TransactionKinds && "sell_crypto" in CreditKinds;
  }

  /** The wallet, trade and audit part of the sell's preservation proof. */
  lemma SellAppliedKeepsAudit(l: Ledger, user: nat, q: Quote, s: Settlement)
    requires BalancesNonNegative(l.wallets) && WalletIdsDistinct(l.wallets)
    requires TradeIdsSequential(l.trades) && TradesSettled(l.trades)
    requires TransactionIdsSequential(l.transactions) && TransactionsInSchema(l.transactions)
    requires EntriesBalanced(l.transactions) && EntriesChained(l.transactions)
    requires EntriesOwned(l) && AuditMatchesBalances(l)
    requires q.amount > 0.0 && q.rate > 0.0 && q.fiat >= 0.0
    requires SellApplied(l, user, q, s)
    ensures BalancesNonNegative(s.ledger.wallets) && WalletIdsDistinct(s.ledger.wallets)
    ensures TradeIdsSequential(s.ledger.trades) && TradesSettled(s.ledger.trades)
    ensures TransactionIdsSequential(s.ledger.transactions) && TransactionsInSchema(s.ledger.transactions)
    ensures EntriesBalanced(s.ledger.transactions) && EntriesChained(s.ledger.transactions)
    ensures EntriesOwned(s.ledger) && AuditMatchesBalances(s.ledger)
  {
    var balance := l.wallets[user].balance;
    var x := Transaction(|l.transactions| + 1, user, "sell_crypto", q.fiat, Some(Sold(q.amount, q.symbol)),
                         balance, balance + q.fiat);
    SellAppliedShape(l, user, q, s, x);
    var w' := l.wallets[user].(balance := l.wallets[user].balance + q.fiat);
    EntryKeepsWalletsAndAudit(l, user, l.wallets[user].balance + q.fiat, w', x, s.ledger);
    AppendTradeKeepsTrades(l.trades, s.trade);
  }

  lemma BuyKeepsValid(l: Ledger, user: nat, req: OrderRequest, rate: Option<real>)
    requires Valid(l) && BuyOrder(l, user, req, rate).Ok?
    ensures Valid(BuyOrder(l, user, req, rate).value.ledger)
  {
    var p := QuoteBuy(l, user, req, rate).value;
    QuotedPlansAreSound(Buy, req, rate, p);
    SettleBuyKeepsValid(TransactionKinds, l, p);
  }

  lemma SellKeepsValid(l: Ledger, user: nat, req: OrderRequest, rate: Option<real>)
    requires Valid(l) && SellOrder(l, user, req, rate).Ok?
    ensures Valid(SellOrder(l, user, req, rate).value.ledger)
  {
    var p := QuoteSell(l, user, req, rate).value;
    QuotedPlansAreSound(Sell, req, rate, p);
    SettleSellKeepsValid(TransactionKinds, l, p);
  }
}
