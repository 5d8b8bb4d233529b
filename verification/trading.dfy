/** The settlement engine of the trade controller: the ordered, short-circuiting
    validation pipeline shared by buy and sell, and the single state transition
    each performs on the ledger. Each order is split into the part the handler
    runs before opening the database transaction (`QuoteBuy`, `QuoteSell`) and
    the part it runs inside it (`SettleBuy`, `SettleSell`). */
module Trading {
  import opened Wrappers
  import opened Text
  import opened Schema
  import opened Ledgers
  import opened Api

  const SupportedCryptos: seq<string> := ["btc", "eth", "usdt"]
  const BuyFeePercent: real := 2.0
  const SellFeePercent: real := 2.0

  /** Minimum fee-adjusted naira amount of one order. */
  const MinimumTransactionAmount: real := 5000.0

  /** The `min:` bound of the request's amount rule. */
  const RequestMinimumAmount: real := 0.0001

  const MinimumCryptoAmounts: map<string, real> := map["btc" := 0.0001, "eth" := 0.001, "usdt" := 1.0]

  /** The request body: `None` for a missing field or one of the wrong type. */
  datatype OrderRequest = OrderRequest(symbol: Option<string>, amount: Option<real>)

  function FeePercent(side: Side): real {
    match side
    case Buy => BuyFeePercent
    case Sell => SellFeePercent
  }

  /** The priced order: gross = amount x rate, the fee on it, and the
      fee-adjusted naira amount (total cost of a buy, net proceeds of a sell). */
  datatype Quote = Quote(side: Side, symbol: string, amount: real, rate: real, gross: real, fee: real, fiat: real)

  function Price(side: Side, symbol: string, amount: real, rate: real): (q: Quote)
    ensures q.side == side && q.symbol == symbol && q.amount == amount && q.rate == rate
    ensures q.gross == amount * rate && q.fee == amount * rate * FeePercent(side) / 100.0
    ensures side == Buy ==> q.fiat == amount * rate * (1.0 + BuyFeePercent / 100.0)
    ensures side == Sell ==> q.fiat == amount * rate * (1.0 - SellFeePercent / 100.0)
    ensures amount > 0.0 && q.fiat > 0.0 ==> rate > 0.0 && q.gross > 0.0 && q.fee > 0.0
  {
    var gross := amount * rate;
    var fee := gross * (FeePercent(side) / 100.0);
    assert gross + fee == gross * (1.0 + BuyFeePercent / 100.0);
    assert gross - fee == gross * (1.0 - SellFeePercent / 100.0);
    PositiveFactor(amount, rate);
    Quote(side, symbol, amount, rate, gross, fee, if side == Buy then gross + fee else gross - fee)
  }

  /** With a positive left factor, the product has the sign of the right one. */
  lemma PositiveFactor(a: real, b: real)
    ensures a > 0.0 && b <= 0.0 ==> a * b <= 0.0
    ensures a > 0.0 && b > 0.0 ==> a * b > 0.0
  {
  }

  /** The fields the request rules reject. The symbol rule `in:btc,eth,usdt`
      compares exactly, so an upper-case symbol is rejected. */
  function RequestErrors(req: OrderRequest): (fields: set<Field>)
    ensures SymbolField in fields <==> !(req.symbol.Some? && req.symbol.value in SupportedCryptos)
    ensures AmountField in fields <==> !(req.amount.Some? && req.amount.value >= RequestMinimumAmount)
    ensures fields <= {SymbolField, AmountField}
  {
    (if req.symbol.Some? && req.symbol.value in SupportedCryptos then {} else {SymbolField})
    + (if req.amount.Some? && req.amount.value >= RequestMinimumAmount then {} else {AmountField})
  }

  lemma SupportedAreLowerCase(s: string)
    requires s in SupportedCryptos
    ensures Lower(s) == s && s in MinimumCryptoAmounts
  {
    LowerOfLowerCase(s);
  }

  /** Steps 1 to 5 of the pipeline, in the handler's order: request rules,
      per-symbol minimum, rate availability, then the fee-adjusted minimum. */
  function ValidateOrder(side: Side, req: OrderRequest, rate: Option<real>): (r: Result<Quote, ApiError>)
    ensures RequestErrors(req) != {} ==> r == Err(ValidationFailed(RequestErrors(req)))
    ensures r.Ok? ==>
      && req.symbol.Some? && req.symbol.value in SupportedCryptos && r.value.symbol == req.symbol.value
      && req.amount.Some? && r.value.amount == req.amount.value
      && r.value.amount >= MinimumCryptoAmounts[r.value.symbol]
      && rate.Some? && r.value.rate == rate.value
      && r.value.side == side
      && r.value.gross == r.value.amount * r.value.rate
      && r.value.fee == r.value.amount * r.value.rate * FeePercent(side) / 100.0
      && r.value.fiat >= MinimumTransactionAmount
    ensures r.Ok? ==> r.value.amount > 0.0 && r.value.rate > 0.0 && r.value.gross > 0.0 && r.value.fee > 0.0
    ensures r.Ok? && side == Buy ==> r.value.fiat == r.value.amount * r.value.rate * (1.0 + BuyFeePercent / 100.0)
    ensures r.Ok? && side == Sell ==> r.value.fiat == r.value.amount * r.value.rate * (1.0 - SellFeePercent / 100.0)
    ensures r.Err? ==> r.error.ValidationFailed? || r.error.BelowMinimumAmount? || r.error.RateUnavailable?
                       || r.error.BelowMinimumTransaction?
  {
    var bad := RequestErrors(req);
    if bad != {} then Err(ValidationFailed(bad))
    else
      SupportedAreLowerCase(req.symbol.value);
      var symbol := Lower(req.symbol.value);
      var amount := req.amount.value;
      if amount < MinimumCryptoAmounts[symbol] then Err(BelowMinimumAmount(symbol, MinimumCryptoAmounts[symbol]))
      else if !Truthy(rate) then Err(RateUnavailable(symbol))
      else
        var q := Price(side, symbol, amount, rate.value);
        if q.fiat < MinimumTransactionAmount then Err(BelowMinimumTransaction(MinimumTransactionAmount))
        else Ok(q)
  }

  /** What the handler holds when it enters the database transaction: the
      user, the wallet as it read it, and the priced order. */
  datatype Plan = Plan(user: nat, wallet: Wallet, quote: Quote)

  /** The outcome of a settled order: the new ledger, the trade row, the
      quote, and the balance reported after `$wallet->refresh()`. */
  datatype Settlement = Settlement(ledger: Ledger, trade: Trade, quote: Quote, balance: real)

  /** The unit of work's commit: the database refuses a transaction row whose
      type is outside the column's enum `kinds`, and then nothing is written. */
  function Commit(kinds: set<string>, next: Ledger, t: Trade, x: Transaction, q: Quote, balance: real): (r: Result<Settlement, ApiError>)
    ensures r.Ok? <==> x.kind in kinds
    ensures r.Ok? ==> r.value == Settlement(next, t, q, balance)
    ensures r.Err? ==> r.error == InternalFailure
  {
    if x.kind in kinds then Ok(Settlement(next, t, q, balance)) else Err(InternalFailure)
  }

  /** The effect of a settled buy of `q` by `user` on ledger `l`: the balance
      falls by the total cost, the holding is credited, and exactly one trade
      row and one audit row are appended. */
  predicate BuyApplied(l: Ledger, user: nat, q: Quote, s: Settlement) {
    && user in l.wallets
    && var w := l.wallets[user];
    && s.quote == q
    && s.ledger.wallets == l.wallets[user := w.(balance := w.balance - q.fiat)]
    && s.balance == w.balance - q.fiat
    && s.ledger.holdings == CreditHolding(l.holdings, w.id, q.symbol, q.amount)
    && s.trade == Trade(|l.trades| + 1, user, Buy, q.symbol, q.amount, q.fiat, q.rate, q.fee, Completed)
    && s.ledger.trades == l.trades + [s.trade]
    && s.ledger.transactions == l.transactions +
         [Transaction(|l.transactions| + 1, user, "buy_crypto", q.fiat, Some(Bought(q.amount, q.symbol)),
                      w.balance, w.balance - q.fiat)]
  }

  /** The effect of a settled sell: the holding is debited, the balance rises
      by the net proceeds, one trade row and one audit row are appended. */
  predicate SellApplied(l: Ledger, user: nat, q: Quote, s: Settlement)
  {
    && user in l.wallets
    && var w := l.wallets[user];
    && FindHolding(l.holdings, w.id, q.symbol).Some?
    && s.quote == q
    && s.ledger.wallets == l.wallets[user := w.(balance := w.balance + q.fiat)]
    && s.balance == w.balance + q.fiat
    && s.ledger.holdings == DebitHolding(l.holdings, w.id, q.symbol, q.amount)
    && s.trade == Trade(|l.trades| + 1, user, Sell, q.symbol, q.amount, q.fiat, q.rate, q.fee, Completed)
    && s.ledger.trades == l.trades + [s.trade]
    && s.ledger.transactions == l.transactions +
         [Transaction(|l.transactions| + 1, user, "sell_crypto", q.fiat, Some(Sold(q.amount, q.symbol)),
                      w.balance, w.balance + q.fiat)]
  }

  /** Buy, before the transaction: the pipeline, then the wallet's balance. */
  function QuoteBuy(l: Ledger, user: nat, req: OrderRequest, rate: Option<real>): (r: Result<Plan, ApiError>)
    ensures r.Ok? ==> ValidateOrder(Buy, req, rate) == Ok(r.value.quote)
    ensures r.Ok? ==> r.value.user == user && user in l.wallets && r.value.wallet == l.wallets[user]
    ensures r.Ok? ==> l.wallets[user].balance >= r.value.quote.fiat
    ensures ValidateOrder(Buy, req, rate).Err? ==> r == Err(ValidateOrder(Buy, req, rate).error)
    ensures ValidateOrder(Buy, req, rate).Ok? && user in l.wallets ==>
              var q := ValidateOrder(Buy, req, rate).value;
              l.wallets[user].balance < q.fiat ==> r == Err(InsufficientFunds(q.fiat, l.wallets[user].balance))
    ensures ValidateOrder(Buy, req, rate).Ok? && user !in l.wallets ==> r == Err(InternalFailure)
  {
    match ValidateOrder(Buy, req, rate)
    case Err(e) => Err(e)
    case Ok(q) =>
      if user !in l.wallets then Err(InternalFailure)
      else if l.wallets[user].balance < q.fiat then Err(InsufficientFunds(q.fiat, l.wallets[user].balance))
      else Ok(Plan(user, l.wallets[user], q))
  }

  /** Buy, inside the transaction, against the ledger as it is then: the
      wallet row is re-read under the transaction and the balance checked
      again, then debited; the holding is created at 0 if absent and
      credited; one trade row and one `buy_crypto` row are appended. */
  function SettleBuy(kinds: set<string>, l: Ledger, p: Plan): (r: Result<Settlement, ApiError>)
    ensures r.Ok? ==> p.user in l.wallets && l.wallets[p.user].balance >= p.quote.fiat && "buy_crypto" in kinds
    ensures r.Ok? ==> BuyApplied(l, p.user, p.quote, r.value)
    ensures p.user in l.wallets && l.wallets[p.user].balance < p.quote.fiat ==>
              r == Err(InsufficientFunds(p.quote.fiat, l.wallets[p.user].balance))
    ensures p.user in l.wallets && l.wallets[p.user].balance >= p.quote.fiat ==> (r.Ok? <==> "buy_crypto" in kinds)
    ensures r.Err? ==> r.error.InsufficientFunds? || r.error == InternalFailure
  {
    if p.user !in l.wallets then Err(InternalFailure)
    else
      var w := l.wallets[p.user];
      var q := p.quote;
      if w.balance < q.fiat then Err(InsufficientFunds(q.fiat, w.balance))
      else
        var paid := w.(balance := w.balance - q.fiat);
        var t := Trade(|l.trades| + 1, p.user, Buy, q.symbol, q.amount, q.fiat, q.rate, q.fee, Completed);
        var x := Transaction(|l.transactions| + 1, p.user, "buy_crypto", q.fiat, Some(Bought(q.amount, q.symbol)),
                             w.balance, paid.balance);
        var next := Ledger(l.wallets[p.user := paid], CreditHolding(l.holdings, w.id, q.symbol, q.amount),
                           l.trades + [t], l.transactions + [x]);
        Commit(kinds, next, t, x, q, paid.balance)
  }

  /** The buy handler: the quote, then the settlement in the same state. */
  function BuyOrder(l: Ledger, user: nat, req: OrderRequest, rate: Option<real>): (r: Result<Settlement, ApiError>)
    ensures r.Ok? ==> user in l.wallets && ValidateOrder(Buy, req, rate) == Ok(r.value.quote)
    ensures r.Ok? ==> l.wallets[user].balance >= r.value.quote.fiat && BuyApplied(l, user, r.value.quote, r.value)
    ensures r.Err? && r.error.InsufficientFunds? ==>
      && user in l.wallets && ValidateOrder(Buy, req, rate).Ok? && r.error.available == l.wallets[user].balance
      && r.error.required == ValidateOrder(Buy, req, rate).value.fiat
      && r.error.available < r.error.required
  {
    match QuoteBuy(l, user, req, rate)
    case Err(e) => Err(e)
    case Ok(p) => SettleBuy(TransactionKinds, l, p)
  }

  /** Sell, before the transaction: the pipeline, then the holding row. */
  function QuoteSell(l: Ledger, user: nat, req: OrderRequest, rate: Option<real>): (r: Result<Plan, ApiError>)
    ensures r.Ok? ==> ValidateOrder(Sell, req, rate) == Ok(r.value.quote)
    ensures r.Ok? ==> r.value.user == user && user in l.wallets && r.value.wallet == l.wallets[user]
    ensures r.Ok? ==> FindHolding(l.holdings, l.wallets[user].id, r.value.quote.symbol).Some?
                      && HoldingAmount(l.holdings, l.wallets[user].id, r.value.quote.symbol) >= r.value.quote.amount
    ensures ValidateOrder(Sell, req, rate).Err? ==> r == Err(ValidateOrder(Sell, req, rate).error)
    ensures ValidateOrder(Sell, req, rate).Ok? && user !in l.wallets ==> r == Err(InternalFailure)
    ensures ValidateOrder(Sell, req, rate).Ok? && user in l.wallets ==>
              var q := ValidateOrder(Sell, req, rate).value;
              var held := HoldingAmount(l.holdings, l.wallets[user].id, q.symbol);
              (FindHolding(l.holdings, l.wallets[user].id, q.symbol).None? || held < q.amount)
                ==> r == Err(InsufficientHoldings(q.amount, held))
  {
    match ValidateOrder(Sell, req, rate)
    case Err(e) => Err(e)
    case Ok(q) =>
      if user !in l.wallets then Err(InternalFailure)
      else
        var w := l.wallets[user];
        match FindHolding(l.holdings, w.id, q.symbol)
        case None => Err(InsufficientHoldings(q.amount, 0.0))
        case Some(i) =>
          if l.holdings[i].amount < q.amount then Err(InsufficientHoldings(q.amount, l.holdings[i].amount))
          else Ok(Plan(user, w, q))
  }

  /** Sell, inside the transaction: the holding row is re-read and checked
      again, then debited; the wallet is credited with the net proceeds; one
      trade row and one `sell_crypto` row are appended. */
  function SettleSell(kinds: set<string>, l: Ledger, p: Plan): (r: Result<Settlement, ApiError>)
    ensures r.Ok? ==> p.user in l.wallets && "sell_crypto" in kinds
    ensures r.Ok? ==> FindHolding(l.holdings, l.wallets[p.user].id, p.quote.symbol).Some?
                      && HoldingAmount(l.holdings, l.wallets[p.user].id, p.quote.symbol) >= p.quote.amount
    ensures r.Ok? ==> SellApplied(l, p.user, p.quote, r.value)
    ensures p.user in l.wallets ==>
              var held := HoldingAmount(l.holdings, l.wallets[p.user].id, p.quote.symbol);
              (FindHolding(l.holdings, l.wallets[p.user].id, p.quote.symbol).None? || held < p.quote.amount)
                ==> r == Err(InsufficientHoldings(p.quote.amount, held))
    ensures r.Err? ==> r.error.InsufficientHoldings? || r.error == InternalFailure
  {
    if p.user !in l.wallets then Err(InternalFailure)
    else
      var w := l.wallets[p.user];
      var q := p.quote;
      var held := HoldingAmount(l.holdings, w.id, q.symbol);
      if FindHolding(l.holdings, w.id, q.symbol).None? || held < q.amount then Err(InsufficientHoldings(q.amount, held))
      else
        var paid := w.(balance := w.balance + q.fiat);
        var t := Trade(|l.trades| + 1, p.user, Sell, q.symbol, q.amount, q.fiat, q.rate, q.fee, Completed);
        var x := Transaction(|l.transactions| + 1, p.user, "sell_crypto", q.fiat, Some(Sold(q.amount, q.symbol)),
                             w.balance, paid.balance);
        var next := Ledger(l.wallets[p.user := paid], DebitHolding(l.holdings, w.id, q.symbol, q.amount),
                           l.trades + [t], l.transactions + [x]);
        Commit(kinds, next, t, x, q, paid.balance)
  }

  /** The sell handler: the quote, then the settlement in the same state. */
  function SellOrder(l: Ledger, user: nat, req: OrderRequest, rate: Option<real>): (r: Result<Settlement, ApiError>)
    ensures r.Ok? ==> user in l.wallets && ValidateOrder(Sell, req, rate) == Ok(r.value.quote)
    ensures r.Ok? ==> HoldingAmount(l.holdings, l.wallets[user].id, r.value.quote.symbol) >= r.value.quote.amount
                      && FindHolding(l.holdings, l.wallets[user].id, r.value.quote.symbol).Some?
                      && SellApplied(l, user, r.value.quote, r.value)
    ensures r.Err? && r.error.InsufficientHoldings? ==>
      && user in l.wallets && ValidateOrder(Sell, req, rate).Ok?
      && r.error.required == ValidateOrder(Sell, req, rate).value.amount
      && r.error.available == HoldingAmount(l.holdings, l.wallets[user].id, ValidateOrder(Sell, req, rate).value.symbol)
      && r.error.available < r.error.required
  {
    match QuoteSell(l, user, req, rate)
    case Err(e) => Err(e)
    case Ok(p) => SettleSell(TransactionKinds, l, p)
  }
}
