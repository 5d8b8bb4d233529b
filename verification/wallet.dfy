/** The wallet controller: a naira deposit (a balance increment, then a
    separate audit-row insert, with no database transaction around them),
    the balance read, and the user's transaction list, newest first and
    paginated. */
module Wallets {
  import opened Wrappers
  import opened Schema
  import opened Ledgers
  import opened Api
  import opened Seqs
  import opened Pagination

  /** The `min:` bound of the deposit request's amount rule. */
  const MinimumDeposit: real := 100.0

  /** The ledger after a deposit and the balance the response reports. */
  datatype Deposited = Deposited(ledger: Ledger, balance: real)

  /** add-funds: `amount` is `None` when missing or not numeric. */
  function AddFunds(l: Ledger, user: nat, amount: Option<real>): (r: Result<Deposited, ApiError>)
    ensures r.Ok? <==> amount.Some? && amount.value >= MinimumDeposit && user in l.wallets
    ensures !(amount.Some? && amount.value >= MinimumDeposit) ==> r == Err(ValidationFailed({AmountField}))
    ensures amount.Some? && amount.value >= MinimumDeposit && user !in l.wallets ==> r == Err(InternalFailure)
    ensures r.Ok? ==>
      var w := l.wallets[user];
      var l' := r.value.ledger;
      && l'.wallets == l.wallets[user := w.(balance := w.balance + amount.value)]
      && r.value.balance == l'.wallets[user].balance
      && l'.holdings == l.holdings
      && l'.trades == l.trades
      && l'.transactions == l.transactions +
           [Transaction(|l.transactions| + 1, user, "deposit", amount.value, Some(DepositNote),
                        w.balance, w.balance + amount.value)]
  {
    if !(amount.Some? && amount.value >= MinimumDeposit) then Err(ValidationFailed({AmountField}))
    else if user !in l.wallets then Err(InternalFailure)
    else
      var w := l.wallets[user];
      var credited := w.(balance := w.balance + amount.value);
      var x := Transaction(|l.transactions| + 1, user, "deposit", amount.value, Some(DepositNote),
                           w.balance, credited.balance);
      Ok(Deposited(Ledger(l.wallets[user := credited], l.holdings, l.trades, l.transactions + [x]), credited.balance))
  }

  /** A deposit keeps the ledger invariant: the amount is at least 100, so
      the balance only grows, and the audit row continues the chain. */
  lemma {:induction false} AddFundsKeepsValid(l: Ledger, user: nat, amount: Option<real>)
    requires Valid(l) && AddFunds(l, user, amount).Ok?
    ensures Valid(AddFunds(l, user, amount).value.ledger)
    ensures AddFunds(l, user, amount).value.balance > l.wallets[user].balance
  {
    var l' := AddFunds(l, user, amount).value.ledger;
    var balance := l.wallets[user].balance;
    var x := Transaction(|l.transactions| + 1, user, "deposit", amount.value, Some(DepositNote),
                         balance, balance + amount.value);
    var w' := l.wallets[user].(balance := l.wallets[user].balance + amount.value);
    DepositShape(l, user, amount, x);
    RebalanceKeepsWallets(l.wallets, user, w');
    EntryKeepsWalletsAndAudit(l, user, l.wallets[user].balance + amount.value, w', x, l');
    assert HoldingsOwned(l');
  }

  /** What a deposit writes, spelled out: the wallet's new balance and the
      audit row that continues the user's chain. */
  lemma DepositShape(l: Ledger, user: nat, amount: Option<real>, x: Transaction)
    requires AddFunds(l, user, amount).Ok?
    requires x == Transaction(|l.transactions| + 1, user, "deposit", amount.value, Some(DepositNote),
                              l.wallets[user].balance, l.wallets[user].balance + amount.value)
    ensures var l' := AddFunds(l, user, amount).value.ledger;
            && l'.wallets == l.wallets[user := l.wallets[user].(balance := l.wallets[user].balance + amount.value)]
            && l'.transactions == l.transactions + [x]
            && l'.holdings == l.holdings && l'.trades == l.trades
    ensures x.userId == user && x.newBalance == l.wallets[user].balance + amount.value && ContinuesAudit(l, x)
  {
    assert "deposit" in TransactionKinds && "deposit" in CreditKinds;
  }

  /** The deposit row's type is in the transactions enum as migrated, so a
      deposit is accepted by the schema as written. */
  lemma DepositRowFitsMigratedSchema(l: Ledger, user: nat, amount: Option<real>)
    requires AddFunds(l, user, amount).Ok?
    ensures var xs := AddFunds(l, user, amount).value.ledger.transactions;
            |xs| > 0 && xs[|xs| - 1].kind in MigratedTransactionKinds
  {
  }

  /** What the balance endpoint returns. */
  datatype BalanceView = BalanceView(nairaBalance: real, holdings: seq<Holding>)

  function OwnHolding(walletId: nat): Holding -> bool {
    (h: Holding) => h.walletId == walletId
  }

  /** balance: a read of the wallet and of its holdings; it returns a view and
      no ledger, so it cannot change anything. */
  function Balance(l: Ledger, user: nat): (r: Result<BalanceView, ApiError>)
    ensures r.Ok? <==> user in l.wallets
    ensures r.Err? ==> r.error == InternalFailure
    ensures r.Ok? ==> r.value.nairaBalance == l.wallets[user].balance
    ensures r.Ok? ==> forall h | h in r.value.holdings :: h in l.holdings && h.walletId == l.wallets[user].id
    ensures r.Ok? ==> forall h | h in l.holdings && h.walletId == l.wallets[user].id :: h in r.value.holdings
  {
    if user !in l.wallets then Err(InternalFailure)
    else
      var w := l.wallets[user];
      Ok(BalanceView(w.balance, Filter(l.holdings, OwnHolding(w.id))))
  }

  /** On a valid ledger the view shows a non-negative balance and
      non-negative holdings, at most one per symbol. */
  lemma BalanceViewSound(l: Ledger, user: nat)
    requires Valid(l) && user in l.wallets
    ensures var v := Balance(l, user).value;
            && v.nairaBalance >= 0.0
            && (forall h | h in v.holdings :: h.amount >= 0.0)
  {
  }

  /** A deposit shows in the next balance read as exactly the amount more,
      with the same holdings. */
  lemma BalanceAfterDeposit(l: Ledger, user: nat, amount: Option<real>)
    requires AddFunds(l, user, amount).Ok?
    ensures var l' := AddFunds(l, user, amount).value.ledger;
            && Balance(l', user).Ok?
            && Balance(l', user).value.nairaBalance == Balance(l, user).value.nairaBalance + amount.value
            && Balance(l', user).value.holdings == Balance(l, user).value.holdings
  {
  }

  function OwnTransaction(user: nat): Transaction -> bool {
    (t: Transaction) => t.userId == user
  }

  function TransactionId(t: Transaction): int {
    t.id
  }

  /** The user's audit rows, newest first (`latest()`). */
  function TransactionLog(l: Ledger, user: nat): seq<Transaction> {
    Reverse(Filter(l.transactions, OwnTransaction(user)))
  }

  lemma SequentialTransactionsIncrease(xs: seq<Transaction>)
    requires TransactionIdsSequential(xs)
    ensures Increasing(xs, TransactionId)
  {
  }

  /** transactions: one page of the user's rows, newest first, defaults page 1
      and 20 per page; no other user's row is ever returned. */
  function Transactions(l: Ledger, user: nat, page: Option<int>, perPage: Option<nat>): (p: Page<Transaction>)
    ensures forall t | t in p.items :: t in l.transactions && t.userId == user
    ensures p.total == |Filter(l.transactions, OwnTransaction(user))|
    ensures p.perPage == EffectivePerPage(perPage.GetOr(DefaultPerPage))
    ensures p.currentPage == EffectivePage(page.GetOr(DefaultPage))
    ensures p.lastPage == LastPage(p.total, p.perPage)
  {
    ReverseSameElements(Filter(l.transactions, OwnTransaction(user)));
    PageItemsIn(TransactionLog(l, user), page.GetOr(DefaultPage), perPage.GetOr(DefaultPerPage));
    Paginate(TransactionLog(l, user), page.GetOr(DefaultPage), perPage.GetOr(DefaultPerPage))
  }

  /** With ids assigned in insertion order, every page lists the user's
      rows strictly newest first. */
  lemma TransactionsNewestFirst(l: Ledger, user: nat, page: Option<int>, perPage: Option<nat>)
    requires TransactionIdsSequential(l.transactions)
    ensures Decreasing(Transactions(l, user, page, perPage).items, TransactionId)
  {
    var own := Filter(l.transactions, OwnTransaction(user));
    var all := Reverse(own);
    assert Decreasing(all, TransactionId) by {
      SequentialTransactionsIncrease(l.transactions);
      FilterKeepsIncreasing(l.transactions, OwnTransaction(user), TransactionId);
      ReverseOfIncreasing(own, TransactionId);
    }
    var p := Paginate(all, page.GetOr(DefaultPage), perPage.GetOr(DefaultPerPage));
    assert Transactions(l, user, page, perPage) == p;
    if |p.items| > 0 {
      RunOfDecreasing(all, p.items, Offset(p.currentPage, p.perPage), TransactionId);
    }
  }

  /** The transactions endpoint at one page size, as a function of the page. */
  function TransactionPages(l: Ledger, user: nat, perPage: Option<nat>): nat -> seq<Transaction> {
    (k: nat) => Transactions(l, user, Some(k), perPage).items
  }

  /** Page `k` of the endpoint is window `k` of the user's newest-first log. */
  lemma TransactionsPageOfLog(l: Ledger, user: nat, perPage: Option<nat>, k: nat)
    requires k >= 1
    ensures Transactions(l, user, Some(k), perPage).items
            == Paginate(TransactionLog(l, user), k, EffectivePerPage(perPage.GetOr(DefaultPerPage))).items
  {
  }

  /** Every page of the endpoint is the matching window of the log. */
  lemma TransactionPagesAreWindows(l: Ledger, user: nat, perPage: Option<nat>)
    ensures forall i: nat | 1 <= i :: TransactionPages(l, user, perPage)(i)
              == Paginate(TransactionLog(l, user), i, EffectivePerPage(perPage.GetOr(DefaultPerPage))).items
  {
    forall i: nat | 1 <= i
      ensures TransactionPages(l, user, perPage)(i)
              == Paginate(TransactionLog(l, user), i, EffectivePerPage(perPage.GetOr(DefaultPerPage))).items
    {
      TransactionsPageOfLog(l, user, perPage, i);
    }
  }

  /** The endpoint's page count is the one the whole log needs. */
  lemma TransactionsLastPage(l: Ledger, user: nat, page: Option<int>, perPage: Option<nat>)
    ensures Transactions(l, user, page, perPage).lastPage
            == LastPage(|TransactionLog(l, user)|, EffectivePerPage(perPage.GetOr(DefaultPerPage)))
  {
    assert |TransactionLog(l, user)| == |Filter(l.transactions, OwnTransaction(user))|;
  }

  /** Walking the endpoint's pages 1 to last_page returns every audit row of
      the user, each once, newest first. */
  lemma TransactionsPagesCoverAll(l: Ledger, user: nat, page: Option<int>, perPage: Option<nat>)
    ensures var p := Transactions(l, user, page, perPage);
            JoinPages(TransactionPages(l, user, perPage), p.lastPage) == TransactionLog(l, user)
  {
    var p := Transactions(l, user, page, perPage);
    TransactionsLastPage(l, user, page, perPage);
    TransactionPagesAreWindows(l, user, perPage);
    WindowPagesCoverAll(TransactionPages(l, user, perPage), TransactionLog(l, user), EffectivePerPage(perPage.GetOr(DefaultPerPage)), p.lastPage);
  }
}
