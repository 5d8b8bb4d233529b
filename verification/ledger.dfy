/** The ledger store: the four tables as one immutable value, the holding
    lookups and updates the trade path performs on `crypto_holdings`, and
    the invariant every operation keeps. */
module Ledgers {
  import opened Wrappers
  import opened Schema

  /** `wallets` maps a user id to that user's single wallet; the three
      tables are kept in insertion order. */
  datatype Ledger = Ledger(
    wallets: map<nat, Wallet>,
    holdings: seq<Holding>,
    trades: seq<Trade>,
    transactions: seq<Transaction>)

  predicate Matches(h: Holding, walletId: nat, symbol: string) {
    h.walletId == walletId && h.symbol == symbol
  }

  /** The position of the first row for (walletId, symbol), as a
      `where wallet_id = ? and crypto_symbol = ? first()` query finds it. */
  function FindHolding(hs: seq<Holding>, walletId: nat, symbol: string): (r: Option<nat>)
    ensures r.Some? ==> r.value < |hs| && Matches(hs[r.value], walletId, symbol)
    ensures r.Some? ==> forall i | 0 <= i < r.value :: !Matches(hs[i], walletId, symbol)
    ensures r.None? <==> forall i | 0 <= i < |hs| :: !Matches(hs[i], walletId, symbol)
    decreases |hs|
  {
    if |hs| == 0 then None
    else if Matches(hs[0], walletId, symbol) then Some(0)
    else
      match FindHolding(hs[1..], walletId, symbol)
      case None => None
      case Some(i) => Some(i + 1)
  }

  /** The lookup finds the first matching row and no other. */
  lemma FindHoldingIsFirst(hs: seq<Holding>, walletId: nat, symbol: string, k: nat)
    requires k < |hs| && Matches(hs[k], walletId, symbol)
    requires forall i | 0 <= i < k :: !Matches(hs[i], walletId, symbol)
    ensures FindHolding(hs, walletId, symbol) == Some(k)
  {
  }

  /** The amount held, or 0 when there is no row (`$holding?->amount ?? 0`). */
  function HoldingAmount(hs: seq<Holding>, walletId: nat, symbol: string): real {
    match FindHolding(hs, walletId, symbol)
    case Some(i) => hs[i].amount
    case None => 0.0
  }

  /** At most one row per (wallet_id, crypto_symbol): the table's unique index. */
  predicate HoldingsUnique(hs: seq<Holding>) {
    forall i, j | 0 <= i < j < |hs| :: !Matches(hs[j], hs[i].walletId, hs[i].symbol)
  }

  /** `firstOrCreate([...], ['amount' => 0])` followed by `increment('amount', amount)`. */
  function CreditHolding(hs: seq<Holding>, walletId: nat, symbol: string, amount: real): (r: seq<Holding>)
    ensures FindHolding(r, walletId, symbol).Some?
    ensures HoldingAmount(r, walletId, symbol) == HoldingAmount(hs, walletId, symbol) + amount
    ensures FindHolding(hs, walletId, symbol).Some? ==> |r| == |hs|
    ensures FindHolding(hs, walletId, symbol).None? ==>
              |r| == |hs| + 1 && r[|hs|] == Holding(walletId, symbol, DefaultHoldingAmount + amount)
    ensures forall i | 0 <= i < |hs| && !Matches(hs[i], walletId, symbol) :: r[i] == hs[i]
    ensures forall i | 0 <= i < |hs| :: Matches(r[i], hs[i].walletId, hs[i].symbol)
    ensures HoldingsUnique(hs) ==> HoldingsUnique(r)
    ensures HoldingsNonNegative(hs) && amount >= 0.0 ==> HoldingsNonNegative(r)
  {
    match FindHolding(hs, walletId, symbol)
    case Some(i) =>
      var r := hs[i := hs[i].(amount := hs[i].amount + amount)];
      FindHoldingIsFirst(r, walletId, symbol, i);
      r
    case None =>
      var r := hs + [Holding(walletId, symbol, DefaultHoldingAmount + amount)];
      FindHoldingIsFirst(r, walletId, symbol, |hs|);
      r
  }

  /** `$holding->decrement('amount', amount)` on the row the lookup found. */
  function DebitHolding(hs: seq<Holding>, walletId: nat, symbol: string, amount: real): (r: seq<Holding>)
    requires FindHolding(hs, walletId, symbol).Some?
    ensures |r| == |hs|
    ensures FindHolding(r, walletId, symbol).Some?
    ensures HoldingAmount(r, walletId, symbol) == HoldingAmount(hs, walletId, symbol) - amount
    ensures forall i | 0 <= i < |hs| && !Matches(hs[i], walletId, symbol) :: r[i] == hs[i]
    ensures forall i | 0 <= i < |hs| :: Matches(r[i], hs[i].walletId, hs[i].symbol)
    ensures HoldingsUnique(hs) ==> HoldingsUnique(r)
    ensures HoldingsNonNegative(hs) && HoldingAmount(hs, walletId, symbol) >= amount ==> HoldingsNonNegative(r)
  {
    var i := FindHolding(hs, walletId, symbol).value;
    var r := hs[i := hs[i].(amount := hs[i].amount - amount)];
    FindHoldingIsFirst(r, walletId, symbol, i);
    r
  }

  /** The most recent transaction row of `user`, if any. */
  function LastEntryFor(xs: seq<Transaction>, user: nat): (r: Option<Transaction>)
    ensures r.Some? ==> r.value in xs && r.value.userId == user
    ensures r.None? <==> forall i | 0 <= i < |xs| :: xs[i].userId != user
    decreases |xs|
  {
    if |xs| == 0 then None
    else if xs[|xs| - 1].userId == user then Some(xs[|xs| - 1])
    else LastEntryFor(xs[..|xs| - 1], user)
  }

  lemma LastEntryAppend(xs: seq<Transaction>, x: Transaction, user: nat)
    ensures LastEntryFor(xs + [x], user) == if x.userId == user then Some(x) else LastEntryFor(xs, user)
  {
    assert (xs + [x])[..|xs|] == xs;
  }

  function WalletIds(ws: map<nat, Wallet>): set<nat> {
    set u | u in ws :: ws[u].id
  }

  predicate BalancesNonNegative(ws: map<nat, Wallet>) {
    forall u | u in ws :: ws[u].balance >= 0.0
  }

  /** One wallet per user: no two users share a wallet row. */
  predicate WalletIdsDistinct(ws: map<nat, Wallet>) {
    forall u, v | u in ws && v in ws && u != v :: ws[u].id != ws[v].id
  }

  predicate HoldingsNonNegative(hs: seq<Holding>) {
    forall i | 0 <= i < |hs| :: hs[i].amount >= 0.0
  }

  predicate OwnedBy(hs: seq<Holding>, ids: set<nat>) {
    forall i | 0 <= i < |hs| :: hs[i].walletId in ids
  }

  /** Every holding belongs to an existing wallet (the foreign key). */
  predicate HoldingsOwned(l: Ledger) {
    OwnedBy(l.holdings, WalletIds(l.wallets))
  }

  lemma CreditKeepsOwned(hs: seq<Holding>, ids: set<nat>, walletId: nat, symbol: string, amount: real)
    requires OwnedBy(hs, ids) && walletId in ids
    ensures OwnedBy(CreditHolding(hs, walletId, symbol, amount), ids)
  {
    var r := CreditHolding(hs, walletId, symbol, amount);
    forall i | 0 <= i < |r| ensures r[i].walletId in ids {
      if i < |hs| {
        assert Matches(r[i], hs[i].walletId, hs[i].symbol);
      }
    }
  }

  lemma DebitKeepsOwned(hs: seq<Holding>, ids: set<nat>, walletId: nat, symbol: string, amount: real)
    requires OwnedBy(hs, ids) && FindHolding(hs, walletId, symbol).Some?
    ensures OwnedBy(DebitHolding(hs, walletId, symbol, amount), ids)
  {
    var r := DebitHolding(hs, walletId, symbol, amount);
    forall i | 0 <= i < |r| ensures r[i].walletId in ids {
      assert Matches(r[i], hs[i].walletId, hs[i].symbol);
    }
  }

  /** Auto-increment keys: the row at position i has id i + 1. */
  predicate TradeIdsSequential(ts: seq<Trade>) {
    forall i | 0 <= i < |ts| :: ts[i].id == i + 1
  }

  predicate TransactionIdsSequential(xs: seq<Transaction>) {
    forall i | 0 <= i < |xs| :: xs[i].id == i + 1
  }

  /** Rows the trading core writes: completed, for a positive amount at a
      positive rate. */
  predicate TradesSettled(ts: seq<Trade>) {
    forall i | 0 <= i < |ts| :: ts[i].status == Completed && ts[i].amount > 0.0 && ts[i].rate > 0.0
  }

  predicate TransactionsInSchema(xs: seq<Transaction>) {
    forall i | 0 <= i < |xs| :: xs[i].kind in TransactionKinds
  }

  /** Each audit row records a balance change of exactly its signed amount. */
  predicate EntriesBalanced(xs: seq<Transaction>) {
    forall i | 0 <= i < |xs| :: xs[i].newBalance == xs[i].previousBalance + SignedAmount(xs[i])
  }

  /** Each audit row starts from the balance the user's previous row ended at. */
  predicate EntriesChained(xs: seq<Transaction>) {
    forall i | 0 <= i < |xs| ::
      LastEntryFor(xs[..i], xs[i].userId).Some? ==>
        LastEntryFor(xs[..i], xs[i].userId).value.newBalance == xs[i].previousBalance
  }

  /** The user's latest audit row ends at the wallet's current balance. */
  predicate AuditMatchesBalances(l: Ledger) {
    forall u | u in l.wallets ::
      LastEntryFor(l.transactions, u).Some? ==> LastEntryFor(l.transactions, u).value.newBalance == l.wallets[u].balance
  }

  /** Every audit row belongs to a user that has a wallet. */
  predicate EntriesOwned(l: Ledger) {
    forall i | 0 <= i < |l.transactions| :: l.transactions[i].userId in l.wallets
  }

  /** The ledger invariant: the schema's constraints plus the economic ones. */
  predicate Valid(l: Ledger) {
    && BalancesNonNegative(l.wallets)
    && WalletIdsDistinct(l.wallets)
    && HoldingsNonNegative(l.holdings)
    && HoldingsUnique(l.holdings)
    && HoldingsOwned(l)
    && TradeIdsSequential(l.trades)
    && TradesSettled(l.trades)
    && TransactionIdsSequential(l.transactions)
    && TransactionsInSchema(l.transactions)
    && EntriesBalanced(l.transactions)
    && EntriesChained(l.transactions)
    && EntriesOwned(l)
    && AuditMatchesBalances(l)
  }

  /** The next audit row of a user, continuing the chain from the wallet's
      balance. */
  predicate ContinuesAudit(l: Ledger, x: Transaction) {
    && x.userId in l.wallets
    && x.id == |l.transactions| + 1
    && x.kind in TransactionKinds
    && x.previousBalance == l.wallets[x.userId].balance
    && x.newBalance == x.previousBalance + SignedAmount(x)
  }

  /** Appending a row that starts where its user's latest row ended keeps
      every row chained to its predecessor. */
  lemma {:induction false} AppendKeepsChained(xs: seq<Transaction>, x: Transaction)
    requires EntriesChained(xs)
    requires LastEntryFor(xs, x.userId).Some? ==> LastEntryFor(xs, x.userId).value.newBalance == x.previousBalance
    ensures EntriesChained(xs + [x])
  {
    var xs' := xs + [x];
    forall i | 0 <= i < |xs'|
      ensures LastEntryFor(xs'[..i], xs'[i].userId).Some? ==>
                LastEntryFor(xs'[..i], xs'[i].userId).value.newBalance == xs'[i].previousBalance
    {
      if i < |xs| {
        assert xs'[..i] == xs[..i];
        assert xs'[i] == xs[i];
      } else {
        assert xs'[..i] == xs;
      }
    }
  }

  /** Appending the next well-formed row keeps the row-local constraints:
      sequential ids, enum kinds and balanced entries. */
  lemma AppendKeepsRows(xs: seq<Transaction>, x: Transaction)
    requires TransactionIdsSequential(xs) && TransactionsInSchema(xs) && EntriesBalanced(xs)
    requires x.id == |xs| + 1 && x.kind in TransactionKinds && x.newBalance == x.previousBalance + SignedAmount(x)
    ensures TransactionIdsSequential(xs + [x]) && TransactionsInSchema(xs + [x]) && EntriesBalanced(xs + [x])
  {
    assert forall i | 0 <= i < |xs| :: (xs + [x])[i] == xs[i];
  }

  /** After the append, every user's latest row ends at the new balances. */
  lemma {:induction false} AppendKeepsBalancesMatched(l: Ledger, x: Transaction, wallets: map<nat, Wallet>)
    requires AuditMatchesBalances(l)
    requires x.userId in l.wallets
    requires wallets.Keys == l.wallets.Keys
    requires wallets[x.userId].balance == x.newBalance
    requires forall u | u in wallets && u != x.userId :: wallets[u] == l.wallets[u]
    ensures forall u | u in wallets ::
              LastEntryFor(l.transactions + [x], u).Some? ==>
                LastEntryFor(l.transactions + [x], u).value.newBalance == wallets[u].balance
  {
    forall u | u in wallets
      ensures LastEntryFor(l.transactions + [x], u).Some? ==>
                LastEntryFor(l.transactions + [x], u).value.newBalance == wallets[u].balance
    {
      LastEntryAppend(l.transactions, x, u);
    }
  }

  /** Appending an audit row that continues the chain, and moving the wallet
      balance to the row's new balance, keeps the audit part of the invariant. */
  lemma {:induction false} RecordEntryKeepsAudit(l: Ledger, x: Transaction, l': Ledger)
    requires TransactionIdsSequential(l.transactions) && TransactionsInSchema(l.transactions)
    requires EntriesBalanced(l.transactions) && EntriesChained(l.transactions)
    requires EntriesOwned(l) && AuditMatchesBalances(l)
    requires ContinuesAudit(l, x)
    requires l'.transactions == l.transactions + [x]
    requires l'.wallets.Keys == l.wallets.Keys
    requires l'.wallets[x.userId].balance == x.newBalance
    requires forall u | u in l'.wallets && u != x.userId :: l'.wallets[u] == l.wallets[u]
    ensures TransactionIdsSequential(l'.transactions) && TransactionsInSchema(l'.transactions)
    ensures EntriesBalanced(l'.transactions) && EntriesChained(l'.transactions)
    ensures EntriesOwned(l') && AuditMatchesBalances(l')
  {
    AppendKeepsRows(l.transactions, x);
    AppendKeepsChained(l.transactions, x);
    RecordEntryKeepsOwners(l, x, l');
  }

  /** The appended row's user has a wallet, and every user's latest row ends
      at the new balances. */
  lemma RecordEntryKeepsOwners(l: Ledger, x: Transaction, l': Ledger)
    requires EntriesOwned(l) && AuditMatchesBalances(l)
    requires x.userId in l.wallets
    requires l'.transactions == l.transactions + [x]
    requires l'.wallets.Keys == l.wallets.Keys
    requires l'.wallets[x.userId].balance == x.newBalance
    requires forall u | u in l'.wallets && u != x.userId :: l'.wallets[u] == l.wallets[u]
    ensures EntriesOwned(l') && AuditMatchesBalances(l')
  {
    AppendKeepsBalancesMatched(l, x, l'.wallets);
    assert forall i | 0 <= i < |l.transactions| :: l'.transactions[i] == l.transactions[i];
  }

  /** The wallet and audit part of the invariant survives one wallet moving
      to a new non-negative balance when one appended audit row, continuing
      that user's chain, records the move. */
  lemma EntryKeepsWalletsAndAudit(l: Ledger, user: nat, balance: real, w': Wallet, x: Transaction, l': Ledger)
    requires BalancesNonNegative(l.wallets) && WalletIdsDistinct(l.wallets)
    requires TransactionIdsSequential(l.transactions) && TransactionsInSchema(l.transactions)
    requires EntriesBalanced(l.transactions) && EntriesChained(l.transactions)
    requires EntriesOwned(l) && AuditMatchesBalances(l)
    requires user in l.wallets && balance >= 0.0
    requires w' == l.wallets[user].(balance := balance) && l'.wallets == l.wallets[user := w']
    requires l'.transactions == l.transactions + [x]
    requires x.userId == user && x.newBalance == balance && ContinuesAudit(l, x)
    ensures BalancesNonNegative(l'.wallets) && WalletIdsDistinct(l'.wallets)
    ensures TransactionIdsSequential(l'.transactions) && TransactionsInSchema(l'.transactions)
    ensures EntriesBalanced(l'.transactions) && EntriesChained(l'.transactions)
    ensures EntriesOwned(l') && AuditMatchesBalances(l')
  {
    RebalanceKeepsWallets(l.wallets, user, w');
    RecordEntryKeepsAudit(l, x, l');
  }

  /** Replacing one wallet's row by one with the same id keeps every wallet
      id, so the one-wallet-per-user and foreign-key constraints are
      untouched. */
  lemma RebalanceKeepsWallets(ws: map<nat, Wallet>, u: nat, w': Wallet)
    requires u in ws && w'.id == ws[u].id
    ensures WalletIds(ws[u := w']) == WalletIds(ws)
    ensures WalletIdsDistinct(ws) ==> WalletIdsDistinct(ws[u := w'])
    ensures BalancesNonNegative(ws) && w'.balance >= 0.0 ==> BalancesNonNegative(ws[u := w'])
  {
    var ws' := ws[u := w'];
    forall id | id in WalletIds(ws) ensures id in WalletIds(ws') {
      var v :| v in ws && ws[v].id == id;
      assert ws'[v].id == id;
    }
    forall id | id in WalletIds(ws') ensures id in WalletIds(ws) {
      var v :| v in ws' && ws'[v].id == id;
      assert ws[v].id == id;
    }
  }
}
