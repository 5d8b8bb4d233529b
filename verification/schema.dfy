/** The rows of the four tables the trading core writes, and the column
    constraints their migrations declare: the `trades.type` and
    `trades.status` enums, the `transactions.type` enum, the nullable
    description, and the decimal scales. Monetary values are exact reals;
    the scale of a column is stated as a predicate. */
module Schema {
  import opened Wrappers

  /** `trades.type`: exactly one of buy or sell. */
  datatype Side = Buy | Sell

  /** `trades.status`: pending, completed or failed. */
  datatype Status = Pending | Completed | Failed

  /** The column default of `trades.status`. */
  const DefaultTradeStatus: Status := Pending

  /** The column default of `crypto_holdings.amount`. */
  const DefaultHoldingAmount: real := 0.0

  /** Fractional digits of `crypto_holdings.amount` and `trades.amount`. */
  const CryptoScale: nat := 8

  /** Fractional digits of every naira column: `trades.naira_amount`,
      `trades.rate`, `trades.fee` and the three transaction amounts. */
  const NairaScale: nat := 2

  /** One wallet per user: its own row id and its naira balance. */
  datatype Wallet = Wallet(id: nat, balance: real)

  /** A `crypto_holdings` row: the owning wallet, the symbol and the amount. */
  datatype Holding = Holding(walletId: nat, symbol: string, amount: real)

  /** A `trades` row. `id` is the auto-increment key; `userId` the one owner. */
  datatype Trade = Trade(
    id: nat,
    userId: nat,
    side: Side,
    symbol: string,
    amount: real,
    nairaAmount: real,
    rate: real,
    fee: real,
    status: Status)

  /** The free-text `transactions.description` written by each operation,
      kept symbolic rather than as formatted text. */
  datatype Memo = Bought(amount: real, symbol: string) | Sold(amount: real, symbol: string) | DepositNote

  /** A `transactions` row. `kind` is the string written to the `type`
      column, so that a value outside the column's enum can be represented. */
  datatype Transaction = Transaction(
    id: nat,
    userId: nat,
    kind: string,
    amount: real,
    description: Option<Memo>,
    previousBalance: real,
    newBalance: real)

  /** The `transactions.type` enum exactly as the migration declares it. */
  const MigratedTransactionKinds: set<string> := {"deposit", "withdrawal", "trade_fee", "trade_credit"}

  /** The enum extended with the two values the trade path writes; this is
      the schema the rest of the model runs against. */
  const TransactionKinds: set<string> := MigratedTransactionKinds + {"buy_crypto", "sell_crypto"}

  /** Kinds that credit the balance; every other kind debits it. */
  const CreditKinds: set<string> := {"deposit", "trade_credit", "sell_crypto"}

  /** The amount a transaction row moves the balance by, signed. */
  function SignedAmount(t: Transaction): real {
    if t.kind in CreditKinds then t.amount else -t.amount
  }

  /** `x` has at most `digits` fractional decimal digits. */
  predicate HasScale(x: real, digits: nat) {
    var scaled := x * Pow10(digits);
    scaled.Floor as real == scaled
  }

  function Pow10(n: nat): (r: real)
    ensures r >= 1.0
  {
    if n == 0 then 1.0 else 10.0 * Pow10(n - 1)
  }

  /** A trade row fits its columns' declared scales. */
  predicate TradeFitsColumns(t: Trade) {
    && HasScale(t.amount, CryptoScale)
    && HasScale(t.nairaAmount, NairaScale)
    && HasScale(t.rate, NairaScale)
    && HasScale(t.fee, NairaScale)
  }

  /** A transaction row fits the `type` enum `kinds` and its declared scales. */
  predicate TransactionFitsColumns(t: Transaction, kinds: set<string>) {
    && t.kind in kinds
    && HasScale(t.amount, NairaScale)
    && HasScale(t.previousBalance, NairaScale)
    && HasScale(t.newBalance, NairaScale)
  }
}
