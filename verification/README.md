# Trade settlement core of a naira crypto exchange, in Dafny

This project models the core of a custodial crypto exchange API. Users hold a naira balance in a wallet. They buy and sell BTC, ETH and USDT against a rate from a price client, and the platform keeps a 2% fee on both sides. The model covers:

- **The trade controller.**
  - `buy` and `sell` run a fixed, short-circuiting pipeline. It checks the request rules, the per-symbol minimum, the rate, the fee arithmetic, the ₦5,000 fiat minimum, and the balance or holding.
  - A buy or sell then settles, changing the wallet, the holding, and the `trades` and `transactions` tables in one atomic step.
  - `history` returns the user's trades, filtered, newest first and paginated.
  - `rates` is the public rate table.
- **The wallet controller.**
  - `addFunds` is a deposit. It increments the balance and then writes an audit row. The two writes are separate statements with no database transaction around them, and the model takes them as one step (see Left out).
  - `balance` is a read.
  - `transactions` returns the user's audit rows, newest first and paginated.
- **The price client.**
  - `getRate` derives a rate from NGN, falling back to USD×1550, with a cache short-circuit.
  - `getAllRates`.
  - The OHLC day snapping.
  - The markets page-size clamp and its page cache.
  - The 24-hour gainers/losers ranking.
- **The three migrations.** They define the rows of `crypto_holdings`, `trades` and `transactions`, with their enums, defaults, uniqueness and decimal scales.

The state is an immutable `Ledger`:

- **Wallets:** a map from user to wallet id and balance.
- **Three tables:** each is a sequence of rows in insertion order. A row's auto-increment id is its position plus one, and "latest first" means descending id.

Money is exact `real`. A decimal column's scale is stated as a predicate (`Schema.HasScale`) and is not enforced by rounding.

Every operation is a pure function returning `Result<_, ApiError>`. `Api.HttpStatus` maps each error to the status the handler answers with:

- 422 for request and business-rule refusals;
- 503 for an unavailable rate;
- 500 for anything the handler's catch-all turns into "Trade failed".

The HTTP call and the cache are inputs. A response is `Option<...>`, where `None` means a failed request. The cache is a map.

Each buy and sell is split into two parts:

- **The part before the database transaction:** `Trading.QuoteBuy` and `Trading.QuoteSell`. These are the pipeline plus the wallet or holding read.
- **The unit of work:** `Trading.SettleBuy` and `Trading.SettleSell`. These run against the ledger as it is when the transaction runs.

The corrected unit of work re-checks the balance or holding under the transaction. The code as written does not; see Findings.

The model follows the code where the design notes differ from it:

- **Symbol case.** The symbol rule `in:btc,eth,usdt` compares exactly, so `"BTC"` is refused with 422 even though the design lists the symbols in upper case. `Scenarios.UpperCaseSymbolScenario` shows this.
- **Page size.** The history and transactions endpoints pass `per_page` through uncapped, although the design asks for a bounded page size.

Pagination is the framework's `paginate`:

- `per_page` 0 falls back to 15;
- a page below 1 is page 1;
- `last_page` is `max(ceil(total / per_page), 1)`.

## Model

| member | source | states |
|---|---|---|
| Trading.RequestErrors | app/Http/Controllers/Api/TradeController.php:77-80 | the symbol field is refused exactly when it is missing or not one of btc, eth, usdt (case-sensitive); the amount field exactly when it is missing or below 0.0001 |
| Trading.ValidateOrder | app/Http/Controllers/Api/TradeController.php:77-111 | an accepted order has a supported symbol, an amount at or above the symbol's minimum, an available rate, gross = amount × rate, fee = amount × rate × 2/100, a fiat amount of at least 5,000, and total = amount·rate·1.02 (buy) or net = amount·rate·0.98 (sell); refusals are only the four pipeline errors |
| TradingProperties.ValidateOrderAccepts | app/Http/Controllers/Api/TradeController.php:77-111 | the pipeline accepts an order if and only if the independent predicate `OrderAcceptable` holds, and the fiat amount equals `TotalCost` / `NetProceeds` |
| TradingProperties.PipelineOrder | app/Http/Controllers/Api/TradeController.php:77-111 | the error reported is the first failing step in the order request rules, per-symbol minimum, rate, fiat minimum |
| Trading.QuoteBuy | app/Http/Controllers/Api/TradeController.php:113-126 | after the pipeline, a balance below the total is refused with required = total and available = balance; a missing wallet is a 500 |
| Trading.SettleBuy | app/Http/Controllers/Api/TradeController.php:128-172 | inside the transaction the balance is checked again; a committed buy satisfies `BuyApplied`: balance − total, holding credited, one completed buy row and one `buy_crypto` audit row with previous/new balances |
| Trading.Commit | database/migrations/2026_02_13_100003_create_transactions_table.php:13 | the unit of work commits exactly when the audit row's type is in the column's enum, else nothing is written and the answer is 500 |
| Trading.BuyOrder | app/Http/Controllers/Api/TradeController.php:74-194 | a successful buy passed the pipeline, had balance ≥ total, and applies exactly `BuyApplied`; a funds refusal reports the total and the balance |
| Trading.QuoteSell | app/Http/Controllers/Api/TradeController.php:257-273 | after the pipeline, a missing holding or one below the amount is refused with required = amount and available = the holding, or 0 when absent |
| Trading.SettleSell | app/Http/Controllers/Api/TradeController.php:276-316 | inside the transaction the holding is checked again; a committed sell satisfies `SellApplied`: holding − amount, balance + net, one completed sell row and one `sell_crypto` audit row |
| Trading.SellOrder | app/Http/Controllers/Api/TradeController.php:217-338 | a successful sell passed the pipeline, had a holding ≥ amount, and applies exactly `SellApplied`; a holdings refusal reports the amount and the holding |
| TradingProperties.BuySucceedsIff | app/Http/Controllers/Api/TradeController.php:100-126 | a buy succeeds if and only if the order is acceptable, the wallet exists and the balance covers `TotalCost` |
| TradingProperties.SellSucceedsIff | app/Http/Controllers/Api/TradeController.php:244-273 | a sell succeeds if and only if the order is acceptable and the wallet holds a row for the symbol of at least the amount |
| TradingProperties.BuyWalletChecks | app/Http/Controllers/Api/TradeController.php:113-126 | for an acceptable order: no wallet gives 500, a short balance gives InsufficientFunds(total, balance), otherwise the buy succeeds |
| TradingProperties.SellHoldingChecks | app/Http/Controllers/Api/TradeController.php:257-273 | for an acceptable order: no wallet gives 500, no holding gives InsufficientHoldings(amount, 0), a short holding gives InsufficientHoldings(amount, holding) |
| Trading.Price | app/Http/Controllers/Api/TradeController.php:101-104 | the quote's gross is amount × rate, its fee 2% of that, its total gross + fee on a buy and net gross − fee on a sell; a positive amount priced to a positive total had a positive rate, gross and fee |
| TradingProperties.BuyEffects | app/Http/Controllers/Api/TradeController.php:138-172 | after a buy the balance is exactly old − total, the holding exactly old (or 0) + amount, every other wallet and holding is unchanged, each table gained exactly one row, and the trade row carries the validated quote |
| TradingProperties.SellEffects | app/Http/Controllers/Api/TradeController.php:286-316 | after a sell the holding is exactly old − amount and stays ≥ 0, the balance exactly old + net, nothing else changes, each table gained exactly one row, and the trade row carries the validated quote |
| TradingProperties.QuotedPlansAreSound | app/Http/Controllers/Api/TradeController.php:100-111 | every quote the pipeline produces has a positive amount and rate and a non-negative fiat amount |
| TradingProperties.SettleBuyKeepsValid | app/Http/Controllers/Api/TradeController.php:128-172 | a committed buy keeps the ledger invariant `Valid`, for any ledger state at commit time |
| TradingProperties.BuyAppliedKeepsValid | app/Http/Controllers/Api/TradeController.php:138-172 | the effect of a buy covered by the balance keeps no negative balance, unique owned holdings, sequential ids and an unbroken audit chain |
| TradingProperties.SettleSellKeepsValid | app/Http/Controllers/Api/TradeController.php:276-316 | a committed sell keeps the ledger invariant, for any ledger state at commit time |
| TradingProperties.SellAppliedKeepsValid | app/Http/Controllers/Api/TradeController.php:286-316 | the effect of a sell covered by the holding keeps the ledger invariant |
| TradingProperties.BuyKeepsValid | app/Http/Controllers/Api/TradeController.php:74-194 | a successful buy handler keeps the ledger invariant |
| TradingProperties.SellKeepsValid | app/Http/Controllers/Api/TradeController.php:217-338 | a successful sell handler keeps the ledger invariant |
| Api.HttpStatus | app/Http/Controllers/Api/TradeController.php:195-209 | an unavailable rate answers 503, an internal failure 500, every other refusal 422 |
| Ledgers.FindHolding | app/Http/Controllers/Api/TradeController.php:262-264 | the holding lookup finds the first row for (wallet, symbol), or reports none exactly when no row matches |
| Ledgers.CreditHolding | app/Http/Controllers/Api/TradeController.php:145-149 | firstOrCreate then increment: the (wallet, symbol) amount grows by exactly the amount, a missing row is created at the default 0, every other row is unchanged, and uniqueness is kept |
| Ledgers.DebitHolding | app/Http/Controllers/Api/TradeController.php:287-288 | the matched row falls by exactly the amount, every other row is unchanged, uniqueness is kept, and the amount stays ≥ 0 when it covered the debit |
| Ledgers.CreditKeepsOwned | database/migrations/2026_02_13_100001_create_crypto_holdings_table.php:12 | crediting a wallet's holding keeps every holding owned by an existing wallet |
| Ledgers.RecordEntryKeepsAudit | database/migrations/2026_02_13_100003_create_transactions_table.php:12-17 | appending an audit row that starts at the owner's balance and moves it by its signed amount keeps ids sequential, rows in the enum, each row balanced and chained to the owner's previous row, and the last row equal to the balance |
| Wallets.AddFunds | app/Http/Controllers/Api/WalletController.php:19-42 | a deposit succeeds exactly when the amount is present and ≥ 100 and the wallet exists; it credits exactly the amount, appends one `deposit` row with previous/new balances, touches no holding or trade, and returns the new balance |
| Wallets.AddFundsKeepsValid | app/Http/Controllers/Api/WalletController.php:25-36 | a deposit keeps the ledger invariant and strictly raises the balance |
| Wallets.DepositRowFitsMigratedSchema | database/migrations/2026_02_13_100003_create_transactions_table.php:13 | the deposit's audit row type is in the enum as migrated |
| Wallets.Balance | app/Http/Controllers/Api/WalletController.php:9-17 | the balance read returns the wallet's balance and exactly the wallet's holdings, and no ledger |
| Wallets.BalanceViewSound | app/Http/Controllers/Api/WalletController.php:9-17 | on a valid ledger the view shows a non-negative balance and non-negative holdings |
| Wallets.BalanceAfterDeposit | app/Http/Controllers/Api/WalletController.php:25-41 | after a deposit the balance read shows exactly the amount more and the same holdings |
| Wallets.Transactions | app/Http/Controllers/Api/WalletController.php:44-62 | only the user's audit rows are returned; the total is the user's row count; per_page and page default to 20 and 1; last_page is the least page count (at least 1) that covers the total |
| Wallets.TransactionsPageOfLog | app/Http/Controllers/Api/WalletController.php:49-51 | page k of the endpoint is the k-th window of the user's newest-first audit rows |
| Wallets.TransactionsPagesCoverAll | app/Http/Controllers/Api/WalletController.php:44-61 | the rows the endpoint answers for pages 1 to last_page, joined, are all of the user's audit rows, each once, newest first |
| Wallets.TransactionsNewestFirst | app/Http/Controllers/Api/WalletController.php:49-51 | every page lists the user's rows strictly newest first |
| History.SideFilter | app/Http/Controllers/Api/TradeController.php:376-378 | the type filter selects buys exactly for "buy", sells exactly for "sell", and nothing otherwise |
| History.SymbolFilter | app/Http/Controllers/Api/TradeController.php:372-374 | a symbol filter applies exactly when the parameter is truthy, and it is lower-cased |
| History.TradeHistory | app/Http/Controllers/Api/TradeController.php:361-392 | every row returned is the user's and matches both filters; the total counts every such row; page defaults 1 and 20; last_page is the least page count (at least 1) that covers the total |
| History.HistoryIsPrivate | app/Http/Controllers/Api/TradeController.php:369 | no other user's trade appears on any page |
| History.HistoryListComplete | app/Http/Controllers/Api/TradeController.php:369-378 | the unpaginated history holds a trade if and only if it is the user's and matches the filters |
| History.HistoryNewestFirst | app/Http/Controllers/Api/TradeController.php:380-381 | every page is strictly newest first |
| History.UnknownSideIgnored | app/Http/Controllers/Api/TradeController.php:376-378 | any type other than exactly buy or sell gives the same page as no type |
| History.FalsySymbolIgnored | app/Http/Controllers/Api/TradeController.php:372-374 | an empty or "0" symbol gives the same page as no symbol |
| History.SymbolFilterIgnoresCase | app/Http/Controllers/Api/TradeController.php:372-374 | two symbols equal up to case select the same page |
| History.HistoryPageOfList | app/Http/Controllers/Api/TradeController.php:380-381 | the history endpoint's page k is the k-th window of the whole filtered, newest-first list: the page number, a parameter of its own, changes neither the filters nor the page size |
| History.HistoryPagesCoverAll | app/Http/Controllers/Api/TradeController.php:380-391 | the rows the history endpoint answers for pages 1 to last_page, joined, are the whole filtered history, each row once, newest first |
| Pagination.EffectivePerPage | app/Http/Controllers/Api/TradeController.php:365 | a zero per_page falls back to the model's 15; any other is kept |
| Pagination.EffectivePage | app/Http/Controllers/Api/TradeController.php:364 | a page below 1 is page 1 |
| Pagination.LastPage | app/Http/Controllers/Api/TradeController.php:390 | last_page is the least page count ≥ 1 whose pages hold the total |
| Pagination.Paginate | app/Http/Controllers/Api/TradeController.php:380-391 | a page holds at most per_page items, each the row at the page's offset; pages before the last are full, the last is non-empty for a non-empty list, later pages are empty; the metadata is consistent |
| Pagination.PagesUpToIsPrefix | app/Http/Controllers/Api/TradeController.php:380-381 | pages 1 to k concatenated are exactly the rows before page k+1 starts (the first k·per_page rows, or all of them) |
| Pagination.PagesCoverAll | app/Http/Controllers/Api/TradeController.php:380-391 | pages 1 to last_page concatenated are exactly the list |
| Pagination.WindowPagesCoverAll | app/Http/Controllers/Api/TradeController.php:380-391 | an endpoint whose every page is the matching window of one list returns that whole list, each row once, over pages 1 to last_page |
| Text.Lower | app/Http/Controllers/Api/TradeController.php:82 | strtolower keeps the length, leaves no upper-case letter, keeps every other character and maps each upper-case letter to its partner |
| Text.Upper | app/Http/Controllers/Api/TradeController.php:49 | strtoupper is the mirror image |
| RateService.RateFrom | app/Services/CoinGeckoService.php:89-102 | the rate is the NGN price when present and positive, else USD × 1550 when that is present and positive, else none; any rate is positive |
| RateService.GetRate | app/Services/CoinGeckoService.php:69-109 | an unsupported symbol gives null with no cache or HTTP access; a cache hit returns the cached value with no request; otherwise one request is made, its rate returned and cached under `crypto_rate_{symbol}` only when present |
| RateService.GetRateKeepsCacheSound | app/Services/CoinGeckoService.php:92-105 | with only positive rates cached, a lookup gives null or a positive rate and caches only positive rates |
| RateService.GetRateCachesRate | app/Services/CoinGeckoService.php:77-82 | after a lookup that yields a rate, the next lookup of the symbol returns it without a request, whatever upstream says |
| RateService.GetRateIgnoresCase | app/Services/CoinGeckoService.php:71 | symbols equal up to case get the same lookup |
| RateService.GetRateFrame | app/Services/CoinGeckoService.php:104 | a lookup writes no cache entry but its own symbol's |
| RateService.LookupsIndependent | app/Services/CoinGeckoService.php:111-121 | looking up one symbol does not change the rate a later lookup of another symbol finds |
| RateService.GetAllRates | app/Services/CoinGeckoService.php:111-121 | every key is a supported symbol; a supported symbol is present if and only if its lookup gives a truthy rate, and it maps to that rate |
| RateService.AllRatesPositive | app/Services/CoinGeckoService.php:111-121 | with a sound cache every collected rate is positive |
| TradeRates.DollarRate | app/Http/Controllers/Api/TradeController.php:51 | rate_usd is present exactly for a truthy naira rate, and 1550 × rate_usd = rate_ngn |
| TradeRates.Rates | app/Http/Controllers/Api/TradeController.php:42-59 | one row per supported symbol in order, even for a null rate, with the upper-case symbol, that symbol's lookup rate and its dollar rate |
| TradeRates.RatesAgreeWithAllRates | app/Http/Controllers/Api/TradeController.php:46-53 | a symbol is missing from getAllRates exactly when its rates row has no dollar rate, and otherwise both show the same naira rate |
| TradeRates.ServiceRateAvailability | app/Http/Controllers/Api/TradeController.php:93-99 | with a sound cache, the trade refuses a rate as unavailable exactly when the lookup gave null |
| Market.SnapOhlcDays | app/Services/CoinGeckoService.php:324-327 | the days sent are an accepted range: for requests up to 365, the smallest accepted range ≥ the request; above 365, 7 |
| Market.SnapKeepsAcceptedDays | app/Services/CoinGeckoService.php:324-327 | an accepted range is sent unchanged |
| Market.SnapMonotone | app/Services/CoinGeckoService.php:324-327 | for requests up to a year, a longer request never gets a shorter range |
| Market.MarketsPerPage | app/Services/CoinGeckoService.php:226 | the page size sent is at most 250 and is the request whenever that is at most 250 |
| Market.Served | app/Services/CoinGeckoService.php:237-243 | the truthiness check on a response: it is served exactly when the request succeeded with a non-empty array, and then unchanged |
| Market.GetMarkets | app/Services/CoinGeckoService.php:217-243 | a cached page is returned without a request; otherwise one request with the clamped size is made, and only a non-empty answer is returned and cached under the page, while an empty or failed answer gives null and caches nothing |
| Market.MarketsCacheIgnoresPerPage | app/Services/CoinGeckoService.php:219-224 | once a non-empty page is cached at one per_page, it is served for any other per_page, with no request |
| Market.GetMarketsKeyed | app/Services/CoinGeckoService.php:217-243 | the page cache keyed by page and size: a miss returns the upstream answer for that size when it is non-empty and null otherwise, a hit the cached one, and only that key is added, holding a non-empty answer |
| Market.KeyedMarketsAnswerRequestedSize | app/Services/CoinGeckoService.php:219-238 | with a cache holding only non-empty upstream answers, every answer, hit or miss, is what the upstream answer for the size requested serves (its rows when non-empty, null otherwise), and the cache stays faithful |
| Market.SortByChange | app/Services/CoinGeckoService.php:180-184 | the rows are a permutation of the response, sorted by descending 24h change, a missing change counting as 0 |
| Market.InsertKeepsSorted | app/Services/CoinGeckoService.php:180-184 | inserting into a descending list keeps it descending |
| Market.Rank | app/Services/CoinGeckoService.php:186-189 | gainers and losers each hold min(10, n) rows of the response, gainers descending and losers ascending by change |
| Market.RankSeparates | app/Services/CoinGeckoService.php:186-189 | gainers are exactly the first min(10, n) rows of the sorted list and losers exactly its last min(10, n) rows in reverse order; gainers outrank every other row and losers are outranked by every row not among them |
| Market.TopGainersLosers | app/Services/CoinGeckoService.php:161-196 | a cached ranking is returned; otherwise a failed or empty response gives null and caches nothing, and a non-empty one is ranked and cached |
| Operations.Step | app/Http/Controllers/Api/TradeController.php:74-211 | each request answers 200, 201, 422, 500 or 503; any refusal leaves the ledger exactly as it was; success exactly when the handler succeeds |
| Operations.StepKeepsValid | app/Http/Controllers/Api/TradeController.php:74-355 | every buy or sell (the cited handlers) and every deposit (WalletController.php:19-42) keeps the ledger invariant |
| Operations.StepAppends | app/Http/Controllers/Api/TradeController.php:74-355 | a buy or sell (the cited handlers) or a deposit (WalletController.php:19-42) adds at most one trade row and one audit row, leaves earlier rows in place, and adds or removes no wallet |
| Operations.RunPreservesValid | app/Http/Controllers/Api/TradeController.php:74-355 | any sequence of buys, sells (the cited handlers) and deposits (WalletController.php:19-42) from a valid ledger ends in a valid ledger: no negative balance or holding and an unbroken audit chain |
| Operations.RunOnlyAppends | database/migrations/2026_02_13_100003_create_transactions_table.php:10-19 | over any sequence of requests the trade and audit tables are append-only |
| Operations.ReadsAreStable | app/Http/Controllers/Api/WalletController.php:9-17 | a refused request between two balance reads leaves them equal |
| Scenarios.BuyBtcPriced | app/Http/Controllers/Api/TradeController.php:101-104 | 0.001 BTC at 95,000,000 prices at subtotal 95,000, fee 1,900, total 96,900 |
| Scenarios.SellBtcPriced | app/Http/Controllers/Api/TradeController.php:244-246 | 0.1 BTC at 95,000,000 prices at gross 9,500,000, fee 190,000, net 9,310,000 |
| Scenarios.BuyScenario | tests/Feature/TradeTest.php:63-92 | balance 1,000,000, buy 0.001 BTC: success, new balance 903,100, a 0.001 BTC holding, the exact trade and audit rows |
| Scenarios.BuyInsufficientScenario | tests/Feature/TradeTest.php:94-107 | the same buy with balance 100: InsufficientFunds(96,900, 100), status 422 |
| Scenarios.SellScenario | tests/Feature/TradeTest.php:109-145 | holding 0.5 BTC, sell 0.1: success, holding 0.4, balance 10,310,000 |
| Scenarios.SellWithoutHoldingScenario | tests/Feature/TradeTest.php:147-158 | no holding: InsufficientHoldings(0.1, 0), status 422 |
| Scenarios.RateUnavailableScenario | app/Http/Controllers/Api/TradeController.php:93-99 | a null rate (buy) and a zero rate (sell) are both refused as unavailable, status 503 |
| Scenarios.UpperCaseSymbolScenario | app/Http/Controllers/Api/TradeController.php:77-80 | "BTC" is refused by the request rules |
| Scenarios.EthBelowMinimumScenario | app/Http/Controllers/Api/TradeController.php:86-90 | 0.0005 ETH passes the request rule but not the ETH minimum of 0.001 |
| Scenarios.UsdtBelowMinimumTransactionScenario | app/Http/Controllers/Api/TradeController.php:105-111 | 2 USDT at 1,550 costs 3,162 and is refused by the 5,000 minimum |
| Scenarios.FeeExceedsColumnScaleScenario | database/migrations/2026_02_13_100002_create_trades_table.php:18 | a valid buy of 0.00123456 ETH has a fee of 123.456, more digits than the fee column keeps |
| Findings.BuyOrderAsMigrated | database/migrations/2026_02_13_100003_create_transactions_table.php:13 | the buy handler against the migrated enum: a pipeline refusal is reported unchanged |
| Findings.SellOrderAsMigrated | database/migrations/2026_02_13_100003_create_transactions_table.php:13 | the sell handler against the migrated enum: a pipeline refusal is reported unchanged |
| Findings.MigratedSchemaRejectsEveryTrade | app/Http/Controllers/Api/TradeController.php:164-170 | against the migrated enum every buy and sell that passes all checks fails with 500, so no trade ever completes |
| Findings.ExtendedSchemaAcceptsChecked | app/Http/Controllers/Api/TradeController.php:164-170 | with buy_crypto and sell_crypto in the enum, a trade succeeds exactly when its checks pass |
| Findings.MigratedSchemaFailsBuyScenario | tests/Feature/TradeTest.php:63-92 | the feature test's buy scenario answers 500 against the migrated enum and succeeds against the extended one |
| Findings.SettleBuyUnlocked | app/Http/Controllers/Api/TradeController.php:117-142 | the buy's unit of work as written: no re-check, the balance decremented in the database, the audit row recording the balance read before the transaction |
| Findings.UnlockedBuyAloneIsLocked | app/Http/Controllers/Api/TradeController.php:128-142 | with nothing between the read and the write, the as-written unit of work equals the corrected one |
| Findings.UnlockedSellAloneIsLocked | app/Http/Controllers/Api/TradeController.php:276-314 | with the wallet read still current and the holding still covering the amount, the sell's unit of work as written equals the corrected one |
| Findings.UnlockedBuysOverdraw | app/Http/Controllers/Api/TradeController.php:117-142 | two interleaved 0.001 BTC buys against 100,000 both commit as written: the balance ends at −93,800 and the ledger is invalid |
| Findings.LockedBuysRefuseSecond | app/Http/Controllers/Api/TradeController.php:117-142 | with the re-check, the second buy of that interleaving is refused: InsufficientFunds(96,900, 3,100) |
| Findings.SettleSellUnlocked | app/Http/Controllers/Api/TradeController.php:261-294 | the sell's unit of work as written: the holding debited without a re-check and the audit row recording the stale balance |
| Findings.UnlockedSellsOversell | app/Http/Controllers/Api/TradeController.php:261-292 | two interleaved 0.1 BTC sells of a 0.15 BTC holding both commit as written: the holding ends at −0.05 |
| Findings.LockedSellsRefuseSecond | app/Http/Controllers/Api/TradeController.php:261-292 | with the re-check, the second sell is refused: InsufficientHoldings(0.1, 0.05) |

## Left out

- HTTP, JSON shapes and messages: responses are `Result` values plus a status code. Response fields such as `number_format` strings, the ISO timestamp and `fee_percent` are not modelled.
- Authentication and routing: `rates` is public and the other endpoints need a user. The model takes the authenticated user id as a parameter.
- Floating point: PHP floats, the `(float)` cast and `round($rate / 1550, 8)` are replaced by exact reals. `TradeRates.DollarRate` is the unrounded quotient.
- Trading.Commit: the precision limits of the decimal columns are not enforced. A `decimal(15,2)` column holds values below 10^13 and a `decimal(18,8)` column values below 10^10. A database that refuses larger values would roll a buy or sell back with 500 where the model commits with 201. The model's amounts and balances are unbounded reals.
- Wallets.AddFunds: the deposit is modelled as one atomic step. In the handler the increment (WalletController.php:28) and the audit insert (:30-36) are separate statements outside any database transaction. An insert the database refuses, say a value over the `decimal(15,2)` precision, would leave the balance credited with no audit row. `Wallets.AddFundsKeepsValid` and `AuditMatchesBalances` therefore hold only for inserts that succeed.
- Decimal column rounding: the database rounds to 8 or 2 fractional digits on write. The model keeps the exact value and states the scale only as `Schema.HasScale`. `Scenarios.FeeExceedsColumnScaleScenario` shows a value the column would round.
- Cache expiry: the cache lifetimes (5 minutes for rates, 10 minutes for market pages, 1 hour for rankings) are not modelled. Entries never expire; an expiry is a removal of a key that a caller can make.
- HTTP client: `makeRequest`, timeouts, SSL handling and logging are abstracted to an `Option` response. A failed, timed-out or non-2xx request is `None`.
- OHLC request: only the day snapping is modelled. The OHLC cache key uses the unsnapped days, and this is not modelled.
- Laravel's `latest()` orders by `created_at`: the model orders by id, which agrees whenever rows are created in id order. Rows created within the same second are not distinguished.
- Pagination.EffectivePerPage: a negative `per_page` is not modelled (`per_page` is a `nat`), and non-numeric query strings are not modelled.
- Market.SortByChange: the order among rows with equal change (PHP's `usort` is stable) is not stated; only the sortedness and the permutation are stated.
- Market.GetMarkets: a non-numeric page or per_page is not modelled.
- Cascade deletes: removing a user or wallet is not an operation of the core, so the cascade in the migrations has no counterpart beyond the ownership invariant `HoldingsOwned` / `EntriesOwned`.
- Trade status: the column default `pending` is `Schema.DefaultTradeStatus`. The trade path always writes `completed`, so no pending or failed row arises.
- Concurrency in general: the model is sequential. The check-then-act window is shown with the explicit interleavings under Findings; row locks and isolation levels are not modelled.
- The market-data pass-through endpoints, the OpenAPI document, the model classes, seeders and the registration tests are outside this core.

## Findings

| source | as written | input that shows it | evidently intended | confidence | as-written member | corrected member |
|---|---|---|---|---|---|---|
| database/migrations/2026_02_13_100003_create_transactions_table.php:13 | the `type` enum is deposit, withdrawal, trade_fee, trade_credit, but the buy and sell paths insert `buy_crypto` and `sell_crypto` (TradeController.php:165, :309), so the audit insert fails and the whole trade rolls back with 500 | a buy of 0.001 BTC at 95,000,000 from a balance of 1,000,000 | the enum includes buy_crypto and sell_crypto and the trade commits with 201 | high; not executed | Findings.MigratedSchemaRejectsEveryTrade | TradingProperties.BuySucceedsIff |
| app/Http/Controllers/Api/TradeController.php:119 | the balance check runs before `DB::transaction` (line 129) and is not repeated inside it; the decrement is unconditional and the audit row records the balance read before the transaction | two simultaneous buys of 0.001 BTC at 95,000,000 against a balance of 100,000 | the balance is re-checked under the transaction and the second buy is refused | medium; not executed | Findings.UnlockedBuysOverdraw | Findings.LockedBuysRefuseSecond |
| app/Http/Controllers/Api/TradeController.php:266 | the holding check runs before the transaction and is not repeated inside it | two simultaneous sells of 0.1 BTC from a 0.15 BTC holding | the holding is re-checked under the transaction and the second sell is refused | medium; not executed | Findings.UnlockedSellsOversell | Findings.LockedSellsRefuseSecond |
| app/Services/CoinGeckoService.php:219 | the markets cache key is the page number alone, so a page cached at one per_page is served for every other per_page | page 1 with per_page 10, then page 1 with per_page 250 | the key includes the page size, and each answer has the size requested | medium; not executed | Market.MarketsCacheIgnoresPerPage | Market.KeyedMarketsAnswerRequestedSize |
