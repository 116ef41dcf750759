# Order-settlement ledger of a small brokerage backend

This project models, in Dafny, the core of the `trades` and `accounts` apps of a
brokerage-style web backend. Users place BUY and SELL stock orders. Each user has
one account that holds its available buying power. Each (account, stock) pair has
one share position holding a quantity and a cost-basis value. The model covers:

- **Order validation** (`Validation`, `Trading.Ledger.Validate`). The order's total
  value is quantity × price. A BUY worth more than the available buying power is
  refused with "Not enough buying power.". A SELL of more than the held quantity
  is refused with "Not enough shares.". Before the guard runs, a zero share row
  is created if none exists, and the row stays even when the order is refused.
- **Order creation** (`Trading.Ledger.Create`). The order is stamped FILLED and
  given the requesting account, then stored.
- **Settlement** (`Settlement`, `Trading.Ledger.Settle`). Settlement is the
  post-save handler. It is called explicitly, once, right after the order is
  stored. It runs only for a new order whose status is not FAILED. A BUY debits
  buying power and adds to the position. A SELL does the opposite. Any other
  order type only creates the lazy row.
- **Read-only queries** (`Views`). They cover the account's order list and its
  filters (`Filters`), the invested-value summary over FILLED BUY orders, and the
  list and total of the positions whose value is positive.
- **The schema's delete rules** (`Trading.Ledger.Delete*`). Stocks, order types and
  statuses are protected while referenced. Deleting an account or a user cascades
  to the account's orders and share rows.

The mutable state is the class `Trading.Ledger`. It holds:

- reference tables keyed by code;
- a map from account id to `Account`;
- a map from `(account, stock code)` to `Share`;
- the order history as a `seq<Order>`.

Its `Valid()` predicate states referential integrity and the one-to-one link
between users and accounts. The ghost predicate `Tracks()` (`Settlement.Tracked`)
says that every share row equals the net effect of the order history on it. Every
operation preserves it except `Trading.Ledger.Settle`. That method is the post-save
handler on its own; only `Trading.Ledger.Create` calls it, right after appending the
order, and `Create` preserves the agreement. Submission is specified by the pure function
`Trading.Submission`. The lemmas about that function state what a client
observes. Amounts are `real` numbers.

Behaviour worth knowing:

- No check requires quantity or price to be positive. `UncheckedSignsCanShortPosition`
  shows a BUY of -5 at -1.0 that passes the guard and leaves a position of -5.
- The summary and the filters read orders however they were created. The
  `Tracks()` agreement covers orders created through `Submit`.

Facts about the code and its tests that the model keeps:

- Validation creates the empty share row before it checks the order, so the row
  stays even when the order is rejected (trades/serializers.py:56).
- Validation and settlement are not wrapped in a transaction.
- The SELL test in trades/tests.py runs on a fresh account whose buying power is 0,
  so buying power ends at 12.5 (`Settlement.SellScenario`).

The codes "BUY", "SELL" and "FILLED" come from the tests. strader/utils/constants.py
is not part of this model, and the FAILED code is taken to be "FAILED".

## Model

| member | source | states |
|---|---|---|
| `Validation.Check` | trades/serializers.py:39-69 | A BUY is refused with NotEnoughBuyingPower exactly when quantity × price exceeds available_bp (strictly, so spending all of it is accepted). A SELL is refused with NotEnoughShares exactly when quantity exceeds the held quantity. Any other order is accepted with total value quantity × price. |
| `Validation.RejectedBuyScenario` | trades/tests.py:285-302 | A fresh account's BUY of 15 at 1.25 is refused, with the message "Not enough buying power.". |
| `Validation.RejectedSellScenario` | trades/tests.py:304-321 | A SELL of 15 with no holding is refused, with the message "Not enough shares.". |
| `Trading.Ledger.Validate` | trades/serializers.py:47-69 | A missing price fails (the KeyError of compute_total_value) before anything changes. Otherwise the share table gains only the lazy zero row for (account, stock), and the verdict is `Check` on the balances as they were. Accounts and orders are untouched. |
| `Trading.Ledger.Create` | trades/serializers.py:72-86 | With no FILLED status row nothing is stored. Otherwise the stored order carries the requesting account, status FILLED and the validated total value. It is appended to the history, and the books become `Settlement.Settle` of the old books. |
| `Trading.Ledger.Submit` | trades/serializers.py:28-86 | The result and the new books equal `Trading.Submission` of the old state. The history grows by the created order exactly when one is returned. `Valid()` and `Tracks()` are preserved. |
| `Trading.Submission` | trades/serializers.py:39-86 | The validate, create and settle chain as one function of the old books (with trades/signals.py:16-38 for settlement). A created order carries the requesting account and the FILLED status row. No account is added or removed, and every other account is unchanged. The lemmas below state the rest. |
| `Trading.RejectionKeepsBalances` | trades/serializers.py:56-66 | A rejected submission leaves every account as it was. The share table is unchanged except, possibly, for the lazily created zero row. |
| `Trading.GuardDecides` | trades/serializers.py:59-66 | End to end, a resolvable priced submission is refused for buying power iff it is a BUY worth more than available_bp. It is refused for shares iff it is a SELL of more than the held quantity, with a missing row counting as zero. |
| `Trading.CreatedOrderIsStamped` | trades/serializers.py:68-86 | A created order belongs to the requesting account and has status FILLED. It has the requested stock, type, quantity and price, and total value quantity × price. The outcome is the same whatever total value or status the client sent. |
| `Trading.AcceptedSubmissionKeepsBalances` | trades/serializers.py:59-66 | After an accepted BUY the account's available_bp is at least 0. After an accepted SELL the position quantity is at least 0. |
| `Trading.AcceptedOrderKeepsBalances` | trades/signals.py:28-35 | Settling an order that passed the guard never overdraws buying power (BUY) and never makes the held quantity negative (SELL). |
| `Trading.UncheckedSignsCanShortPosition` | trades/serializers.py:55-66 | With no sign check, a BUY of -5 at -1.0 with available_bp 5 passes the guard, and settling it leaves a position of -5. |
| `Trading.SubmissionKeepsTracked` | trades/signals.py:16-38 | A submission keeps every share row equal to the net effect of the order history on it. |
| `Trading.BuyOrderScenario` | trades/tests.py:215-246 | With available_bp 1000 and no GOOG row, BUY 15 GOOG at 1.25 is accepted with total 18.75. It leaves available_bp 981.25 and the GOOG position at 15 / 18.75. |
| `Trading.InvalidSellScenario` | trades/tests.py:304-321 | A fresh account's SELL of 15 GOOG is refused with "Not enough shares.". Accounts are unchanged and a zero GOOG row has appeared. |
| `Settlement.Settle` | trades/signals.py:7-38 | Nothing changes unless the order is newly created and not FAILED. A BUY lowers available_bp by the order's total value and raises the position's quantity and value. A SELL does the reverse. Other types change no balance and only create the row. alloted_bp, other accounts and other share rows are untouched. |
| `Settlement.BuyThenSellRestores` | trades/signals.py:28-35 | A BUY followed by a SELL of the same quantity and total value, on an existing position, restores the accounts and the shares exactly. |
| `Settlement.BuyScenario` | trades/tests.py:215-246 | Settling BUY 15 at 1.25 (total 18.75) against available_bp 1000 and no row gives 981.25 and a 15 / 18.75 position. |
| `Settlement.SellScenario` | trades/tests.py:248-283 | Settling SELL 10 at 1.25 against available_bp 0 and a 15 / 18.75 position gives 12.5 and 5 / 6.25. |
| `Settlement.NetAppend` | trades/signals.py:16-35 | Appending an order to the history changes its position's net effect exactly as settling it does, and leaves other positions alone. |
| `Settlement.NetUntouched` | trades/models.py:76-77 | A position that no order of the history touches has the default 0.0 / 0.0 value. |
| `Settlement.NetOtherAccounts` | trades/models.py:48 | Removing one account's orders does not change the net position of any other account. |
| `Settlement.TrackedAfterGetOrCreate` | trades/serializers.py:56 | The lazy zero row keeps the share table in agreement with the history. |
| `Settlement.TrackedAfterSettle` | trades/signals.py:21-38 | Storing an order that settles, and settling it, keeps the share table in agreement with the history. |
| `Settlement.TrackedAfterDeleteAccount` | trades/models.py:74 | The cascading removal of one account's orders and rows keeps the table in agreement with the history. |
| `Trading.Ledger.Settle` | trades/signals.py:16-38 | The ledger's accounts and shares become `Settlement.Settle` of the old ones, and referential integrity is kept. |
| `TradeModels.GetOrCreate` | trades/serializers.py:56 | Afterwards the table has a row for the key: the old row, or a fresh 0.0 / 0.0 row. Every other row is unchanged. |
| `TradeModels.Held` | trades/models.py:76-77 | A position with no row reads as quantity 0.0 and value 0.0. |
| `TradeModels.NewOrder` | trades/models.py:45-60 | An order row has exactly one account, stock, status and type. Price and total value fall back to 0.0 when not supplied. |
| `TradeModels.OtherAccounts` | trades/models.py:48 | The orders left after deleting an account are exactly the other accounts' orders. |
| `TradeModels.OtherAccountsCounts` | trades/models.py:48 | Each order of another account survives as many times as it occurs in the history; the deleted account's orders occur zero times. |
| `TradeModels.SharesOfOthers` | trades/models.py:74-75 | The share rows left after deleting an account are exactly the other accounts' rows, unchanged. |
| `Trading.Ledger.constructor` | trades/models.py:5-42 | A new ledger holds the given reference rows, keyed by code, and no accounts, shares or orders. |
| `Trading.Ledger.CreateUser` | accounts/models.py:5-11 | A new user gets a new account with available_bp 0.0 and alloted_bp 0.0. No other account is linked to that user, so each user has at most one account. |
| `Trading.Ledger.SetAvailableBp` | trades/tests.py:220-223 | Writing available_bp changes that column of that account only. |
| `Trading.Ledger.DeleteStock` | trades/models.py:49-73 | Deletion succeeds exactly when no order (PROTECT at trades/models.py:49-50) and no share row (PROTECT at trades/models.py:72-73) references the stock, and then removes only that stock. |
| `Trading.Ledger.DeleteOrderType` | trades/models.py:59-60 | Deletion succeeds exactly when no order references the type. |
| `Trading.Ledger.DeleteOrderStatus` | trades/models.py:57-58 | Deletion succeeds exactly when no order references the status. |
| `Trading.Ledger.DeleteAccount` | trades/models.py:48 | Deleting an account removes it, its orders and its share rows (CASCADE), and keeps `Tracks()`. |
| `Trading.Ledger.DeleteUser` | accounts/models.py:10-11 | Deleting a user removes its account with its orders and share rows. A user without an account changes nothing. |
| `Views.AccountOrders` | trades/views.py:28-32 | The order list contains exactly the requesting account's orders, each as many times as it occurs in the history. No other account's order appears. |
| `Views.ListOrders` | trades/views.py:25-32 | The filtered list contains exactly the account's orders that pass every given filter, each as many times as it occurs in the history, so it is part of the account's order list. |
| `Views.OrderSummary` | trades/views.py:55-78 | With non-negative totals the summary is non-negative. Its value is stated by `Views.SummaryAppend`, `Views.SummaryEmpty`, `Views.SummaryScoped` and `Views.FilledBuyCounts`. |
| `Views.SummaryEndpoint` | trades/views.py:80-90 | The endpoint counts only BUY orders. If the account's BUY orders have non-negative totals, the answer is non-negative. See also `Views.SellsNeverCount` and `Views.FilledBuyCounts`. |
| `Views.SerializerFor` | trades/views.py:34-40 | The list and retrieve actions use the list schema. Every other action uses the create schema. |
| `Views.SummaryAppend` | trades/views.py:69-78 | The summary of a concatenated history is the sum of the summaries of its parts. |
| `Views.SummaryEmpty` | trades/views.py:77-78 | With no matching order the summary is 0.0. |
| `Views.SummaryScoped` | trades/views.py:69-73 | The summary over the whole history equals the summary over the account's own orders. |
| `Views.SellsNeverCount` | trades/views.py:83-89 | The summary endpoint always aggregates BUY orders, so adding a SELL (or any non-BUY) order never changes it. |
| `Views.FilledBuyCounts` | trades/views.py:69-77 | Adding a FILLED BUY of the account (of the given stock, when one is given) raises the summary by its total value. |
| `Views.SummaryScenario` | trades/tests.py:146-213 | Two FILLED BUYs of 18.75 (AAPL and GOOG) sum to 37.5, and to 18.75 for GOOG alone. An empty stock parameter filters nothing. |
| `Views.ShareList` | trades/views.py:103-107 | The share list contains exactly the account's rows whose total value is above 0, with their stored values. |
| `Views.PortfolioTotal` | trades/views.py:112-115 | The total investment is at least 0, and it is 0.0 exactly when no position is listed. |
| `Views.SumValuesRemove` | trades/views.py:114 | The sum of `total_value` does not depend on the order of the rows: it is any one row's value plus the sum over the others. |
| `Views.SumValuesAgree` | trades/views.py:114 | The sum over a set of rows depends only on those rows' values. |
| `Views.PortfolioGrows` | trades/views.py:107-115 | A new position of the account with a positive value raises the total investment by exactly that value. |
| `Views.PortfolioIgnores` | trades/views.py:107-115 | A new position of another account, or one whose value is not above zero, leaves the total investment unchanged. |
| `Views.ShareEndpoint` | trades/views.py:109-118 | The "summary" scope answers the total investment of the listed rows. Any other scope answers the listed rows themselves: the account's positive-value rows with their stored values. |
| `Filters.Strip` | trades/filters.py:6-11 | A parameter is cleaned of surrounding whitespace: the result is a slice of the argument with no whitespace at either end, everything cut off before and after it is whitespace, it is the argument itself when that has none, and it is empty exactly when the argument is all whitespace. |
| `Filters.StripIdempotent` | trades/filters.py:6-11 | Cleaning a cleaned parameter changes nothing. |
| `Filters.IExact` | trades/filters.py:6-7 | The `iexact` lookup: a match has the argument's length, and every value matches itself. Its case behaviour is stated by `Filters.LookupsIgnoreCase`. |
| `Filters.IContains` | trades/filters.py:8-9 | The `icontains` lookup: a match is never shorter than the argument, and the empty argument matches every value. See also `Filters.IExactImpliesIContains`. |
| `Filters.Keep` | trades/filters.py:5-15 | With no non-blank parameter every order passes. An order passing a given stock parameter has a code as long as the stripped parameter. The whole filter's behaviour is stated by `Filters.FilterOrders` and `Filters.NoFilterKeepsAll`. |
| `Filters.FilterOrders` | trades/filters.py:5-15 | The result contains exactly the input orders that satisfy every given parameter, each as many times as it occurs in the input, and is never longer than the input. |
| `Filters.NoFilterKeepsAll` | trades/filters.py:5-15 | With no parameter given, or only empty ones, the filter returns the list unchanged. |
| `Filters.LookupsIgnoreCase` | trades/filters.py:6-11 | The `iexact` and `icontains` lookups give the same answer for an argument and its lower-cased form. |
| `Filters.IExactImpliesIContains` | trades/filters.py:6-9 | A case-insensitive exact match is also a case-insensitive substring match. |
| `Filters.FilterByStockScenario` | trades/tests.py:102-143 | Filtering an AAPL order and a GOOG order by "AAPL", or by "aapl", leaves the AAPL order alone. |
| `Filters.BlankStockKeepsAll` | trades/filters.py:6-7 | A stock parameter made only of blanks is cleaned to nothing and filters nothing. |
| `Filters.PaddedStockScenario` | trades/filters.py:6-7 | A stock parameter " AAPL " matches the AAPL order and not the GOOG order, as "AAPL" does. |

## Left out

- HTTP routing, authentication and tokens, JSON rendering and the mapping of serializer fields to JSON are left out. The requesting account is an argument.
- Admin registration, app configuration and the exception handler are left out: they only register with the framework.
- Event dispatch is left out: the post-save handler is an explicit call made once, right after the order is stored (`Trading.Ledger.Create`). A user's account is created directly by `Trading.Ledger.CreateUser`.
- Concurrency and transactions are left out. The code takes no locks, so two concurrent submissions for one account can both pass the guard against the same balance. The model runs each operation alone.
- Binary floating point is left out: quantities, prices and balances are exact `real` numbers.
- Database persistence is left out: tables are maps and the order table is a sequence. Loading fixtures becomes the constructor's arguments.
- The order's creation timestamp (`date`) is left out, because it is a clock value.
- Request parsing is simplified. Only two cases are kept: unknown stock or order-type codes (one error naming each code that failed) and a missing price. Malformed numbers and a missing quantity are left to the framework.
- Reference rows are keyed by their code, so each code names one row. With duplicate codes the source's `.get` lookups would raise an error; the model does not represent duplicates.
- `Filters.LookupsIgnoreCase`: case is folded for ASCII letters only. Whether non-ASCII letters are folded depends on the database.
- `Views.ShareList`: the list is a map keyed by position. The queryset's row order is not modelled.
- Retrieving a single order by id is not modelled separately. It reads from the same account-scoped queryset as `Views.AccountOrders`.
- `Views.PortfolioTotal` is a ghost function. It sums an unordered map and is used in specifications only. Its value is pinned by `Views.PortfolioGrows` and `Views.PortfolioIgnores`.
- `Filters.Strip` removes the whitespace characters below code point 128 that Python's `str.strip` removes. Non-ASCII whitespace is kept.
- Share rows are keyed by (account, stock code), so each pair has at most one row. trades/models.py:69-77 declares no unique constraint. With two rows for one pair, the source's `get_or_create` (trades/serializers.py:56, trades/signals.py:23) raises an error. The model does not represent such duplicates.
