# Wallet ledger and exchange-rate cache

A model of the core of a small multi-currency wallet service. Users hold
balances per currency. They add, subtract or set a balance, and they view all
their balances converted to PLN. The conversion uses ask rates read from the
NBP exchange-rate API. The rates are cached in memory and read again only when
older than five minutes.

The project has four modules:

- `Wrappers` (`wrappers.dfy`) holds the `Option` and `Result` datatypes.
- `Db` (`db.dfy`) holds the `Wallet` row of the wallet table. The table is a
  `map` keyed by `(owner, currency)`, because that pair is the row's primary key.
- `Rates` (`rates.dfy`) models `exchange.py`.
  - `BuildTable` builds the table from a response: `code -> ask`, entry by entry.
  - `Cache`, `Stale`, `After` and `Returned` specify the refresh decision as a
    state machine: empty, then fresh, then stale, then fresh again.
  - `Guarded` and `CallAsWritten` add the refresh lock's state, as the code
    handles it in one thread, to show the defect listed under Findings.
  - Class `Exchange` holds the table and `lastRead` as fields.
    `GetExchangeRates` builds a new table in a loop and swaps it in.
    `ToPln` does the conversion, with 0 for an unknown currency.
- `Api` (`api.dfy`) models the handlers of `main.py`.
  - The pure ledger rules are `Credit` (add), `Debit` (sub) and `Overwrite` (set).
  - Class `Ledger` holds the wallet table. Its methods are `AddToWallet`,
    `SubtractFromWallet`, `SetWallet` and `Get`. Each write upper-cases the
    currency and rejects any code missing from the served rate table. Only then
    does it touch the ledger. `Get` loops over the owner's rows, converting each
    row and adding it to the total.
  - `ApiSessionWrites` and `ApiSessionView` replay the test session through the
    class methods: add "eur" 50, sub "eur" 50, set "chf" 30, then the view.

Inputs the model receives as parameters:

- The clock: each request takes one reading, `now`, a `real` number of
  seconds since the epoch (the float that `time()` returns).
- The upstream HTTP fetch: `Fetch = Option<seq<Rate>>`. `None` means the GET or
  the JSON decoding raised.
- The rows the owner query returns (`rows` in `Get`). Its requires
  (`QueryResult`) states what the database guarantees: each of the owner's rows
  exactly once, in an order the database chooses.

Amounts and rates are `real`.

Two behaviours of the code the model keeps:

- A failed fetch is not swallowed. In `get_exchange_rates` the exception leaves
  the method, and so the request fails. The model returns `None` from
  `GetExchangeRates`, and the handlers answer `RatesUnavailable`. The table and
  `lastRead` stay unchanged in both.
- Wallet amounts are never negative. Each write endpoint declares its
  amount with `ge=0`, so a negative amount is rejected before the handler runs.
  The model answers `NegativeAmount` without reading the rate table and without
  touching the ledger. The ledger invariant `WellFormed` shows that all balances
  stay non-negative.

## Model

| member | source | states |
|---|---|---|
| `Rates.BuildTableKeys` | exchange.py:31-34 | the keys of the table built from a response are exactly the response's codes |
| `Rates.BuildTableLastWins` | exchange.py:32-33 | for a code given several times, the table holds the ask of its last entry |
| `Rates.FreshnessWindow` | exchange.py:17 | a table is stale exactly when more than 300 seconds old; at exactly 300 it is still served |
| `Rates.FreshTableIsServed` | exchange.py:24 | a fresh table is returned as it is and nothing changes, whatever the API would answer |
| `Rates.FirstCallFetches` | exchange.py:14-24 | the initial state (empty table, `last_read` 0) is stale for any `now > 300`, and a successful first call installs the response's table stamped `now` |
| `Rates.RefreshReplacesTable` | exchange.py:30-35 | a stale refresh that succeeds sets `last_read` to `now` and installs exactly the response's codes; no earlier entry survives |
| `Rates.FailedFetchChangesNothing` | exchange.py:30-35 | a fetch that raises leaves table and timestamp unchanged, returns nothing, and the table is still stale, so the next call decides to fetch again (as written, the held lock blocks that call; see Findings) |
| `Rates.SecondCallSettles` | exchange.py:22-37 | a second call at the same time with the same upstream answer changes nothing more and returns what the first returned |
| `Rates.RetryAfterFailure` | exchange.py:24-35 | with the lock released on every path, a later call after a failed fetch installs a good answer |
| `Rates.FailedFetchLeavesLockHeld` | exchange.py:26-36 | as written, a fetch that raises leaves the lock held, and the next stale call in the same thread blocks for ever |
| `Rates.FailedFirstFetchHangs` | exchange.py:26-36 | a first call at 1000 s whose fetch raises is followed by a call at 1001 s that hangs |
| `Rates.RefreshedTableIsFresh` | exchange.py:35 | after a successful refresh the next call at the same time returns the new table, whatever the upstream would answer |
| `Rates.UnknownCurrencyIsWorthNothing` | exchange.py:40-41 | a currency missing from the table converts to 0 for any amount |
| `Rates.KnownCurrencyConverts` | exchange.py:42 | a present currency converts to rate times amount |
| `Rates.ConvertExample` | exchange.py:42 | 50 EUR at an ask of 4.3 convert to 215 PLN |
| `Rates.Exchange.constructor` | exchange.py:14-19 | the cache starts with an empty table and `last_read` 0 |
| `Rates.Exchange.GetExchangeRates` | exchange.py:22-37 | the new state and the returned table are `After` and `Returned` of the old state: the table is refetched only when stale, rebuilt from scratch on success, and left alone on failure |
| `Rates.Exchange.ToPln` | exchange.py:39-42 | the cache moves as one table read does; the result is the wallet's PLN value at the served table (0 if its currency is missing), or nothing if reading the table raised |
| `Api.Upper` | main.py:69 | the upper-cased code has the same length and is upper-cased letter by letter, with no lower-case letter left |
| `Api.UpperIdempotent` | main.py:102 | upper-casing an upper-cased code changes nothing, so stored codes stay in upper case |
| `Api.CaseDoesNotMatter` | main.py:142 | `eur`, `Eur` and `EUR` address the same `EUR` entry |
| `Api.Admit` | main.py:69-71 | an admitted code is exactly the upper-cased code, it is a key of the served table, and it is in upper case |
| `Api.AdmitDecides` | main.py:69-71 | for every table, a code is admitted exactly when its upper-cased form is a key; every other code is refused as "Invalid currency"; a failed read refuses every code |
| `Api.AdmitIgnoresCase` | main.py:69-71 | the currency check gives the same answer for a code and its upper-cased form |
| `Api.CreditBalance` | main.py:75-79 | add creates a missing entry with exactly the amount and adds the amount to a present one |
| `Api.DebitBalance` | main.py:109-119 | sub is refused exactly when the entry is missing ("don't have any") or holds less than the amount ("don't have enough"); otherwise the balance drops by the amount |
| `Api.DebitWholeBalance` | main.py:114-115 | subtracting the whole balance leaves 0, after which any positive subtraction is refused |
| `Api.DebitUndoesCredit` | main.py:79 | on an existing non-negative entry, sub of an amount undoes add of it |
| `Api.OverwriteIdempotent` | main.py:148-152 | set ignores the previous balance: setting twice equals setting once, and any prior value is forgotten |
| `Api.WritesTouchOnlyTheirKey` | main.py:72-74 | add, set and an accepted sub leave every other (owner, currency) entry as it was |
| `Api.WritesKeepWellFormed` | main.py:115 | with a non-negative amount and an upper-case code, every write keeps all balances non-negative and all codes upper-case |
| `Api.BalanceScenario` | test_main.py:33-59 | add 50 EUR, subtract 50 EUR, set CHF 30 leave exactly 0 EUR and 30 CHF; every view of that table has two lines (plus the total), one of them 0 PLN for EUR at any rates |
| `Api.ApiSessionWrites` | test_main.py:33-50 | on a new ledger and cache, add "eur" 50, sub "eur" 50 and set "chf" 30 go through the class methods with receipts naming EUR and CHF, and leave exactly 0 EUR and 30 CHF |
| `Api.SessionRowsAnswerQuery` | test_main.py:52 | the two session rows are exactly the owner's wallets in the table the writes leave |
| `Api.ApiSessionView` | test_main.py:52-59 | after the three writes, the view succeeds with two lines, one of them 0 PLN for EUR |
| `Api.RejectionScenario` | test_main.py:62-89 | on an empty table, subtracting CHF is refused as missing, and adding RSD is refused as an invalid currency when the rates lack RSD |
| `Api.DistinctCurrenciesCount` | db.py:6-9 | rows whose currencies differ pairwise carry as many currencies as there are rows |
| `Api.QueryResultSize` | main.py:42 | the owner query returns one row per currency the owner holds, and none when the owner holds none |
| `Api.QueryGivesReport` | main.py:43-49 | converting the query's rows one by one gives one line per held currency, each its converted balance, with the total their sum |
| `Api.SumPlnNonNegative` | main.py:47 | the total of non-negative line values is non-negative |
| `Api.ViewTotalNonNegative` | main.py:44-49 | at non-negative rates the view's total of a well-formed ledger is non-negative |
| `Api.Ledger.constructor` | db.py:24-25 | the ledger of a new database starts as an empty, well-formed table |
| `Api.Ledger.AddToWallet` | main.py:53-83 | a negative amount is refused with no table read; otherwise the cache moves as one read does, an unknown code or a failed read is refused with the ledger unchanged, else the table becomes `Credit` of the old one at (owner, upper-cased code) and the message names the amount and code |
| `Api.Ledger.SubtractFromWallet` | main.py:86-123 | as add, and then the errors of `Debit` (missing entry, not enough); a refused sub changes nothing, an accepted one decreases only the addressed entry |
| `Api.Ledger.SetWallet` | main.py:126-156 | as add, with the table becoming `Overwrite` of the old one |
| `Api.Ledger.Get` | main.py:34-50 | with no rows nothing is read and the view is empty with total 0; otherwise the cache moves as one read does, the request fails exactly when that read raised, and an answer lists each held currency once at the served rates, line by line in the order of the rows, with the total their sum |

## Left out

- HTTP routing, the OAuth2 bearer dependency and the `/token` endpoint
  (main.py:23-31). The token is taken to be the owner name. 401 and 422
  answers come from the framework.
- SQL persistence (db.py:12-30): creating the session, commit and refresh, and
  reading `config.ini`. The table is a map. The owner query result is a
  parameter of `Get`.
- Api.Ledger.constructor: covers a new database only. `create_all` (db.py:24-25)
  creates missing tables and keeps existing rows, so a restarted service starts
  from its stored wallets. The methods accept any `Valid()` table, which
  covers that start.
- The `threading.Lock` and its double-checked locking (exchange.py:20, 26-36).
  The model is sequential. The re-check under the lock (exchange.py:28) is
  always false with a single clock reading, so it is not written. The lock is
  not released on the early return at exchange.py:29; that return happens only
  when another thread refreshed meanwhile, and it is not modelled. The lock is
  not released either when the fetch raises. That is not only a concurrency
  defect: in one thread the next stale call blocks for ever at exchange.py:26,
  and with it every later add, sub, set and every view with a row. It is
  recorded under Findings. The rest of the model, `After` and `Returned`,
  describes the intended behaviour, in which a failed fetch is retried.
- The three `time()` readings of one call (exchange.py:24, 28, 35) are one
  reading, `now`.
- Rates.Exchange.ToPln: both table reads use the same clock reading and the
  same upstream answer. In the source each read calls `time()` anew
  (exchange.py:40, 42). A call that crosses the 300 s limit between them can
  refetch between the membership test and the lookup. The lookup can then
  raise `KeyError`, or convert at the new table. The model does not capture
  either.
- Api.Ledger.Get: one clock reading and one upstream answer serve every row. In
  the source each row's `to_pln` reads the clock again (main.py:45-46). So one
  view can mix two tables, or fail after some lines. The invariant that every
  line uses one table, and that only the first read can fail, holds only in
  the model.
- The `requests` session, its retry and backoff policy, the HTTP GET and the
  JSON decoding (exchange.py:10-12, 30-32). The model's input is the decoded
  `rates` array or a failure.
- Float arithmetic, `round(..., 2)` and the message and line formatting
  (main.py:48-49, 83, 123, 156). Amounts are exact `real`s. The view is a list
  of (currency, PLN) lines and a total, and the response is those lines
  followed by the total line.
- `subtract_from_wallet` lowers the in-memory balance before it raises
  (main.py:114-119). The session is discarded without a commit, so the model
  states that a refused sub changes nothing.
- Api.Upper: models ASCII upper-casing only. Python's `str.upper` maps all
  Unicode lower-case letters, and some of them to several characters.

## Findings

| source | as written | input that shows it | evidently intended | confidence | as-written member | corrected member |
|---|---|---|---|---|---|---|
| exchange.py:26-36 | the lock acquired at line 26 is released only after a successful fetch (line 36); a fetch that raises leaves it held | a first call at 1000 s whose fetch raises, then any call at 1001 s: it blocks for ever in `lock.acquire()` | release the lock on every path (`with self.lock:`), so a failed fetch is retried on the next stale read | high; not executed | `Rates.FailedFetchLeavesLockHeld` | `Rates.RetryAfterFailure` |
