# Banking ledger model

A Dafny model of the ledger behind a small banking API. The ledger keeps a
table of accounts (id, owner name, balance) and an append-only table of
transaction records (id, owning account, DEPOSIT/WITHDRAWAL tag, amount,
timestamp). Five handlers act on it: open an account, deposit, withdraw, read
a balance, and list an account's recent transactions.

- `Models.dfy` (models.py): the closed `TransactionType` tag and the
  `Account` / `Transaction` records with the constraints they keep.
- `Schemas.dfy` (schemas.py): the request shapes and their validity
  predicates, the history `limit` bounds, and the response shapes with their
  projections from stored records.
- `TransactionLog.dfy`: pure views over the transaction log. `Moved` is the
  total that one tag moves for one account. `Recent` is the history listing:
  the account's records, newest first, cut to `limit`.
- `Bank.dfy` (main.py): a `Ledger` class holding the account map, the log,
  the key counters and a logical clock. `CreateAccount`, `DepositMoney` and
  `WithdrawMoney` are methods, each one atomic step. `GetBalance` and
  `GetHistory` are functions. `Ledger.Valid()` is the invariant every handler
  keeps:
  - every balance is at least 0 and every amount is above 0;
  - every record names an existing account;
  - transaction keys strictly increase, and timestamps never decrease, in insertion order;
  - every balance equals the opening balance plus the deposits minus the withdrawals.

Modelling choices:

- Money is an exact integer number of cents.
- Request validation happens before a handler runs, so the handler methods
  require the validity predicates of their requests.
- Outcomes are a `Result`: `Ok`, `NotFound(accountId)` or
  `InsufficientFunds(current, requested)`. The refusal carries the same context
  as the error detail of main.py:131-140.
- The store's insert time is modelled by a logical clock. Each mutating
  handler takes `elapsed: nat`, the time since the last insert, and stamps its
  record with `clock + elapsed`. Timestamps therefore never decrease, and equal
  timestamps are possible.
- Keys come from counters starting at 1. No handler deletes anything, so this
  matches an auto-incrementing primary key.
- The account column's default balance of 0 (models.py:34) never applies here.
  The create handler always supplies the requested opening balance, and the
  create request makes that field mandatory.
- History ordering: the query orders by timestamp only (main.py:204), with no
  tie-break. The model promises that the listing is newest first and holds the
  newest records, each once. It promises no order among equal timestamps.
- Handlers that return an account reply with its `AccountResponse`
  projection, as the routes' declared response shape (main.py:60, main.py:79,
  main.py:112) makes them.
- The default history `limit` is `Schemas.DEFAULT_HISTORY_LIMIT` (50).
- `Bank.Scenarios` walks through a short session: open, deposit, a refused
  withdrawal, withdraw to zero, a refused withdrawal of one cent, and an
  unknown id, and asserts each outcome.

## Model

| member | source | states |
|---|---|---|
| `Models.ParseTag` | models.py:13-16 | Exactly the two wire values "deposit" and "withdrawal" name a tag, and a parsed tag maps back to the string it came from. |
| `Models.ParseTagValue` | models.py:13-16 | Every tag round-trips through its wire value, so the two tags have distinct wire values. |
| `Schemas.AccountCreateAdmitsValidAccount` | schemas.py:13-16 | The create request's constraints (name of 1 to 100 characters, opening balance at least 0) are exactly those the stored account keeps. The stored-account predicate takes them over by definition, so this is a consistency statement, not independent evidence. |
| `Schemas.DepositRequestAdmitsValidTransaction` | schemas.py:19-22 | The deposit request's constraints (positive account id, amount above 0) are exactly those its DEPOSIT record keeps. This holds by definition of the record predicate. |
| `Schemas.WithdrawRequestAdmitsValidTransaction` | schemas.py:25-28 | The withdraw request's constraints (positive account id, amount above 0) are exactly those its WITHDRAWAL record keeps. This holds by definition of the record predicate. |
| `Schemas.AccountProjectionsExact` | schemas.py:32-58 | The account response and the balance response are injective projections: each carries exactly the account's id, name and balance. |
| `Schemas.TransactionProjectionExact` | schemas.py:42-51 | A transaction response mirrors every field of its record, tag included, in both directions. |
| `Schemas.ToTransactionResponses` | schemas.py:61-65 | The listed responses are as many as the records, and reading them back gives the same records in the same order. |
| `TransactionLog.MovedAppend` | main.py:98-105 | Appending one record adds its amount to the total of its own account and tag, and leaves every other account's totals unchanged. |
| `TransactionLog.MovedNothing` | main.py:67-76 | An account that no record names has deposited and withdrawn nothing. This is why opening an account logs nothing. |
| `TransactionLog.OfAccount` | main.py:202-203 | The filter keeps a record iff it belongs to the queried account, and is no longer than the log. |
| `TransactionLog.OfAccountCounts` | main.py:202-203 | The filter keeps each of the account's records exactly as often as the log holds it, and no record of another account. |
| `TransactionLog.OfAccountUniqueIds` | main.py:202-203 | Filtering a log whose transaction keys are unique keeps them unique. |
| `TransactionLog.OfAccountNonDecreasing` | main.py:202-204 | Filtering an insertion-ordered log keeps timestamps non-decreasing. |
| `TransactionLog.Recent` | main.py:202-206 | The listing has at most `limit` records, and its length is `limit` or the account's record count. Each listed record is a stored record of that account. |
| `TransactionLog.RecentCounts` | main.py:202-206 | The listing takes each of the account's records at most as often as the log holds it. When the account has at most `limit` records it lists all of them. |
| `TransactionLog.RecentUniqueIds` | main.py:202-206 | With unique keys in the log, no record is listed twice. |
| `TransactionLog.RecentNonIncreasing` | main.py:204 | The listing is newest first: timestamps never increase along it. |
| `TransactionLog.RecentIsNewest` | main.py:204-205 | Every record of the account left out of the listing is no newer than every listed record. When the account has at most `limit` records, none is left out. |
| `Bank.Ledger.TransactionIdsUnique` | models.py:49 | Under the ledger invariant, no two records share a transaction id. |
| `Bank.Ledger.TransactionsOwned` | models.py:52-58 | Every record belongs to an existing account and has a positive amount. |
| `Bank.Ledger.LedgerConsistency` | main.py:98-149 | An account's balance is its non-negative opening balance plus all its deposits minus all its withdrawals. |
| `Bank.Ledger.BalancesNonNegative` | main.py:131-142 | Every stored balance is at least 0. |
| `Bank.Ledger.CreateAccount` | main.py:60-76 | Adds exactly one account, under a fresh key that was not in use. It has the requested name and opening balance and is returned as its account response. Other accounts, the log and the clock are unchanged, and the invariant is kept. |
| `Bank.Ledger.Record` | main.py:98-106 | Sets the one account's new balance. Appends exactly one record with the next transaction key (larger than every earlier one) and the advanced clock. The key counter moves on by one, and the invariant is kept. |
| `Bank.Ledger.DepositMoney` | main.py:79-109 | Unknown account: NotFound with that id, and nothing changes. Otherwise the balance becomes old + amount and the reply is the updated account's response. Exactly one DEPOSIT record for that amount is appended with a fresh key. All other accounts and the opening balances are unchanged. |
| `Bank.Ledger.WithdrawMoney` | main.py:112-153 | Unknown account: NotFound, nothing changes. Balance below the amount: InsufficientFunds with both figures, nothing changes. Otherwise the balance becomes old − amount (0 when the whole balance is withdrawn) and exactly one WITHDRAWAL record is appended with a fresh key. Other accounts are unchanged. |
| `Bank.Ledger.GetBalance` | main.py:156-179 | Ok iff the account exists, and then it carries that id and the stored name and balance. Otherwise NotFound with that id. It changes nothing (it is a function). |
| `Bank.Ledger.GetHistory` | main.py:182-212 | NotFound iff the account is unknown. Otherwise it lists at most `limit` of that account's stored records, each at most once (no repeated key). When the account has at most `limit` records it lists all of them. They come newest first, and no left-out record is newer than a listed one. `total_transactions` equals the number listed. |

## Left out

- HTTP framing: routing, status codes and the wording of error payloads. Outcomes are the `Result` datatype instead.
- The `root` endpoint (main.py:44-57): it returns a constant description.
- Startup (main.py:32-41): an environment-variable check and table creation. As written it cannot run. main.py:19-21 imports `EmptyInput`, `BalanceQueryInput` and `TransactionHistoryQueryInput`, which schemas.py does not define. main.py:41 passes arguments that `init_db` (database.py:39) does not take.
- API-key checking (auth.py): auth.py is not part of this model. The handlers are modelled as already authenticated.
- The SQLite engine and session lifecycle (database.py): database.py is not part of this model. Each handler is one atomic step on in-memory state.
- Concurrency and row locking: the code takes no locks. No interleavings are modelled.
- Floating point: balances and amounts are Float columns in the source. The model uses exact integer cents and makes no claim about rounding.
- Wall-clock time: replaced by the logical clock and the `elapsed` parameter.
- Account deletion and cascade: no handler deletes an account. The cascade rule (models.py:38, models.py:64) is reflected only in the invariant that every record names an existing account.
- Order among records with equal timestamps: `Bank.Ledger.GetHistory` and `TransactionLog.RecentNonIncreasing` deliberately promise no tie-break, because the source query has none.
