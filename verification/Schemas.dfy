/**
 * Request shapes with the field constraints the request validator enforces
 * before a handler runs, and the response shapes handlers reply with.
 */
module Schemas {
  import opened Models

  // ----- requests -----

  /** A request to open an account. */
  datatype AccountCreate = AccountCreate(name: string, initialBalance: int)

  /** A request to move money into an account. */
  datatype DepositRequest = DepositRequest(accountId: int, amount: int)

  /** A request to move money out of an account. */
  datatype WithdrawRequest = WithdrawRequest(accountId: int, amount: int)

  /** A name of 1 to 100 characters and an opening balance that is not negative. */
  predicate ValidAccountCreate(req: AccountCreate)
  {
    1 <= |req.name| <= MAX_NAME_LENGTH && req.initialBalance >= 0
  }

  /** A positive account id and a strictly positive amount. */
  predicate ValidDepositRequest(req: DepositRequest)
  {
    req.accountId > 0 && req.amount > 0
  }

  /** A positive account id and a strictly positive amount. */
  predicate ValidWithdrawRequest(req: WithdrawRequest)
  {
    req.accountId > 0 && req.amount > 0
  }

  /** An accepted create request opens exactly the accounts the ledger may store. */
  lemma AccountCreateAdmitsValidAccount(req: AccountCreate, id: int)
    requires id > 0
    ensures ValidAccountCreate(req) <==> ValidAccount(Account(id, req.name, req.initialBalance))
  {
  }

  /** An accepted deposit request logs exactly the records the ledger may store. */
  lemma DepositRequestAdmitsValidTransaction(req: DepositRequest, transactionId: int, timestamp: nat)
    requires transactionId > 0
    ensures ValidDepositRequest(req) <==> ValidTransaction(Transaction(transactionId, req.accountId, Deposit, req.amount, timestamp))
  {
  }

  /** An accepted withdraw request logs exactly the records the ledger may store. */
  lemma WithdrawRequestAdmitsValidTransaction(req: WithdrawRequest, transactionId: int, timestamp: nat)
    requires transactionId > 0
    ensures ValidWithdrawRequest(req) <==> ValidTransaction(Transaction(transactionId, req.accountId, Withdrawal, req.amount, timestamp))
  {
  }

  // ----- history query bounds -----

  const DEFAULT_HISTORY_LIMIT := 50
  const MAX_HISTORY_LIMIT := 1000

  /** The history query's `limit` lies between 1 and 1000. */
  predicate ValidHistoryLimit(limit: int)
  {
    1 <= limit <= MAX_HISTORY_LIMIT
  }

  // ----- responses -----

  /** An account as returned by create, deposit and withdraw. */
  datatype AccountResponse = AccountResponse(accountId: int, name: string, balance: int)

  /** One transaction as listed in a history. */
  datatype TransactionResponse = TransactionResponse(
    transactionId: int,
    accountId: int,
    kind: TransactionType,
    amount: int,
    timestamp: nat)

  /** The reply to a balance query. */
  datatype BalanceResponse = BalanceResponse(accountId: int, balance: int, name: string)

  /** The reply to a history query: the account, the listed transactions and how many were listed. */
  datatype TransactionHistoryResponse = TransactionHistoryResponse(
    accountId: int,
    transactions: seq<TransactionResponse>,
    totalTransactions: int)

  function ToAccountResponse(a: Account): AccountResponse
  {
    AccountResponse(a.accountId, a.name, a.balance)
  }

  function ToBalanceResponse(a: Account): BalanceResponse
  {
    BalanceResponse(a.accountId, a.balance, a.name)
  }

  function ToTransactionResponse(t: Transaction): TransactionResponse
  {
    TransactionResponse(t.transactionId, t.accountId, t.kind, t.amount, t.timestamp)
  }

  /** Reads a listed transaction back as the stored record it mirrors. */
  function StoredTransaction(r: TransactionResponse): Transaction
  {
    Transaction(r.transactionId, r.accountId, r.kind, r.amount, r.timestamp)
  }

  /** The account reply and the balance reply carry exactly the account's three fields: nothing is lost. */
  lemma AccountProjectionsExact(a: Account, b: Account)
    ensures ToAccountResponse(a) == ToAccountResponse(b) <==> a == b
    ensures ToBalanceResponse(a) == ToBalanceResponse(b) <==> a == b
    ensures ToAccountResponse(a).accountId == ToBalanceResponse(a).accountId
    ensures ToAccountResponse(a).name == ToBalanceResponse(a).name
    ensures ToAccountResponse(a).balance == ToBalanceResponse(a).balance
  {
  }

  /** A listed transaction mirrors every field of its record, the tag included. */
  lemma TransactionProjectionExact(t: Transaction, r: TransactionResponse)
    ensures StoredTransaction(ToTransactionResponse(t)) == t
    ensures ToTransactionResponse(StoredTransaction(r)) == r
  {
  }

  /** Reads listed transactions back as the stored records they mirror, in the same order. */
  function StoredTransactions(rs: seq<TransactionResponse>): seq<Transaction>
  {
    seq(|rs|, i requires 0 <= i < |rs| => StoredTransaction(rs[i]))
  }

  /** Lists every record of `s` as a response, in the same order: reading the list back gives `s` again. */
  function ToTransactionResponses(s: seq<Transaction>): (rs: seq<TransactionResponse>)
    ensures |rs| == |s|
    ensures StoredTransactions(rs) == s
  {
    if s == [] then []
    else [ToTransactionResponse(s[0])] + ToTransactionResponses(s[1..])
  }
}
