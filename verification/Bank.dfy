/**
 * The banking handlers as one in-memory ledger: the account table, the
 * append-only transaction table, the counters the store draws new keys from
 * and the clock it stamps inserts with. Each handler is one atomic step.
 */
module Bank {
  import opened Models
  import opened Schemas
  import opened TransactionLog

  /** What a handler reports: its value, or one of the two expected failures with their context. */
  datatype Result<T> =
    | Ok(value: T)
    | NotFound(accountId: int)
    | InsufficientFunds(current: int, requested: int)

  class Ledger {
    var accounts: map<int, Account>
    var txns: seq<Transaction>
    var nextAccountId: int
    var nextTxnId: int
    var clock: nat
    /** The balance each account was opened with (never logged as a transaction). */
    ghost var opening: map<int, int>

    /** Each account sits under its own key, keeps its field constraints and was opened with a non-negative balance. */
    ghost predicate AccountsValid()
      reads this
    {
      nextAccountId >= 1 &&
      opening.Keys == accounts.Keys &&
      forall id :: id in accounts ==>
        id < nextAccountId && accounts[id].accountId == id && ValidAccount(accounts[id]) && opening[id] >= 0
    }

    /**
     * Every record is well formed, belongs to an existing account, carries a key
     * below the next one and a timestamp no later than the clock; keys strictly
     * increase and timestamps never decrease in insertion order.
     */
    ghost predicate LogValid()
      reads this
    {
      nextTxnId >= 1 &&
      (forall i :: 0 <= i < |txns| ==>
        ValidTransaction(txns[i]) && txns[i].accountId in accounts &&
        txns[i].transactionId < nextTxnId && txns[i].timestamp <= clock) &&
      (forall i, j :: 0 <= i < j < |txns| ==> txns[i].transactionId < txns[j].transactionId) &&
      NonDecreasing(txns)
    }

    /** Every balance is its opening balance plus what was deposited minus what was withdrawn. */
    ghost predicate Consistent()
      reads this
      requires opening.Keys == accounts.Keys
    {
      forall id :: id in accounts ==>
        accounts[id].balance == opening[id] + Moved(txns, id, Deposit) - Moved(txns, id, Withdrawal)
    }

    ghost predicate Valid()
      reads this
    {
      AccountsValid() && LogValid() && Consistent()
    }

    /** An empty store: no accounts, no transactions, keys start at 1. */
    constructor ()
      ensures Valid()
      ensures accounts == map[] && txns == []
      ensures nextAccountId == 1 && nextTxnId == 1 && clock == 0
    {
      accounts := map[];
      txns := [];
      nextAccountId := 1;
      nextTxnId := 1;
      clock := 0;
      opening := map[];
    }

    /** Transaction keys are unique: a consequence of the ledger invariant. */
    lemma TransactionIdsUnique()
      requires Valid()
      ensures UniqueIds(txns)
    {
    }

    /** Every transaction belongs to an account that exists. */
    lemma TransactionsOwned()
      requires Valid()
      ensures forall t :: t in txns ==> t.accountId in accounts && t.amount > 0
    {
    }

    /**
     * Whatever deposits and withdrawals have run, in whatever order, an account's
     * balance is its opening balance plus all its deposits minus all its withdrawals.
     */
    lemma LedgerConsistency(id: int)
      requires Valid() && id in accounts
      ensures accounts[id].balance == opening[id] + Moved(txns, id, Deposit) - Moved(txns, id, Withdrawal)
      ensures opening[id] >= 0
    {
    }

    /** Every balance stays at or above zero. */
    lemma BalancesNonNegative()
      requires Valid()
      ensures forall id :: id in accounts ==> accounts[id].balance >= 0
    {
    }

    /** Opens an account under a fresh key with the requested name and opening balance; nothing is logged. */
    method CreateAccount(req: AccountCreate) returns (r: AccountResponse)
      requires Valid() && ValidAccountCreate(req)
      modifies this
      ensures Valid()
      ensures r.accountId == old(nextAccountId) && r.accountId > 0 && r.accountId !in old(accounts)
      ensures r.name == req.name && r.balance == req.initialBalance
      ensures accounts == old(accounts)[r.accountId := Account(r.accountId, req.name, req.initialBalance)]
      ensures r == ToAccountResponse(accounts[r.accountId])
      ensures txns == old(txns) && nextTxnId == old(nextTxnId) && clock == old(clock)
      ensures nextAccountId == old(nextAccountId) + 1
      ensures opening == old(opening)[r.accountId := req.initialBalance]
    {
      var id := nextAccountId;
      var a := Account(id, req.name, req.initialBalance);
      forall t | t in txns ensures t.accountId != id {
        var i :| 0 <= i < |txns| && txns[i] == t;
      }
      MovedNothing(txns, id, Deposit);
      MovedNothing(txns, id, Withdrawal);
      accounts := accounts[id := a];
      opening := opening[id := req.initialBalance];
      nextAccountId := id + 1;
      r := ToAccountResponse(a);
    }

    /**
     * Appends one record for account `id` stamped `elapsed` after the clock,
     * under the next transaction key, and sets the account's balance to
     * `newBalance`, which must be exactly what the record moves.
     */
    method Record(id: int, kind: TransactionType, amount: int, newBalance: int, elapsed: nat)
      requires Valid() && id in accounts && amount > 0 && newBalance >= 0
      requires newBalance == accounts[id].balance + (if kind == Deposit then amount else -amount)
      modifies this
      ensures Valid()
      ensures accounts == old(accounts)[id := old(accounts)[id].(balance := newBalance)]
      ensures txns == old(txns) + [Transaction(old(nextTxnId), id, kind, amount, old(clock) + elapsed)]
      ensures old(nextTxnId) > 0 && forall t :: t in old(txns) ==> t.transactionId < old(nextTxnId)
      ensures clock == old(clock) + elapsed && nextTxnId == old(nextTxnId) + 1
      ensures nextAccountId == old(nextAccountId) && opening == old(opening)
    {
      var t := Transaction(nextTxnId, id, kind, amount, clock + elapsed);
      forall k | k in txns ensures k.transactionId < nextTxnId {
        var i :| 0 <= i < |txns| && txns[i] == k;
      }
      forall other, which | other in accounts
        ensures Moved(txns + [t], other, which)
             == Moved(txns, other, which) + (if t.accountId == other && t.kind == which then t.amount else 0)
      {
        MovedAppend(txns, t, other, which);
      }
      accounts := accounts[id := accounts[id].(balance := newBalance)];
      txns := txns + [t];
      nextTxnId := nextTxnId + 1;
      clock := clock + elapsed;
    }

    /**
     * Deposits into an existing account: the balance grows by the amount and one
     * DEPOSIT record is appended. An unknown account changes nothing.
     */
    method DepositMoney(req: DepositRequest, elapsed: nat) returns (r: Result<AccountResponse>)
      requires Valid() && ValidDepositRequest(req)
      modifies this
      ensures Valid()
      ensures req.accountId !in old(accounts) ==> r == NotFound(req.accountId) && unchanged(this)
      ensures req.accountId in old(accounts) ==>
                var before := old(accounts)[req.accountId];
                && accounts == old(accounts)[req.accountId := before.(balance := before.balance + req.amount)]
                && r == Ok(ToAccountResponse(accounts[req.accountId]))
                && txns == old(txns) + [Transaction(old(nextTxnId), req.accountId, Deposit, req.amount, clock)]
                && (forall t :: t in old(txns) ==> t.transactionId < old(nextTxnId))
                && clock == old(clock) + elapsed
                && nextTxnId == old(nextTxnId) + 1
                && nextAccountId == old(nextAccountId)
                && opening == old(opening)
    {
      if req.accountId !in accounts {
        return NotFound(req.accountId);
      }
      var account := accounts[req.accountId];
      Record(req.accountId, Deposit, req.amount, account.balance + req.amount, elapsed);
      r := Ok(ToAccountResponse(accounts[req.accountId]));
    }

    /**
     * Withdraws from an existing account. A balance below the amount refuses the
     * withdrawal, reporting both figures, and changes nothing; otherwise the
     * balance shrinks by the amount and one WITHDRAWAL record is appended.
     */
    method WithdrawMoney(req: WithdrawRequest, elapsed: nat) returns (r: Result<AccountResponse>)
      requires Valid() && ValidWithdrawRequest(req)
      modifies this
      ensures Valid()
      ensures req.accountId !in old(accounts) ==> r == NotFound(req.accountId) && unchanged(this)
      ensures req.accountId in old(accounts) && old(accounts)[req.accountId].balance < req.amount ==>
                r == InsufficientFunds(old(accounts)[req.accountId].balance, req.amount) && unchanged(this)
      ensures req.accountId in old(accounts) && old(accounts)[req.accountId].balance >= req.amount ==>
                var before := old(accounts)[req.accountId];
                && accounts == old(accounts)[req.accountId := before.(balance := before.balance - req.amount)]
                && r == Ok(ToAccountResponse(accounts[req.accountId]))
                && txns == old(txns) + [Transaction(old(nextTxnId), req.accountId, Withdrawal, req.amount, clock)]
                && (forall t :: t in old(txns) ==> t.transactionId < old(nextTxnId))
                && clock == old(clock) + elapsed
                && nextTxnId == old(nextTxnId) + 1
                && nextAccountId == old(nextAccountId)
                && opening == old(opening)
    {
      if req.accountId !in accounts {
        return NotFound(req.accountId);
      }
      var account := accounts[req.accountId];
      if account.balance < req.amount {
        return InsufficientFunds(account.balance, req.amount);
      }
      Record(req.accountId, Withdrawal, req.amount, account.balance - req.amount, elapsed);
      r := Ok(ToAccountResponse(accounts[req.accountId]));
    }

    /** The stored name and balance of an existing account, or NotFound for an unknown id. */
    function GetBalance(accountId: int): (r: Result<BalanceResponse>)
      reads this
      requires Valid() && accountId > 0
      ensures r.Ok? <==> accountId in accounts
      ensures r.Ok? ==> (r.value.accountId == accountId
                         && r.value.name == accounts[accountId].name
                         && r.value.balance == accounts[accountId].balance)
      ensures !r.Ok? ==> r == NotFound(accountId)
    {
      if accountId in accounts then Ok(ToBalanceResponse(accounts[accountId])) else NotFound(accountId)
    }

    /**
     * The newest `limit` records of an existing account, newest first, each listed
     * once, with their count; or NotFound for an unknown id. Records sharing a
     * timestamp come in an order this contract leaves open.
     */
    function GetHistory(accountId: int, limit: int): (r: Result<TransactionHistoryResponse>)
      reads this
      requires Valid() && accountId > 0 && ValidHistoryLimit(limit)
      ensures r.Ok? <==> accountId in accounts
      ensures !r.Ok? ==> r == NotFound(accountId)
      ensures r.Ok? ==>
                var listed := StoredTransactions(r.value.transactions);
                var mine := OfAccount(txns, accountId);
                && r.value.accountId == accountId
                && r.value.totalTransactions == |listed| <= limit
                && (|listed| == limit || |listed| == |mine|)
                && (forall t :: t in listed ==> t in txns && t.accountId == accountId)
                && multiset(listed) <= multiset(mine)
                && (|mine| <= limit ==> multiset(listed) == multiset(mine))
                && UniqueIds(listed)
                && NonIncreasing(listed)
                && (forall t, u :: t in mine && t !in listed && u in listed ==> t.timestamp <= u.timestamp)
    {
      if accountId !in accounts then NotFound(accountId)
      else
        var recent := Recent(txns, accountId, limit);
        TransactionIdsUnique();
        RecentCounts(txns, accountId, limit);
        RecentUniqueIds(txns, accountId, limit);
        RecentNonIncreasing(txns, accountId, limit);
        RecentIsNewest(txns, accountId, limit);
        var listed := ToTransactionResponses(recent);
        Ok(TransactionHistoryResponse(accountId, listed, |listed|))
    }
  }

  /**
   * A walk through the ledger's behaviour from an empty store, amounts in cents:
   * open Alice's account with 100.00, deposit 50.00, be refused 200.00, withdraw
   * everything, be refused 0.01, and ask after an account that does not exist.
   */
  method Scenarios()
  {
    var ledger := new Ledger();
    var alice := ledger.CreateAccount(AccountCreate("Alice", 10000));
    assert alice == AccountResponse(1, "Alice", 10000);

    var r := ledger.DepositMoney(DepositRequest(1, 5000), 3);
    assert r == Ok(AccountResponse(1, "Alice", 15000));
    var history := ledger.GetHistory(1, DEFAULT_HISTORY_LIMIT);
    assert ledger.txns == [Transaction(1, 1, Deposit, 5000, 3)];
    assert ledger.txns[0] in OfAccount(ledger.txns, 1);
    assert history.Ok? && |history.value.transactions| == 1 == history.value.totalTransactions;
    assert StoredTransaction(history.value.transactions[0]) == Transaction(1, 1, Deposit, 5000, 3);

    r := ledger.WithdrawMoney(WithdrawRequest(1, 20000), 0);
    assert r == InsufficientFunds(15000, 20000);
    assert ledger.GetBalance(1) == Ok(BalanceResponse(1, 15000, "Alice"));

    r := ledger.WithdrawMoney(WithdrawRequest(1, 15000), 0);
    assert r == Ok(AccountResponse(1, "Alice", 0));
    r := ledger.WithdrawMoney(WithdrawRequest(1, 1), 0);
    assert r == InsufficientFunds(0, 1);

    assert ledger.GetBalance(999) == NotFound(999);
  }
}
