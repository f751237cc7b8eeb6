/**
 * The two stored record shapes of the banking ledger and the closed tag that
 * says which way a transaction moves money.
 *
 * Money is an exact integer number of cents; the stored columns are binary
 * floating point, which this model does not reproduce.
 */
module Models {

  datatype Option<T> = None | Some(value: T)

  /** The direction of a transaction: a closed tag with exactly two values. */
  datatype TransactionType = Deposit | Withdrawal

  /** The wire value of a tag. */
  function TagValue(t: TransactionType): string
  {
    match t
    case Deposit => "deposit"
    case Withdrawal => "withdrawal"
  }

  /** Looks a tag up by its wire value; any other string names no tag. */
  function ParseTag(s: string): (r: Option<TransactionType>)
    ensures r.Some? <==> s == "deposit" || s == "withdrawal"
    ensures r.Some? ==> TagValue(r.value) == s
  {
    if s == "deposit" then Some(Deposit)
    else if s == "withdrawal" then Some(Withdrawal)
    else None
  }

  /** Every tag survives a round trip through its wire value, so the two wire values are distinct. */
  lemma ParseTagValue(t: TransactionType)
    ensures ParseTag(TagValue(t)) == Some(t)
  {
  }

  /** Longest owner name the request schema admits. */
  const MAX_NAME_LENGTH := 100

  /** An account row: its key, owner name and current balance in cents. */
  datatype Account = Account(accountId: int, name: string, balance: int)

  /** A transaction row: its key, the owning account, the tag, a positive amount and the insert time. */
  datatype Transaction = Transaction(
    transactionId: int,
    accountId: int,
    kind: TransactionType,
    amount: int,
    timestamp: nat)

  /**
   * The constraints every stored account keeps: a positive key assigned by the
   * store, a name of 1 to 100 characters and a balance that is not negative.
   */
  predicate ValidAccount(a: Account)
  {
    a.accountId > 0 && 1 <= |a.name| <= MAX_NAME_LENGTH && a.balance >= 0
  }

  /**
   * The constraints every stored transaction keeps: positive keys assigned by
   * the store and a strictly positive amount (the tag carries the direction).
   */
  predicate ValidTransaction(t: Transaction)
  {
    t.transactionId > 0 && t.accountId > 0 && t.amount > 0
  }
}
