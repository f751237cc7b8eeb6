/**
 * Pure views over the append-only transaction log: how much each account has
 * received and paid out, and the history query's filtered, newest-first,
 * truncated listing.
 */
module TransactionLog {
  import opened Models

  // ----- money moved per account -----

  /** The total amount that the `kind` records of `s` move for account `id`. */
  function Moved(s: seq<Transaction>, id: int, kind: TransactionType): int
  {
    if s == [] then 0
    else (if s[0].accountId == id && s[0].kind == kind then s[0].amount else 0) + Moved(s[1..], id, kind)
  }

  /** Appending a record adds its amount to its own account and tag and to nothing else. */
  lemma {:induction false} MovedAppend(s: seq<Transaction>, t: Transaction, id: int, kind: TransactionType)
    ensures Moved(s + [t], id, kind)
         == Moved(s, id, kind) + (if t.accountId == id && t.kind == kind then t.amount else 0)
  {
    if s == [] {
      assert s + [t] == [t];
    } else {
      assert (s + [t])[1..] == s[1..] + [t];
      MovedAppend(s[1..], t, id, kind);
    }
  }

  /** An account that no record names has moved nothing. */
  lemma {:induction false} MovedNothing(s: seq<Transaction>, id: int, kind: TransactionType)
    requires forall t :: t in s ==> t.accountId != id
    ensures Moved(s, id, kind) == 0
  {
    if s != [] {
      assert s[0] in s;
      MovedNothing(s[1..], id, kind);
    }
  }

  // ----- ordering -----

  /** Timestamps never decrease along `s`: the order in which records are inserted. */
  predicate NonDecreasing(s: seq<Transaction>)
  {
    forall i, j :: 0 <= i < j < |s| ==> s[i].timestamp <= s[j].timestamp
  }

  /** Timestamps never increase along `s`: newest first. */
  predicate NonIncreasing(s: seq<Transaction>)
  {
    forall i, j :: 0 <= i < j < |s| ==> s[i].timestamp >= s[j].timestamp
  }

  /** No two records of `s` share a transaction key. */
  predicate UniqueIds(s: seq<Transaction>)
  {
    forall i, j :: 0 <= i < j < |s| ==> s[i].transactionId != s[j].transactionId
  }

  // ----- history listing -----

  /** The records of `s` that belong to account `id`, in log order. */
  function OfAccount(s: seq<Transaction>, id: int): (r: seq<Transaction>)
    ensures |r| <= |s|
    ensures forall t :: t in r <==> t in s && t.accountId == id
  {
    if s == [] then []
    else if s[0].accountId == id then [s[0]] + OfAccount(s[1..], id)
    else OfAccount(s[1..], id)
  }

  /** The filter keeps every record of the account exactly as often as the log holds it, and no other record. */
  lemma {:induction false} OfAccountCounts(s: seq<Transaction>, id: int)
    ensures forall t :: multiset(OfAccount(s, id))[t] == if t.accountId == id then multiset(s)[t] else 0
  {
    if s != [] {
      assert s == [s[0]] + s[1..];
      OfAccountCounts(s[1..], id);
    }
  }

  /** Keeping only some records of a log with unique keys keeps the keys unique. */
  lemma {:induction false} OfAccountUniqueIds(s: seq<Transaction>, id: int)
    requires UniqueIds(s)
    ensures UniqueIds(OfAccount(s, id))
  {
    if s != [] {
      assert UniqueIds(s[1..]) by {
        forall i, j | 0 <= i < j < |s[1..]| ensures s[1..][i].transactionId != s[1..][j].transactionId {
          assert s[1..][i] == s[i + 1] && s[1..][j] == s[j + 1];
        }
      }
      OfAccountUniqueIds(s[1..], id);
      if s[0].accountId == id {
        var rest := OfAccount(s[1..], id);
        forall u | u in rest ensures s[0].transactionId != u.transactionId {
          var k :| 1 <= k < |s| && s[k] == u;
        }
        var r := [s[0]] + rest;
        forall i, j | 0 <= i < j < |r| ensures r[i].transactionId != r[j].transactionId {
          if i == 0 {
            assert r[j] in rest;
          } else {
            assert r[i] == rest[i - 1] && r[j] == rest[j - 1];
          }
        }
      }
    }
  }

  /** Keeping only some records keeps their order, so timestamps still never decrease. */
  lemma {:induction false} OfAccountNonDecreasing(s: seq<Transaction>, id: int)
    requires NonDecreasing(s)
    ensures NonDecreasing(OfAccount(s, id))
  {
    if s != [] {
      assert NonDecreasing(s[1..]) by {
        forall i, j | 0 <= i < j < |s[1..]| ensures s[1..][i].timestamp <= s[1..][j].timestamp {
          assert s[1..][i] == s[i + 1] && s[1..][j] == s[j + 1];
        }
      }
      OfAccountNonDecreasing(s[1..], id);
      if s[0].accountId == id {
        var rest := OfAccount(s[1..], id);
        forall u | u in rest ensures s[0].timestamp <= u.timestamp {
          var k :| 1 <= k < |s| && s[k] == u;
        }
        var r := [s[0]] + rest;
        forall i, j | 0 <= i < j < |r| ensures r[i].timestamp <= r[j].timestamp {
          if i == 0 {
            assert r[j] in rest;
          } else {
            assert r[i] == rest[i - 1] && r[j] == rest[j - 1];
          }
        }
      }
    }
  }

  /** `s` back to front. */
  function Reverse(s: seq<Transaction>): (r: seq<Transaction>)
    ensures |r| == |s|
    ensures forall i :: 0 <= i < |s| ==> r[i] == s[|s| - 1 - i]
  {
    if s == [] then [] else Reverse(s[1..]) + [s[0]]
  }

  /**
   * The history listing: account `id`'s records newest first, cut to `limit`.
   * Records with equal timestamps may come in any order as far as the callers
   * are concerned; the lemmas below promise nothing about ties.
   */
  function Recent(s: seq<Transaction>, id: int, limit: nat): (r: seq<Transaction>)
    ensures |r| <= limit
    ensures |r| == limit || |r| == |OfAccount(s, id)|
    ensures forall t :: t in r ==> t in s && t.accountId == id
  {
    var mine := Reverse(OfAccount(s, id));
    var n := if limit < |mine| then limit else |mine|;
    assert forall t :: t in mine[..n] ==> t in OfAccount(s, id);
    mine[..n]
  }

  /**
   * The listing takes each of the account's records at most as often as the log
   * holds it, and takes all of them when there are no more than `limit`.
   */
  lemma RecentCounts(s: seq<Transaction>, id: int, limit: nat)
    ensures multiset(Recent(s, id, limit)) <= multiset(OfAccount(s, id))
    ensures |OfAccount(s, id)| <= limit ==> multiset(Recent(s, id, limit)) == multiset(OfAccount(s, id))
  {
    var mine := OfAccount(s, id);
    var rev := Reverse(mine);
    ReverseCounts(mine);
    var r := Recent(s, id, limit);
    assert r == rev[..|r|];
    assert rev == rev[..|r|] + rev[|r|..];
    if |mine| <= limit {
      assert r == rev;
    }
  }

  lemma {:induction false} ReverseCounts(s: seq<Transaction>)
    ensures multiset(Reverse(s)) == multiset(s)
  {
    if s != [] {
      assert s == [s[0]] + s[1..];
      ReverseCounts(s[1..]);
    }
  }

  /** Every record is listed at most once: the listing's keys are unique when the log's are. */
  lemma RecentUniqueIds(s: seq<Transaction>, id: int, limit: nat)
    requires UniqueIds(s)
    ensures UniqueIds(Recent(s, id, limit))
  {
    var mine := OfAccount(s, id);
    OfAccountUniqueIds(s, id);
    var r := Recent(s, id, limit);
    forall i, j | 0 <= i < j < |r| ensures r[i].transactionId != r[j].transactionId {
      assert r[i] == mine[|mine| - 1 - i] && r[j] == mine[|mine| - 1 - j];
    }
  }

  /** The listing is newest first. */
  lemma RecentNonIncreasing(s: seq<Transaction>, id: int, limit: nat)
    requires NonDecreasing(s)
    ensures NonIncreasing(Recent(s, id, limit))
  {
    var mine := OfAccount(s, id);
    OfAccountNonDecreasing(s, id);
    var r := Recent(s, id, limit);
    forall i, j | 0 <= i < j < |r| ensures r[i].timestamp >= r[j].timestamp {
      assert r[i] == mine[|mine| - 1 - i] && r[j] == mine[|mine| - 1 - j];
    }
  }

  /** Position `i` of the listing is position `|mine| - 1 - i` of the account's records. */
  lemma RecentAt(s: seq<Transaction>, id: int, limit: nat, i: nat)
    requires i < |Recent(s, id, limit)|
    ensures var mine := OfAccount(s, id); i < |mine| && Recent(s, id, limit)[i] == mine[|mine| - 1 - i]
  {
  }

  /** A record of the account that the listing leaves out is no newer than one it lists. */
  lemma {:induction false} LeftOutIsOlder(s: seq<Transaction>, id: int, limit: nat, t: Transaction, u: Transaction)
    requires NonDecreasing(s)
    requires t in s && t.accountId == id && t !in Recent(s, id, limit)
    requires u in Recent(s, id, limit)
    ensures t.timestamp <= u.timestamp
  {
    var mine := OfAccount(s, id);
    var r := Recent(s, id, limit);
    var j :| 0 <= j < |mine| && mine[j] == t;
    var i :| 0 <= i < |r| && r[i] == u;
    RecentAt(s, id, limit, i);
    RecentKeepsNewest(s, id, limit, j);
    OfAccountNonDecreasing(s, id);
    assert mine[j].timestamp <= mine[|mine| - 1 - i].timestamp;
  }

  /** Every record of the account from position `|mine| - |Recent|` on is listed. */
  lemma RecentKeepsNewest(s: seq<Transaction>, id: int, limit: nat, j: nat)
    requires j < |OfAccount(s, id)|
    ensures var mine := OfAccount(s, id);
            mine[j] in Recent(s, id, limit) || j < |mine| - |Recent(s, id, limit)|
  {
    var mine := OfAccount(s, id);
    if |mine| - 1 - j < |Recent(s, id, limit)| {
      RecentAt(s, id, limit, |mine| - 1 - j);
    }
  }

  /**
   * The listing holds the newest of the account's records: any record of the
   * account it leaves out is no newer than every record it lists, and when the
   * account has no more than `limit` records none is left out.
   */
  lemma RecentIsNewest(s: seq<Transaction>, id: int, limit: nat)
    requires NonDecreasing(s)
    ensures forall t, u :: t in s && t.accountId == id && t !in Recent(s, id, limit) && u in Recent(s, id, limit)
                           ==> t.timestamp <= u.timestamp
    ensures |OfAccount(s, id)| <= limit ==> forall t :: t in s && t.accountId == id ==> t in Recent(s, id, limit)
  {
    forall t, u | t in s && t.accountId == id && t !in Recent(s, id, limit) && u in Recent(s, id, limit)
      ensures t.timestamp <= u.timestamp
    {
      LeftOutIsOlder(s, id, limit, t, u);
    }
    var mine := OfAccount(s, id);
    if |mine| <= limit {
      forall t | t in s && t.accountId == id ensures t in Recent(s, id, limit) {
        var j :| 0 <= j < |mine| && mine[j] == t;
        RecentAt(s, id, limit, |mine| - 1 - j);
      }
    }
  }
}
