/**
 * The token side of the application: deposit addresses derived from the
 * user id and remembered per user, and an append-only list of
 * transactions.
 */
module TokenContext {
  import opened Types
  import AuthContext

  /** `s.padEnd(n, c)`: `s` followed by copies of `c` up to length `n`; a longer `s` is left as it is. */
  function PadEnd(s: string, n: nat, c: char): (r: string)
    ensures |r| == if |s| >= n then |s| else n
    ensures r[..|s|] == s
    ensures forall i :: |s| <= i < |r| ==> r[i] == c
  {
    if |s| >= n then s else s + seq(n - |s|, _ => c)
  }

  /** The address `generateDepositAddress` derives for a user: `xM` and the id padded with '0' to 32 characters. */
  function DepositAddressFor(userId: string): (r: string)
    ensures |r| == 2 + (if |userId| >= 32 then |userId| else 32)
    ensures r[..2] == "xM" && r[2..2 + |userId|] == userId
    ensures forall i :: 2 + |userId| <= i < |r| ==> r[i] == '0'
  {
    var padded := PadEnd(userId, 32, '0');
    var r := "xM" + padded;
    assert r[2..2 + |userId|] == padded[..|userId|];
    r
  }

  /** An id of at most 32 ASCII letters and digits yields an address of the wallet format. */
  lemma DepositAddressIsWallet(userId: string)
    requires |userId| <= 32
    requires forall i :: 0 <= i < |userId| ==> AuthContext.IsAsciiAlphanumeric(userId[i])
    ensures AuthContext.ValidWallet(DepositAddressFor(userId))
  {
    var r := DepositAddressFor(userId);
    forall i | 1 <= i < 34 ensures AuthContext.IsAsciiAlphanumeric(r[i]) {
      if i == 1 {
        assert r[1] == r[..2][1];
      } else if i < 2 + |userId| {
        assert r[i] == r[2..2 + |userId|][i - 2];
      }
    }
    assert r[0] == r[..2][0];
  }

  /** Ids of the same length never share an address. */
  lemma SameLengthIdsDistinctAddresses(a: string, b: string)
    requires |a| == |b| && DepositAddressFor(a) == DepositAddressFor(b)
    ensures a == b
  {
    assert a == DepositAddressFor(a)[2..2 + |a|];
  }

  /** The padding is not undone: an id and the same id with a trailing '0' share an address while short. */
  lemma TrailingZeroSharesAddress(userId: string)
    requires |userId| < 32
    ensures DepositAddressFor(userId + "0") == DepositAddressFor(userId)
  {
    var a, b := DepositAddressFor(userId + "0"), DepositAddressFor(userId);
    assert |a| == |b| == 34;
    forall i | 0 <= i < 34 ensures a[i] == b[i] {
      if i < 2 {
        assert a[i] == a[..2][i] && b[i] == b[..2][i];
      } else if i < 2 + |userId| {
        assert a[i] == a[2..2 + |userId| + 1][i - 2] == (userId + "0")[i - 2];
        assert b[i] == b[2..2 + |userId|][i - 2];
      } else if i == 2 + |userId| {
        assert a[i] == a[2..2 + |userId| + 1][i - 2] == (userId + "0")[|userId|];
      }
    }
  }

  class TokenStore {
    /** The remembered deposit address of each user id. */
    var depositAddresses: map<string, string>
    var transactions: seq<Transaction>

    /** Every remembered address is the one derived from its user id. */
    ghost predicate AddressesDerived()
      reads this
    {
      forall u :: u in depositAddresses ==> depositAddresses[u] == DepositAddressFor(u)
    }

    constructor ()
      ensures depositAddresses == map[] && transactions == []
      ensures AddressesDerived()
    {
      depositAddresses := map[];
      transactions := [];
    }

    /**
     * `generateDepositAddress`: a remembered non-empty address is returned
     * as it is; otherwise the derived address is remembered and returned.
     * With only derived addresses remembered, the answer is always the
     * derived one, however often it is asked.
     */
    method GenerateDepositAddress(userId: string) returns (address: string)
      modifies this
      ensures userId in old(depositAddresses) && old(depositAddresses)[userId] != "" ==>
                address == old(depositAddresses)[userId] && depositAddresses == old(depositAddresses)
      ensures !(userId in old(depositAddresses) && old(depositAddresses)[userId] != "") ==>
                address == DepositAddressFor(userId) && depositAddresses == old(depositAddresses)[userId := address]
      ensures transactions == old(transactions)
      ensures old(AddressesDerived()) ==> address == DepositAddressFor(userId) && AddressesDerived()
    {
      if userId in depositAddresses && depositAddresses[userId] != "" {
        return depositAddresses[userId];
      }
      address := DepositAddressFor(userId);
      depositAddresses := depositAddresses[userId := address];
    }

    /** `addTransaction`: appends the transaction under a fresh id, stamped `now`; nothing else changes. */
    method AddTransaction(freshId: string, now: int, userId: string, txType: TxType, amount: real,
                          status: TxStatus, txHash: Option<string>)
      modifies this
      ensures transactions == old(transactions) + [Transaction(freshId, userId, txType, amount, status, txHash, now)]
      ensures depositAddresses == old(depositAddresses)
    {
      transactions := transactions + [Transaction(freshId, userId, txType, amount, status, txHash, now)];
    }
  }
}
