/** The audit invariant of the ledger: every transfer-history row is backed by exactly two
    transaction rows carrying its code, the sender's transfer side and the receiver's
    receive side, for the same amount. */
module Pairing {
  import opened Records
  import opened Catalog

  /** The number of transaction rows that carry `code`. */
  function CodeCount(txs: seq<Transaction>, code: string): (n: nat)
    ensures n <= |txs|
  {
    if txs == [] then 0
    else (if txs[0].transactionCode == code then 1 else 0) + CodeCount(txs[1..], code)
  }

  /** Counting over two tables appended one after the other. */
  lemma {:induction false} CodeCountAppend(a: seq<Transaction>, b: seq<Transaction>, code: string)
    ensures CodeCount(a + b, code) == CodeCount(a, code) + CodeCount(b, code)
  {
    if a != [] {
      assert (a + b)[1..] == a[1..] + b;
      CodeCountAppend(a[1..], b, code);
    } else {
      assert a + b == b;
    }
  }

  /** A code no row carries is absent from every row. */
  lemma {:induction false} CodeCountZero(txs: seq<Transaction>, code: string, i: nat)
    requires CodeCount(txs, code) == 0
    requires i < |txs|
    ensures txs[i].transactionCode != code
  {
    if i > 0 {
      CodeCountZero(txs[1..], code, i - 1);
    }
  }

  /** Rows `i` and `j` of `txs` are the two sides of history row `h` under catalog `sides`. */
  ghost predicate SidesOf(txs: seq<Transaction>, h: TransferHistory, sides: TypeSides, i: int, j: int)
  {
    && 0 <= i < |txs| && 0 <= j < |txs| && i != j
    && txs[i].transactionCode == h.transactionCode && txs[j].transactionCode == h.transactionCode
    && txs[i].userId == h.senderId && txs[i].transactionTypeId == sides.transferSide
    && txs[j].userId == h.receiverId && txs[j].transactionTypeId == sides.receiveSide
    && txs[i].amount == txs[j].amount
  }

  /** History row `h` is backed by exactly two rows of `txs`, its two sides. */
  ghost predicate Backed(txs: seq<Transaction>, h: TransferHistory, sides: TypeSides)
  {
    CodeCount(txs, h.transactionCode) == 2
    && exists i, j :: SidesOf(txs, h, sides, i, j)
  }

  /** Every history row of `st` is backed. */
  ghost predicate Paired(st: State)
  {
    SelectTypes(st.transactionTypes).Some? ==>
      forall k :: 0 <= k < |st.histories| ==>
        Backed(st.transactions, st.histories[k], SelectTypes(st.transactionTypes).value)
  }

  /** Appending two rows that carry a code no existing row carries keeps every earlier
      history row backed. */
  lemma BackedAfterAppend(txs: seq<Transaction>, extra: seq<Transaction>, h: TransferHistory, sides: TypeSides, code: string)
    requires Backed(txs, h, sides)
    requires CodeCount(txs, code) == 0
    requires forall t :: t in extra ==> t.transactionCode == code
    ensures Backed(txs + extra, h, sides)
  {
    var i, j :| SidesOf(txs, h, sides, i, j);
    assert h.transactionCode != code by {
      CodeCountZero(txs, code, i);
    }
    CodeCountAppend(txs, extra, h.transactionCode);
    assert CodeCount(extra, h.transactionCode) == 0 by {
      CodeCountNone(extra, h.transactionCode);
    }
    assert SidesOf(txs + extra, h, sides, i, j);
  }

  /** A table in which no row carries `code` counts it zero times. */
  lemma {:induction false} CodeCountNone(txs: seq<Transaction>, code: string)
    requires forall t :: t in txs ==> t.transactionCode != code
    ensures CodeCount(txs, code) == 0
  {
    if txs != [] {
      assert txs[0] in txs;
      assert forall t :: t in txs[1..] ==> t in txs;
      CodeCountNone(txs[1..], code);
    }
  }
}
