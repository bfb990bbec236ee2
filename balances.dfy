/** The total of all wallet balances, the quantity a transfer must conserve. */
module Balances {
  import opened Records

  /** The sum of the balances of every wallet in `w`. */
  ghost function TotalBalance(w: map<UserId, Wallet>): int
    decreases |w|
  {
    if w == map[] then 0
    else
      var k :| k in w;
      w[k].balance + TotalBalance(w - {k})
  }

  /** The total may be split off at any wallet, not only the one the definition picks. */
  lemma {:induction false} TotalSplit(w: map<UserId, Wallet>, k: UserId)
    requires k in w
    ensures TotalBalance(w) == w[k].balance + TotalBalance(w - {k})
    decreases |w|
  {
    var j :| j in w && TotalBalance(w) == w[j].balance + TotalBalance(w - {j});
    if j != k {
      var wj, wk := w - {j}, w - {k};
      assert k in wj && j in wk;
      TotalSplit(wj, k);
      TotalSplit(wk, j);
      assert wj - {k} == wk - {j};
    }
  }

  /** Replacing one wallet changes the total by the change of that wallet's balance. */
  lemma TotalUpdate(w: map<UserId, Wallet>, k: UserId, v: Wallet)
    requires k in w
    ensures TotalBalance(w[k := v]) == TotalBalance(w) - w[k].balance + v.balance
  {
    var w' := w[k := v];
    TotalSplit(w, k);
    TotalSplit(w', k);
    assert w' - {k} == w - {k};
  }

  /** Moving `amount` from one wallet to another leaves the total unchanged. */
  lemma TotalConservedByMove(w: map<UserId, Wallet>, from: UserId, to: UserId, amount: int)
    requires from in w && to in w && from != to
    ensures var debited := w[from := w[from].(balance := w[from].balance - amount)];
            var credited := debited[to := debited[to].(balance := debited[to].balance + amount)];
            TotalBalance(credited) == TotalBalance(w)
  {
    var debited := w[from := w[from].(balance := w[from].balance - amount)];
    TotalUpdate(w, from, debited[from]);
    TotalUpdate(debited, to, debited[to].(balance := debited[to].balance + amount));
  }
}
