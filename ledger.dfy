/** Money is neither lost nor duplicated: the sum of all balances changes by
    the opening balance, the deposited or withdrawn amount, or the deleted
    balance, and not at all when an operation refuses.
 */
module Ledger {
  import opened Bank

  /** The sum of every balance in the store. */
  ghost function Total(m: Store): (t: real)
    decreases |m|
  {
    if m == map[] then 0.0
    else
      var k :| k in m;
      assert m.Keys == (m - {k}).Keys + {k};
      m[k].balance + Total(m - {k})
  }

  /** The sum does not depend on which key is taken out first. */
  lemma {:induction false} TotalRemove(m: Store, k: string)
    requires k in m
    ensures Total(m) == m[k].balance + Total(m - {k})
    decreases |m|
  {
    var j :| j in m && Total(m) == m[j].balance + Total(m - {j});
    if j != k {
      assert m.Keys == (m - {j}).Keys + {j};
      assert m.Keys == (m - {k}).Keys + {k};
      TotalRemove(m - {j}, k);
      TotalRemove(m - {k}, j);
      assert m - {j} - {k} == m - {k} - {j};
    }
  }

  /** Replacing or inserting one account changes the sum by the difference. */
  lemma TotalUpdate(m: Store, k: string, a: Account)
    ensures Total(m[k := a]) == Total(m) - (if k in m then m[k].balance else 0.0) + a.balance
  {
    TotalRemove(m[k := a], k);
    assert m[k := a] - {k} == m - {k};
    if k in m {
      TotalRemove(m, k);
    } else {
      assert m - {k} == m;
    }
  }

  lemma CreateAddsOpeningBalance(m: Store, name: string, balance: real)
    ensures var s := CreateAccount(m, name, balance);
            Total(s.store) == Total(m) + (if s.outcome == Created then balance else 0.0)
  {
    if name !in m {
      TotalUpdate(m, name, Account(name, balance));
    }
  }

  lemma DepositAddsAmount(m: Store, name: string, amount: real)
    ensures var s := Deposit(m, name, amount);
            Total(s.store) == Total(m) + (if s.outcome.Ok? then amount else 0.0)
  {
    if name in m {
      TotalUpdate(m, name, m[name].(balance := m[name].balance + amount));
    }
  }

  lemma WithdrawRemovesAmount(m: Store, name: string, amount: real)
    ensures var s := Withdraw(m, name, amount);
            Total(s.store) == Total(m) - (if s.outcome.Ok? then amount else 0.0)
  {
    if name in m && amount <= m[name].balance {
      TotalUpdate(m, name, m[name].(balance := m[name].balance - amount));
    }
  }

  lemma DeleteRemovesBalance(m: Store, name: string)
    ensures var s := DeleteAccount(m, name);
            Total(s.store) == Total(m) - (if s.outcome == Deleted then m[name].balance else 0.0)
  {
    if name in m {
      TotalRemove(m, name);
    }
  }
}
