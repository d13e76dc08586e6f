/** How the store operations combine: which pairs undo each other, and what
    an unchecked sign on an amount does.
 */
module Laws {
  import opened Bank

  /** A name deleted from the store is free again: creating it always succeeds,
      and reading it in between fails. */
  lemma DeleteFreesName(m: Store, name: string, balance: real)
    ensures ConsultBalance(DeleteAccount(m, name).store, name).Failure?
    ensures CreateAccount(DeleteAccount(m, name).store, name, balance).outcome == Created
  {
  }

  /** Creating a fresh account and deleting it again restores the store. */
  lemma CreateThenDeleteRestores(m: Store, name: string, balance: real)
    requires name !in m
    ensures DeleteAccount(CreateAccount(m, name, balance).store, name) == Step(m, Deleted)
  {
  }

  /** Deleting an account and creating it again with its old balance restores
      the store, provided accounts are filed under their own names. */
  lemma DeleteThenCreateRestores(m: Store, name: string)
    requires NamesMatch(m) && name in m
    ensures CreateAccount(DeleteAccount(m, name).store, name, m[name].balance) == Step(m, Created)
  {
  }

  /** Withdrawing what was just deposited succeeds, restores the store and
      reports the old balance exactly when the balance before the deposit was
      not negative; otherwise the guard reports insufficient funds. */
  lemma DepositThenWithdraw(m: Store, name: string, amount: real)
    requires name in m
    ensures var s := Withdraw(Deposit(m, name, amount).store, name, amount);
            (s == Step(m, Ok(m[name].balance))) <==> m[name].balance >= 0.0
    ensures var s := Withdraw(Deposit(m, name, amount).store, name, amount);
            s.outcome == InsufficientFunds <==> m[name].balance < 0.0
  {
  }

  /** Depositing what was just withdrawn restores the store. */
  lemma WithdrawThenDeposit(m: Store, name: string, amount: real)
    requires Withdraw(m, name, amount).outcome.Ok?
    ensures Deposit(Withdraw(m, name, amount).store, name, amount) == Step(m, Ok(m[name].balance))
  {
  }

  /** The guard compares against the amount but never checks its sign, so a
      negative withdrawal from a non-negative balance always passes and acts as
      a deposit of its opposite. */
  lemma NegativeWithdrawalIsDeposit(m: Store, name: string, amount: real)
    requires name in m && m[name].balance >= 0.0 && amount <= 0.0
    ensures Withdraw(m, name, amount) == Deposit(m, name, -amount)
  {
  }
}
