/** The server's `Accounts` object: one map field that its five RPC handlers
    update in place.  Each handler runs whole under the object's mutex, so here
    each is one method on a single-threaded object, proved to perform exactly
    the transition that module Bank gives for it.
 */
module Server {
  import opened Bank

  class Accounts {
    /** Account name to account, as the Go map `accounts`. */
    var accounts: Store

    /** The object invariant: each account is filed under its own name. */
    ghost predicate Valid()
      reads this
    {
      NamesMatch(accounts)
    }

    /** The store `main` creates before it registers the object: empty. */
    constructor ()
      ensures Valid() && accounts == map[]
    {
      accounts := map[];
    }

    method CreateAccount(name: string, balance: real) returns (outcome: Outcome)
      requires Valid()
      modifies this
      ensures Valid()
      ensures Step(accounts, outcome) == Bank.CreateAccount(old(accounts), name, balance)
    {
      if name in accounts {
        outcome := AlreadyExists;
        return;
      }
      accounts := accounts[name := Account(name, balance)];
      outcome := Created;
    }

    method Deposit(name: string, amount: real) returns (outcome: Outcome)
      requires Valid()
      modifies this
      ensures Valid()
      ensures Step(accounts, outcome) == Bank.Deposit(old(accounts), name, amount)
    {
      if name !in accounts {
        outcome := NotFound;
        return;
      }
      var account := accounts[name];
      account := account.(balance := account.balance + amount);
      accounts := accounts[name := account];
      outcome := Ok(account.balance);
    }

    method Withdraw(name: string, amount: real) returns (outcome: Outcome)
      requires Valid()
      modifies this
      ensures Valid()
      ensures Step(accounts, outcome) == Bank.Withdraw(old(accounts), name, amount)
    {
      if name !in accounts {
        outcome := NotFound;
        return;
      }
      var account := accounts[name];
      if account.balance < amount {
        outcome := InsufficientFunds;
        return;
      }
      account := account.(balance := account.balance - amount);
      accounts := accounts[name := account];
      outcome := Ok(account.balance);
    }

    /** Reads the store and changes nothing (the method has no modifies clause). */
    method ConsultBalance(name: string) returns (r: Result<real>)
      ensures r == Bank.ConsultBalance(accounts, name)
    {
      if name !in accounts {
        return Failure(AccountDoesNotExist);
      }
      r := Success(accounts[name].balance);
    }

    method DeleteAccount(name: string) returns (outcome: Outcome)
      requires Valid()
      modifies this
      ensures Valid()
      ensures Step(accounts, outcome) == Bank.DeleteAccount(old(accounts), name)
    {
      if name !in accounts {
        outcome := NotFound;
        return;
      }
      accounts := accounts - {name};
      outcome := Deleted;
    }
  }
}
