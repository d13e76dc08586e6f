/** Client sessions against one `Accounts` object, each proved from the
    methods' contracts alone, so each follows from the handlers' code.
    CreateThenRead, DepositThenRead, WithdrawThenRead and DeleteThenRead state
    the intent of the tests in Tests/t_test.go.
 */
module Scenarios {
  import opened Bank
  import opened Server

  /** A new account reads back its opening balance. */
  method CreateThenRead() returns (created: Outcome, read: Result<real>)
    ensures created == Created && read == Success(100.0)
  {
    var store := new Accounts();
    created := store.CreateAccount("testUser", 100.0);
    read := store.ConsultBalance("testUser");
  }

  /** A deposit adds to the opening balance. */
  method DepositThenRead() returns (deposited: Outcome, read: Result<real>)
    ensures deposited == Ok(150.0) && read == Success(150.0)
  {
    var store := new Accounts();
    var _ := store.CreateAccount("testUser", 100.0);
    deposited := store.Deposit("testUser", 50.0);
    read := store.ConsultBalance("testUser");
  }

  /** A withdrawal takes from the opening balance. */
  method WithdrawThenRead() returns (withdrew: Outcome, read: Result<real>)
    ensures withdrew == Ok(150.0) && read == Success(150.0)
  {
    var store := new Accounts();
    var _ := store.CreateAccount("testUserWithdraw", 200.0);
    withdrew := store.Withdraw("testUserWithdraw", 50.0);
    read := store.ConsultBalance("testUserWithdraw");
  }

  /** Withdrawing the whole balance succeeds and leaves zero; one unit more is refused
      and the balance stays zero. */
  method WithdrawBoundary() returns (first: Outcome, second: Outcome, read: Result<real>)
    ensures first == Ok(0.0) && second == InsufficientFunds && read == Success(0.0)
  {
    var store := new Accounts();
    var _ := store.CreateAccount("A", 200.0);
    first := store.Withdraw("A", 200.0);
    second := store.Withdraw("A", 1.0);
    read := store.ConsultBalance("A");
  }

  /** A second creation under a taken name is refused and the first balance survives. */
  method DuplicateCreateRejected() returns (second: Outcome, read: Result<real>)
    ensures second == AlreadyExists && read == Success(10.0)
  {
    var store := new Accounts();
    var _ := store.CreateAccount("A", 10.0);
    second := store.CreateAccount("A", 999.0);
    read := store.ConsultBalance("A");
  }

  /** A deleted account cannot be read, and is not reported as a zero balance. */
  method DeleteThenRead() returns (deleted: Outcome, read: Result<real>)
    ensures deleted == Deleted && read == Failure(AccountDoesNotExist)
  {
    var store := new Accounts();
    var _ := store.CreateAccount("testUserDelete", 50.0);
    deleted := store.DeleteAccount("testUserDelete");
    read := store.ConsultBalance("testUserDelete");
  }

  /** A name is reusable after deletion, and the new account starts afresh. */
  method DeleteThenRecreate() returns (recreated: Outcome, read: Result<real>)
    ensures recreated == Created && read == Success(5.0)
  {
    var store := new Accounts();
    var _ := store.CreateAccount("A", 7.0);
    var _ := store.DeleteAccount("A");
    recreated := store.CreateAccount("A", 5.0);
    read := store.ConsultBalance("A");
  }

  /** Operations on a name that was never created report it missing. */
  method MissingAccount() returns (deposit: Outcome, withdraw: Outcome, delete: Outcome, read: Result<real>)
    ensures deposit == NotFound && withdraw == NotFound && delete == NotFound
    ensures read == Failure(AccountDoesNotExist)
  {
    var store := new Accounts();
    deposit := store.Deposit("nobody", 1.0);
    withdraw := store.Withdraw("nobody", 1.0);
    delete := store.DeleteAccount("nobody");
    read := store.ConsultBalance("nobody");
  }
}
