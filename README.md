# Bank account server — Dafny model

This project models the account store of a small banking server written in Go
(`Server/server.go`). The server keeps one `Accounts` object: a map from
account name to `Account{Name, Balance}` guarded by a single mutex. It serves
five RPC handlers. `CreateAccount`, `Deposit`, `Withdraw` and `DeleteAccount`
reply with a message. `ConsultBalance` replies with a balance, or returns an
error when the account is missing. Every handler holds the mutex for its whole
body, so each one is a single atomic transition of the map.

The model has six modules, one file each:

- `Bank` (`bank.dfy`) gives each handler as a pure function on the map. It
  returns the new map and an abstract `Outcome` for the reply message. `Apply`
  and `Run` serve one request and then a sequence of them.
- `Server` (`server.dfy`) is the `Accounts` class. It has one `map` field,
  and its four mutating methods update that field in place, and
  `ConsultBalance` only reads it. Each method is proved to perform exactly the
  transition its `Bank` function describes. The mutating methods also preserve
  the invariant that every account is filed under its own name.
- `Ledger` (`ledger.dfy`) covers money conservation. The sum of all balances
  changes by the opening balance, the deposited or withdrawn amount, or the
  deleted balance, and not at all when the operation refuses.
- `Laws` (`laws.dfy`) covers pairs of operations that undo each other, and
  shows what the unchecked sign of an amount does.
- `Histories` (`histories.dfy`) covers whole request sequences. The mutex
  serializes concurrent clients, so any interleaving is served as some sequence.
  Proved over all such sequences:
  - a name that is never created stays absent;
  - a balance query after a deletion fails;
  - concurrent deposits add up, whatever their order;
  - non-negative inputs keep every balance non-negative.
- `Scenarios` (`scenarios.dfy`) are client sessions against one `Accounts`
  object. Each is proved from the method contracts alone, so each follows from
  the handlers' code. `CreateThenRead`, `DepositThenRead`, `WithdrawThenRead`
  and `DeleteThenRead` state the intent of the tests in `Tests/t_test.go`.

Balances and amounts are exact, finite `real` numbers (see "## Left out" for what float64 does differently).

## Model

| member | source | states |
|---|---|---|
| `Bank.CreateAccount` | Server/server.go:65-77 | the name is refused exactly when it is taken, and then the map is unchanged; otherwise exactly one new entry appears, holding that name and the given balance, with no check on the balance's sign; no other key changes; the name invariant is preserved |
| `Bank.Deposit` | Server/server.go:79-92 | reports "does not exist" exactly when the name is missing, and then the map is unchanged; otherwise the balance becomes old balance + amount, with no sign check, and the reply carries that balance; the key set and every other entry are unchanged; the name invariant is preserved |
| `Bank.Withdraw` | Server/server.go:94-112 | reports missing exactly when the name is missing; reports insufficient funds exactly when balance < amount; in both cases the map is unchanged; succeeds exactly when amount <= balance, and then the new balance is old − amount, which is >= 0; no other key changes; preserves the name invariant and non-negative balances |
| `Bank.ConsultBalance` | Server/server.go:114-125 | succeeds exactly when the name is present, returning exactly the stored balance; otherwise it returns the error "account does not exist", which is distinct from every balance |
| `Bank.DeleteAccount` | Server/server.go:127-139 | reports missing exactly when the name is absent; otherwise it reports deleted; the key set loses exactly that name, and every other entry is unchanged |
| `Bank.Apply` | Server/server.go:65-139 | one request changes only the key it names; a balance query changes nothing; the name invariant is preserved |
| `Bank.Run` | Server/server.go:66-67 | a serialized history of requests preserves the name invariant (proved through its recursive calls) |
| `Server.Accounts.constructor` | Server/server.go:142-144 | the store starts empty and valid |
| `Server.Accounts.CreateAccount` | Server/server.go:65-77 | the in-place update leaves exactly the map and reply of `Bank.CreateAccount` on the old map, and keeps the invariant |
| `Server.Accounts.Deposit` | Server/server.go:79-92 | the in-place update of the map entry leaves exactly the map and reply of `Bank.Deposit` on the old map, and keeps the invariant |
| `Server.Accounts.Withdraw` | Server/server.go:94-112 | the guarded in-place update leaves exactly the map and reply of `Bank.Withdraw` on the old map, and keeps the invariant |
| `Server.Accounts.ConsultBalance` | Server/server.go:114-125 | modifies nothing; the result is that of `Bank.ConsultBalance` on the current map: the stored balance when the name is present, otherwise the "account does not exist" error |
| `Server.Accounts.DeleteAccount` | Server/server.go:127-139 | the in-place removal leaves exactly the map and reply of `Bank.DeleteAccount` on the old map, and keeps the invariant |
| `Ledger.TotalRemove` | Server/server.go:19 | the sum of all balances equals any one account's balance plus the sum over the rest |
| `Ledger.TotalUpdate` | Server/server.go:19 | inserting or replacing one account changes the total by exactly the difference in balance |
| `Ledger.CreateAddsOpeningBalance` | Server/server.go:69-75 | a creation raises the total by the opening balance; a refused creation leaves the total unchanged |
| `Ledger.DepositAddsAmount` | Server/server.go:83-89 | a deposit raises the total by exactly the amount; on a missing name the total is unchanged |
| `Ledger.WithdrawRemovesAmount` | Server/server.go:98-109 | a successful withdrawal lowers the total by exactly the amount; a refused one leaves it unchanged |
| `Ledger.DeleteRemovesBalance` | Server/server.go:131-136 | a deletion lowers the total by exactly the deleted account's balance; on a missing name the total is unchanged |
| `Laws.DeleteFreesName` | Server/server.go:131-136 | after a delete, a balance query on that name fails and a creation on it succeeds |
| `Laws.CreateThenDeleteRestores` | Server/server.go:74-75 | creating a fresh account and then deleting it gives back exactly the original map |
| `Laws.DeleteThenCreateRestores` | Server/server.go:136 | under the name invariant, deleting an account and re-creating it with its balance gives back exactly the original map |
| `Laws.DepositThenWithdraw` | Server/server.go:89-109 | withdrawing an amount just deposited succeeds, restores the map and reports the old balance exactly when the earlier balance was >= 0; otherwise the guard reports insufficient funds |
| `Laws.WithdrawThenDeposit` | Server/server.go:89-109 | depositing an amount just withdrawn gives back exactly the original map and balance |
| `Laws.NegativeWithdrawalIsDeposit` | Server/server.go:104-109 | with no sign check, withdrawing a negative amount from a non-negative balance gives the same result as depositing its opposite |
| `Histories.RunAppend` | Server/server.go:66-67 | serving two histories one after the other is the same as serving their concatenation |
| `Histories.AbsentUnlessCreated` | Server/server.go:118-120 | a name that is absent and that no request creates stays absent, and every balance query on it fails |
| `Histories.ConsultAfterDeleteFails` | Tests/t_test.go:127-146 | after any history, a deletion, and then any history that does not re-create the name, a balance query on it fails |
| `Histories.DepositsAccumulate` | Server/server.go:89 | when every request naming an account is a deposit, its final balance is the opening balance plus the sum of those deposits, whatever happens to other accounts |
| `Histories.DepositsToPermutation` | Server/server.go:80-81 | the deposited sum is the same for every reordering of the requests |
| `Histories.InterleavingsAgree` | Server/server.go:80-81 | two orderings of the same deposit-only requests on an account leave it with the same balance |
| `Histories.UnitDepositsSerialize` | Server/server.go:80-89 | N deposits of one unit raise a balance by exactly N, for every N |
| `Histories.BalancesStayNonNegative` | Server/server.go:104-109 | if no opening balance and no deposit is negative, no balance ever falls below zero, whatever the withdrawals |
| `Scenarios.CreateThenRead` | Tests/t_test.go:52-71 | creating an account with 100 then querying it gives 100 |
| `Scenarios.DepositThenRead` | Tests/t_test.go:73-98 | 100 plus a deposit of 50 reads back 150 |
| `Scenarios.WithdrawThenRead` | Tests/t_test.go:100-125 | 200 minus a withdrawal of 50 reads back 150 |
| `Scenarios.WithdrawBoundary` | Server/server.go:104-110 | withdrawing the whole balance of 200 leaves 0; withdrawing 1 more is refused, and the balance stays 0 |
| `Scenarios.DuplicateCreateRejected` | Server/server.go:69-72 | a second creation under a taken name is refused, and the first balance survives |
| `Scenarios.DeleteThenRead` | Tests/t_test.go:127-146 | a balance query on a deleted account fails; it is not reported as a zero balance |
| `Scenarios.DeleteThenRecreate` | Server/server.go:131-137 | a name can be reused after deletion, and the new account reads back its own opening balance |
| `Scenarios.MissingAccount` | Server/server.go:83-86 | deposit, withdraw and delete on a name that was never created all report "does not exist"; a balance query on it fails |

## Left out

- The mutex (`Server/server.go:18`), `go rpc.ServeConn` and concurrent execution. Each handler holds the lock for its whole body, so each is modelled as one atomic method. An interleaving of clients is modelled as the sequence in which the lock serves them (`Bank.Run`).
- `main`'s RPC registration, the TCP listener and the accept loop (`Server/server.go:141-168`). These are I/O plumbing over `net/rpc`. Only the empty initial map is modelled (the constructor). The dispatcher that routes a method name to a handler, and its protocol errors, belong to `net/rpc` and are not modelled.
- The text of the reply messages, including the `%.2f` formatting. `Outcome` records which message was sent and, for deposits and withdrawals, the balance it reports.
- `float64` arithmetic, rounding, NaN and ±Inf. Balances and amounts are exact, finite reals, and several results hold only for them:
  - the round-trip laws in `Laws`;
  - the exact conservation of the total in `Ledger`;
  - the order independence of deposits in `Histories.DepositsToPermutation` and `Histories.InterleavingsAgree` (in float64, deposits of 0.1, 0.2 and 0.3 onto 0.0 can sum differently in different lock orders);
  - `Bank.Withdraw`'s "succeeds exactly when amount <= balance" and "new balance >= 0". A NaN amount, which `strconv.ParseFloat` accepts in the teller client, makes the guard `account.Balance < request.Amount` false, so the withdrawal goes through and the balance becomes NaN. Withdrawing +Inf from a balance of +Inf does the same.
- The pointer indirection of `map[string]*Account`. No pointer to an account ever leaves the map (`ConsultBalance` copies the balance), so a map of account values behaves the same. Aliasing is therefore not modelled.
- The caller identifier that the agency client sends. The server's request structs have no such field (`Server/server.go:22-25`, `57-59`), so the server drops it and never checks it. The model follows the code here: `DeleteAccount` takes only a name.
- The command-line clients (`Agency/agency.go`, `Teller/teller.go`). They parse arguments, dial the server and print results.
- `Tests/t_test.go`. Its helper functions are stubs, and it needs a live server. The behaviour its tests intend is stated in `Scenarios` and `Histories`.
