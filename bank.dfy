/** The account store of the banking server as a state machine on values.

    Each of the five RPC handlers of `Accounts` holds the store's one mutex for
    its whole body, so each is one atomic transition of the map from account
    name to account.  The functions below give that transition: the new map
    and the reply the handler writes into its response.  The class in module
    Server performs the same transitions in place and is proved against them.
 */
module Bank {

  /** One named balance.  Balances are exact reals, so float64 rounding is not modelled. */
  datatype Account = Account(name: string, balance: real)

  /** The server's `accounts` map.  The Go map holds pointers to accounts; no
      pointer ever leaves the map, so a map of values is observationally the same. */
  type Store = map<string, Account>

  /** The message a handler leaves in its response, without its formatted text.
      `Ok` is the deposit or withdrawal message and carries the balance it reports. */
  datatype Outcome =
    | Created
    | AlreadyExists
    | NotFound
    | InsufficientFunds
    | Ok(newBalance: real)
    | Deleted

  /** A value, or the error that the RPC call returns instead. */
  datatype Result<T> = Success(value: T) | Failure(error: string)

  /** The error text of a balance query on a missing account. */
  const AccountDoesNotExist := "account does not exist"

  /** The store after a handler, together with the message it replied. */
  datatype Step = Step(store: Store, outcome: Outcome)

  /** Every stored account carries the name it is filed under. */
  ghost predicate NamesMatch(m: Store)
  {
    forall k :: k in m ==> m[k].name == k
  }

  /** m and m' agree on every key other than `name`: same presence, same account. */
  ghost predicate SameExcept(m: Store, m': Store, name: string)
  {
    forall k :: k != name ==> (k in m <==> k in m') && (k in m ==> m[k] == m'[k])
  }

  /** Every stored balance is at least zero. */
  ghost predicate NonNegative(m: Store)
  {
    forall k :: k in m ==> m[k].balance >= 0.0
  }

  /** `Accounts.CreateAccount`: a taken name changes nothing; a fresh name gets a
      new account with the given opening balance, which is not validated. */
  function CreateAccount(m: Store, name: string, balance: real): (s: Step)
    ensures s.outcome == AlreadyExists <==> name in m
    ensures s.outcome == AlreadyExists ==> s.store == m
    ensures s.outcome != AlreadyExists ==>
              && s.outcome == Created
              && s.store.Keys == m.Keys + {name}
              && s.store[name] == Account(name, balance)
    ensures SameExcept(m, s.store, name)
    ensures NamesMatch(m) ==> NamesMatch(s.store)
  {
    if name in m then Step(m, AlreadyExists)
    else Step(m[name := Account(name, balance)], Created)
  }

  /** `Accounts.Deposit`: adds the amount, of either sign, to an existing balance. */
  function Deposit(m: Store, name: string, amount: real): (s: Step)
    ensures s.outcome == NotFound <==> name !in m
    ensures name !in m ==> s.store == m
    ensures name in m ==>
              && s.outcome == Ok(m[name].balance + amount)
              && s.store.Keys == m.Keys
              && s.store[name].name == m[name].name
              && s.store[name].balance == m[name].balance + amount
    ensures SameExcept(m, s.store, name)
    ensures NamesMatch(m) ==> NamesMatch(s.store)
  {
    if name !in m then Step(m, NotFound)
    else
      var account := m[name].(balance := m[name].balance + amount);
      Step(m[name := account], Ok(account.balance))
  }

  /** `Accounts.Withdraw`: subtracts the amount when the balance covers it.
      A successful withdrawal never leaves a negative balance, whatever the
      sign of the amount. */
  function Withdraw(m: Store, name: string, amount: real): (s: Step)
    ensures s.outcome == NotFound <==> name !in m
    ensures s.outcome == InsufficientFunds <==> name in m && m[name].balance < amount
    ensures s.outcome.Ok? <==> name in m && amount <= m[name].balance
    ensures !s.outcome.Ok? ==> s.store == m
    ensures s.outcome.Ok? ==>
              && s.outcome.newBalance == m[name].balance - amount
              && s.outcome.newBalance >= 0.0
              && s.store.Keys == m.Keys
              && s.store[name].name == m[name].name
              && s.store[name].balance == s.outcome.newBalance
    ensures SameExcept(m, s.store, name)
    ensures NamesMatch(m) ==> NamesMatch(s.store)
    ensures NonNegative(m) ==> NonNegative(s.store)
  {
    if name !in m then Step(m, NotFound)
    else if m[name].balance < amount then Step(m, InsufficientFunds)
    else
      var account := m[name].(balance := m[name].balance - amount);
      Step(m[name := account], Ok(account.balance))
  }

  /** `Accounts.ConsultBalance`: the stored balance, or an error that is distinct
      from every balance (a missing account does not read as zero). */
  function ConsultBalance(m: Store, name: string): (r: Result<real>)
    ensures r.Success? <==> name in m
    ensures r.Success? ==> r.value == m[name].balance
    ensures r.Failure? ==> r.error == AccountDoesNotExist
  {
    if name !in m then Failure(AccountDoesNotExist) else Success(m[name].balance)
  }

  /** `Accounts.DeleteAccount`: removes the named entry and nothing else. */
  function DeleteAccount(m: Store, name: string): (s: Step)
    ensures s.outcome == NotFound <==> name !in m
    ensures s.outcome != NotFound ==> s.outcome == Deleted
    ensures s.store.Keys == m.Keys - {name}
    ensures SameExcept(m, s.store, name)
    ensures NamesMatch(m) ==> NamesMatch(s.store)
    ensures NonNegative(m) ==> NonNegative(s.store)
  {
    if name !in m then Step(m, NotFound)
    else Step(m - {name}, Deleted)
  }

  /** One RPC call as the server decodes it.  The server's request structs carry
      no caller identifier, so none appears here. */
  datatype Request =
    | CreateAccountRequest(name: string, balance: real)
    | DepositRequest(name: string, amount: real)
    | WithdrawRequest(name: string, amount: real)
    | ConsultBalanceRequest(name: string)
    | DeleteAccountRequest(name: string)

  /** The store after the server handles one request. */
  function Apply(m: Store, req: Request): (m': Store)
    ensures SameExcept(m, m', req.name)
    ensures req.ConsultBalanceRequest? ==> m' == m
    ensures NamesMatch(m) ==> NamesMatch(m')
  {
    match req
    case CreateAccountRequest(name, balance) => CreateAccount(m, name, balance).store
    case DepositRequest(name, amount) => Deposit(m, name, amount).store
    case WithdrawRequest(name, amount) => Withdraw(m, name, amount).store
    case ConsultBalanceRequest(_) => m
    case DeleteAccountRequest(name) => DeleteAccount(m, name).store
  }

  /** The store after the server handles `reqs` in order.  The mutex serializes
      concurrent calls, so every interleaving of concurrent clients is served
      as some such sequence. */
  function Run(m: Store, reqs: seq<Request>): (m': Store)
    decreases |reqs|
    ensures NamesMatch(m) ==> NamesMatch(m')
  {
    if reqs == [] then m else Run(Apply(m, reqs[0]), reqs[1..])
  }
}
