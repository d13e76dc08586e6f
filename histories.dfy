/** Properties of whole histories.  The mutex totally orders concurrent calls,
    so whatever the interleaving of clients, the server performs the calls one
    after another; a history is that order, and `Run` replays it.
 */
module Histories {
  import opened Bank

  /** Replaying two histories one after the other is replaying their concatenation. */
  lemma {:induction false} RunAppend(m: Store, a: seq<Request>, b: seq<Request>)
    ensures Run(m, a + b) == Run(Run(m, a), b)
    decreases |a|
  {
    if a != [] {
      assert (a + b)[1..] == a[1..] + b;
      RunAppend(Apply(m, a[0]), a[1..], b);
    } else {
      assert a + b == b;
    }
  }

  /** A request creates the given name. */
  predicate Creates(req: Request, name: string)
  {
    req.CreateAccountRequest? && req.name == name
  }

  /** A name that is absent and that no request of the history creates stays absent,
      so every balance query on it fails. */
  lemma {:induction false} AbsentUnlessCreated(m: Store, reqs: seq<Request>, name: string)
    requires name !in m
    requires forall i :: 0 <= i < |reqs| ==> !Creates(reqs[i], name)
    ensures name !in Run(m, reqs)
    ensures ConsultBalance(Run(m, reqs), name) == Failure(AccountDoesNotExist)
    decreases |reqs|
  {
    if reqs != [] {
      assert !Creates(reqs[0], name);
      AbsentUnlessCreated(Apply(m, reqs[0]), reqs[1..], name);
    }
  }

  /** After a deletion, every later balance query fails until the name is created again. */
  lemma ConsultAfterDeleteFails(m: Store, before: seq<Request>, after: seq<Request>, name: string)
    requires forall i :: 0 <= i < |after| ==> !Creates(after[i], name)
    ensures ConsultBalance(Run(m, before + [DeleteAccountRequest(name)] + after), name).Failure?
  {
    RunAppend(m, before + [DeleteAccountRequest(name)], after);
    RunAppend(m, before, [DeleteAccountRequest(name)]);
    AbsentUnlessCreated(Run(m, before + [DeleteAccountRequest(name)]), after, name);
  }

  /** The amount one request deposits to `name`. */
  function DepositedTo(req: Request, name: string): (d: real)
  {
    if req.DepositRequest? && req.name == name then req.amount else 0.0
  }

  /** The sum of the amounts the history deposits to `name`. */
  function DepositsTo(reqs: seq<Request>, name: string): (d: real)
    decreases |reqs|
  {
    if reqs == [] then 0.0 else DepositedTo(reqs[0], name) + DepositsTo(reqs[1..], name)
  }

  lemma {:induction false} DepositsToAppend(a: seq<Request>, b: seq<Request>, name: string)
    ensures DepositsTo(a + b, name) == DepositsTo(a, name) + DepositsTo(b, name)
    decreases |a|
  {
    if a == [] {
      assert a + b == b;
    } else {
      assert (a + b)[1..] == a[1..] + b;
      DepositsToAppend(a[1..], b, name);
    }
  }

  /** Taking one element out of a sequence takes it out of its multiset. */
  lemma RemoveAt(s: seq<Request>, j: nat)
    requires j < |s|
    ensures multiset(s[..j] + s[j + 1..]) == multiset(s) - multiset{s[j]}
  {
    assert s == s[..j] + [s[j]] + s[j + 1..];
  }

  /** Matching the head of one permutation with an element of the other leaves two permutations. */
  lemma PermutationTail(a: seq<Request>, b: seq<Request>, j: nat)
    requires multiset(a) == multiset(b) && a != [] && j < |b| && b[j] == a[0]
    ensures multiset(a[1..]) == multiset(b[..j] + b[j + 1..])
  {
    RemoveAt(a, 0);
    RemoveAt(b, j);
    assert a[..0] + a[1..] == a[1..];
  }

  /** The sum over a history is the one request's amount plus the sum over the others. */
  lemma DepositsToRemoveAt(s: seq<Request>, j: nat, name: string)
    requires j < |s|
    ensures DepositsTo(s, name) == DepositedTo(s[j], name) + DepositsTo(s[..j] + s[j + 1..], name)
  {
    assert s == s[..j] + [s[j]] + s[j + 1..];
    DepositsToAppend(s[..j] + [s[j]], s[j + 1..], name);
    DepositsToAppend(s[..j], [s[j]], name);
    DepositsToAppend(s[..j], s[j + 1..], name);
    assert DepositsTo([s[j]], name) == DepositedTo(s[j], name) + DepositsTo([s[j]][1..], name);
  }

  /** The deposited sum does not depend on the order in which the requests were served. */
  lemma {:induction false} DepositsToPermutation(a: seq<Request>, b: seq<Request>, name: string)
    requires multiset(a) == multiset(b)
    ensures DepositsTo(a, name) == DepositsTo(b, name)
    decreases |a|
  {
    if a == [] {
      assert |b| == |multiset(b)| == 0;
    } else {
      var x := a[0];
      assert x in multiset(b);
      var j :| 0 <= j < |b| && b[j] == x;
      PermutationTail(a, b, j);
      DepositsToPermutation(a[1..], b[..j] + b[j + 1..], name);
      DepositsToRemoveAt(b, j, name);
    }
  }

  /** When every request that names `name` is a deposit, the account ends with its
      opening balance plus the sum of those deposits, whatever else the history
      does to other accounts. */
  lemma {:induction false} DepositsAccumulate(m: Store, reqs: seq<Request>, name: string)
    requires name in m
    requires forall i :: 0 <= i < |reqs| && reqs[i].name == name ==> reqs[i].DepositRequest?
    ensures var m' := Run(m, reqs);
            name in m' && m'[name].balance == m[name].balance + DepositsTo(reqs, name)
    decreases |reqs|
  {
    if reqs != [] {
      assert reqs[0].name == name ==> reqs[0].DepositRequest?;
      AbsentOrDeposit(m, reqs[0], name);
      DepositsAccumulate(Apply(m, reqs[0]), reqs[1..], name);
    }
  }

  /** Two interleavings of the same requests leave the account with the same balance. */
  lemma InterleavingsAgree(m: Store, a: seq<Request>, b: seq<Request>, name: string)
    requires name in m && multiset(a) == multiset(b)
    requires forall i :: 0 <= i < |a| && a[i].name == name ==> a[i].DepositRequest?
    ensures name in Run(m, a) && name in Run(m, b)
    ensures Run(m, a)[name].balance == Run(m, b)[name].balance
  {
    forall i | 0 <= i < |b| && b[i].name == name
      ensures b[i].DepositRequest?
    {
      assert b[i] in multiset(a);
      var k :| 0 <= k < |a| && a[k] == b[i];
    }
    DepositsAccumulate(m, a, name);
    DepositsAccumulate(m, b, name);
    DepositsToPermutation(a, b, name);
  }

  /** One request's effect on `name` under the hypothesis of DepositsAccumulate. */
  lemma AbsentOrDeposit(m: Store, req: Request, name: string)
    requires name in m
    requires req.name == name ==> req.DepositRequest?
    ensures var m' := Apply(m, req);
            name in m'
            && m'[name].balance == m[name].balance + DepositedTo(req, name)
  {
  }

  /** N concurrent deposits of one unit to an account serialize: its balance grows
      by exactly N, for every N. */
  lemma {:induction false} UnitDepositsSerialize(m: Store, reqs: seq<Request>, name: string)
    requires name in m
    requires forall i :: 0 <= i < |reqs| ==> reqs[i] == DepositRequest(name, 1.0)
    ensures name in Run(m, reqs) && Run(m, reqs)[name].balance == m[name].balance + |reqs| as real
  {
    DepositsAccumulate(m, reqs, name);
    UnitDepositsSum(reqs, name);
  }

  lemma {:induction false} UnitDepositsSum(reqs: seq<Request>, name: string)
    requires forall i :: 0 <= i < |reqs| ==> reqs[i] == DepositRequest(name, 1.0)
    ensures DepositsTo(reqs, name) == |reqs| as real
    decreases |reqs|
  {
    if reqs != [] {
      assert reqs[0] == DepositRequest(name, 1.0);
      UnitDepositsSum(reqs[1..], name);
    }
  }

  /** Amounts that a request brings in: the opening balance of a creation and a deposit. */
  predicate NonNegativeAmounts(req: Request)
  {
    match req
    case CreateAccountRequest(_, balance) => balance >= 0.0
    case DepositRequest(_, amount) => amount >= 0.0
    case _ => true
  }

  /** Withdrawals, of any amount, never overdraw: if no creation opens a negative
      balance and no deposit is negative, no balance ever goes below zero. */
  lemma {:induction false} BalancesStayNonNegative(m: Store, reqs: seq<Request>)
    requires NonNegative(m)
    requires forall i :: 0 <= i < |reqs| ==> NonNegativeAmounts(reqs[i])
    ensures NonNegative(Run(m, reqs))
    decreases |reqs|
  {
    if reqs != [] {
      assert NonNegativeAmounts(reqs[0]);
      assert NonNegative(Apply(m, reqs[0]));
      BalancesStayNonNegative(Apply(m, reqs[0]), reqs[1..]);
    }
  }
}
