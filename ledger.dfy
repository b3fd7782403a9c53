/** The two ledger capabilities of the execution context, CanTransfer and
    Transfer, over the account balances kept by the block chain's state. */
module Ledgers {
  import opened Types

  /** The balance of `addr`; an account the state has never seen holds 0. */
  function Balance(balances: map<Address, int>, addr: Address): int
  {
    if addr in balances then balances[addr] else 0
  }

  /** The sum of all balances. */
  ghost function Total(balances: map<Address, int>): int
    decreases |balances|
  {
    if balances == map[] then 0
    else
      var a :| a in balances;
      balances[a] + Total(balances - {a})
  }

  /** The sum does not depend on which account is taken out first. */
  lemma {:induction false} TotalRemove(balances: map<Address, int>, a: Address)
    requires a in balances
    ensures Total(balances) == balances[a] + Total(balances - {a})
    decreases |balances|
  {
    var b :| b in balances && Total(balances) == balances[b] + Total(balances - {b});
    if b != a {
      var rest := balances - {b};
      TotalRemove(rest, a);
      TotalRemove(balances - {a}, b);
      assert rest - {a} == (balances - {a}) - {b};
    }
  }

  /** Setting one account to `v` changes the sum by `v` minus its old balance. */
  lemma TotalUpdate(balances: map<Address, int>, a: Address, v: int)
    ensures Total(balances[a := v]) == Total(balances) - Balance(balances, a) + v
  {
    var updated := balances[a := v];
    TotalRemove(updated, a);
    assert updated - {a} == balances - {a};
    if a in balances {
      TotalRemove(balances, a);
    } else {
      assert balances - {a} == balances;
    }
  }

  /** Go's big.Int Cmp: -1, 0 or +1 as `x` is below, equal to or above `y`. */
  function Cmp(x: int, y: int): (c: int)
    ensures c == -1 || c == 0 || c == 1
    ensures c < 0 <==> x < y
    ensures c == 0 <==> x == y
  {
    if x < y then -1 else if x == y then 0 else 1
  }

  /** The balances after Transfer(sender, recipient, amount): the sender is
      debited, then the recipient credited. */
  function Transferred(balances: map<Address, int>, sender: Address, recipient: Address, amount: int): (after: map<Address, int>)
    ensures sender != recipient ==> Balance(after, sender) == Balance(balances, sender) - amount
    ensures sender != recipient ==> Balance(after, recipient) == Balance(balances, recipient) + amount
    ensures sender == recipient ==> Balance(after, sender) == Balance(balances, sender)
    ensures forall x :: x != sender && x != recipient ==> Balance(after, x) == Balance(balances, x)
    ensures after.Keys == balances.Keys + {sender, recipient}
    ensures Total(after) == Total(balances)
  {
    var debited := balances[sender := Balance(balances, sender) - amount];
    var credited := debited[recipient := Balance(debited, recipient) + amount];
    TotalUpdate(balances, sender, Balance(balances, sender) - amount);
    TotalUpdate(debited, recipient, Balance(debited, recipient) + amount);
    credited
  }

  /** A transfer that CanTransfer allows, of a non-negative amount, leaves no
      balance negative if none was before. */
  lemma TransferKeepsBalancesNonNegative(balances: map<Address, int>, sender: Address, recipient: Address, amount: int)
    requires forall x :: x in balances ==> balances[x] >= 0
    requires 0 <= amount <= Balance(balances, sender)
    ensures forall x :: x in Transferred(balances, sender, recipient, amount) ==>
              Transferred(balances, sender, recipient, amount)[x] >= 0
  {
    var after := Transferred(balances, sender, recipient, amount);
    forall x | x in after ensures after[x] >= 0 {
      assert after[x] == Balance(after, x);
    }
  }

  /** The account state of blockchain.BlockChain, as far as the ledger
      capabilities use it. */
  class Ledger {
    var balances: map<Address, int>

    constructor (balances: map<Address, int>)
      ensures this.balances == balances
    {
      this.balances := balances;
    }

    function GetBalance(addr: Address): int
      reads this
    {
      Balance(balances, addr)
    }

    method SetBalance(addr: Address, amount: int)
      modifies this
      ensures balances == old(balances)[addr := amount]
    {
      balances := balances[addr := amount];
    }

    method AddBalance(addr: Address, amount: int)
      modifies this
      ensures balances == old(balances)[addr := old(GetBalance(addr)) + amount]
    {
      balances := balances[addr := GetBalance(addr) + amount];
    }

    method SubBalance(addr: Address, amount: int)
      modifies this
      ensures balances == old(balances)[addr := old(GetBalance(addr)) - amount]
    {
      balances := balances[addr := GetBalance(addr) - amount];
    }
  }

  /** CanTransfer (evm_context.go, lines 119-121). */
  function CanTransfer(db: Ledger, addr: Address, amount: int): (ok: bool)
    reads db
    ensures ok <==> db.GetBalance(addr) >= amount
  {
    Cmp(db.GetBalance(addr), amount) >= 0
  }

  /** Transfer (evm_context.go, lines 124-127). */
  method Transfer(db: Ledger, sender: Address, recipient: Address, amount: int)
    modifies db
    ensures db.balances == Transferred(old(db.balances), sender, recipient, amount)
    ensures Total(db.balances) == Total(old(db.balances))
  {
    db.SubBalance(sender, amount);
    db.AddBalance(recipient, amount);
  }
}
