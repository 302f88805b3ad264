/** An account: its identity, its balance and the one-permit semaphore that guards it. */
module Accounts {

  /** What Lombok's generated `toString` of an account is made of: every field,
      the lock's permit count included. Used only as an opaque, comparable view. */
  datatype AccountView = AccountView(accountId: string, balance: real, permits: int)

  /** Balances are exact decimals; `real` holds every decimal value exactly.
      The lock is a `Semaphore(1)`, kept here as its permit count. */
  class Account {
    const accountId: string
    var balance: real
    var permits: int

    /** `Account(id)`: balance zero, lock free. */
    constructor (accountId: string)
      ensures this.accountId == accountId && balance == 0.0
      ensures permits == 1
    {
      this.accountId := accountId;
      balance := 0.0;
      permits := 1;
    }

    /** `Account(id, balance)`: both stored as given, lock free. */
    constructor WithBalance(accountId: string, balance: real)
      ensures this.accountId == accountId && this.balance == balance
      ensures permits == 1
    {
      this.accountId := accountId;
      this.balance := balance;
      permits := 1;
    }

    /** The bean-validation constraints: a non-empty id and a balance of at
        least zero (inclusive). A Dafny string is never null. */
    predicate ConstraintsHold()
      reads this
    {
      |accountId| > 0 && balance >= 0.0
    }

    /** Lombok's `equals`: the lock is excluded, so only id and balance count. */
    predicate Equals(other: Account)
      reads this, other
    {
      accountId == other.accountId && balance == other.balance
    }

    /** The text `toString` renders, as a value. */
    function View(): AccountView
      reads this
    {
      AccountView(accountId, balance, permits)
    }

    /** The `@Data` setter. */
    method SetBalance(newBalance: real)
      modifies this`balance
      ensures balance == newBalance
    {
      balance := newBalance;
    }

    /** `lock()`: takes the permit; a missing permit would block, so it is required. */
    method Lock()
      requires permits >= 1
      modifies this`permits
      ensures permits == old(permits) - 1
    {
      permits := permits - 1;
    }

    /** `unlock()`: gives a permit back, with no check that the caller held one. */
    method Unlock()
      modifies this`permits
      ensures permits == old(permits) + 1
    {
      permits := permits + 1;
    }
  }

  /** `unlock()` undoes `lock()`: the permit count is back where it was. */
  method LockThenUnlock(a: Account)
    requires a.permits >= 1
    modifies a`permits
    ensures a.permits == old(a.permits)
  {
    a.Lock();
    a.Unlock();
  }

  /** Equality never looks at the lock: two accounts that agree on id and
      balance are equal whatever their permit counts. */
  lemma EqualsIgnoresLock(a: Account, b: Account)
    requires a.accountId == b.accountId && a.balance == b.balance
    ensures a.Equals(b) && b.Equals(a)
    ensures a.permits != b.permits ==> a.View() != b.View()
  {
  }

  /** A freshly created account, whatever its id, satisfies the balance
      constraint; only the id can make it invalid. */
  method NewAccountConstraints(accountId: string) returns (valid: bool)
    ensures valid <==> |accountId| > 0
  {
    var a := new Account(accountId);
    valid := a.ConstraintsHold();
  }
}
