/** The accounts service: the account store, the registry of pair semaphores,
    the notifications sent, and the transfer that works over all three. One
    call runs to completion before the next starts; a lock that another
    thread would hold shows up as a precondition that a permit is free. */
module Service {
  import opened Accounts
  import opened Requests
  import opened Transfers
  import opened LockProtocol

  /** A counting semaphore, as the pair registry holds them. */
  class Semaphore {
    var permits: int

    constructor (permits: int)
      ensures this.permits == permits
    {
      this.permits := permits;
    }

    /** `acquire()`: a missing permit would block, so it is required. */
    method Acquire()
      requires permits >= 1
      modifies this`permits
      ensures permits == old(permits) - 1
    {
      permits := permits - 1;
    }

    method Release()
      modifies this`permits
      ensures permits == old(permits) + 1
    {
      permits := permits + 1;
    }
  }

  /** What the store answers to a create: done, or the id was already taken. */
  datatype CreateOutcome = Created | DuplicateAccountId(accountId: string)

  class AccountsService {
    /** The account store, by id. */
    var accounts: map<string, Account>
    /** The registry of pair semaphores. */
    var locks: map<AccountPairKey, Semaphore>
    /** Every call made to the notification collaborator, oldest first. */
    var notifications: seq<Notification>
    /** What a transfer did: lookups, `toString` calls, lock operations and
        balance accesses, each recorded by the method that performed it. */
    ghost var trace: seq<Event>

    /** Every stored account is filed under its own id; since ids are
        constants, distinct ids hold distinct account objects. */
    ghost predicate Valid()
      reads this`accounts
    {
      forall id :: id in accounts ==> accounts[id].accountId == id
    }

    ghost function Balances(): (b: map<string, real>)
      reads this`accounts, accounts.Values`balance
      ensures b.Keys == accounts.Keys
    {
      map id | id in accounts :: accounts[id].balance
    }

    /** The part of the state a transfer is specified over. */
    ghost function State(): Ledger
      reads this`accounts, this`notifications, accounts.Values`balance
    {
      Ledger(Balances(), notifications)
    }

    /** The registry key a transfer between two stored accounts uses. */
    ghost function PairKeyOf(req: TransferRequest): AccountPairKey
      reads this`accounts, accounts.Values
      requires req.fromAccountId in accounts && req.toAccountId in accounts
    {
      AccountPairKey(accounts[req.fromAccountId].View(), accounts[req.toAccountId].View())
    }

    /** Every semaphore the transfer of `req` would wait on has a free permit. */
    ghost predicate Unblocked(req: TransferRequest)
      reads this`accounts, this`locks, accounts.Values, locks.Values
    {
      var f, t := req.fromAccountId, req.toAccountId;
      f in accounts && t in accounts ==>
        && accounts[f].permits >= 1
        && accounts[t].permits >= 1
        && (PairKeyOf(req) in locks ==> locks[PairKeyOf(req)].permits >= 1)
    }

    constructor ()
      ensures Valid()
      ensures accounts == map[] && locks == map[] && notifications == [] && trace == []
    {
      accounts := map[];
      locks := map[];
      notifications := [];
      trace := [];
    }

    /** Stores a new account; an id already in use is refused and nothing changes. */
    method CreateAccount(account: Account) returns (outcome: CreateOutcome)
      requires Valid()
      modifies this`accounts
      ensures Valid()
      ensures account.accountId in old(accounts) ==>
        outcome == DuplicateAccountId(account.accountId) && accounts == old(accounts)
      ensures account.accountId !in old(accounts) ==>
        outcome == Created && accounts == old(accounts)[account.accountId := account]
    {
      if account.accountId in accounts {
        outcome := DuplicateAccountId(account.accountId);
      } else {
        accounts := accounts[account.accountId := account];
        outcome := Created;
      }
    }

    /** The account stored under `accountId`, or null when there is none. */
    method GetAccount(accountId: string) returns (account: Account?)
      ensures account == null <==> accountId !in accounts
      ensures account != null ==> account == accounts[accountId]
    {
      if accountId in accounts {
        account := accounts[accountId];
      } else {
        account := null;
      }
    }

    /** `getAccount` as `transfer` calls it, recorded in the trace. */
    method LookUp(accountId: string) returns (account: Account?)
      modifies this`trace
      ensures account == null <==> accountId !in accounts
      ensures account != null ==> account == accounts[accountId]
      ensures trace == old(trace) + [LookedUp(accountId)]
    {
      account := GetAccount(accountId);
      trace := trace + [LookedUp(accountId)];
    }

    /** The two lookups at the start of `transfer`: the destination is looked
        up only when the source was found. */
    method LookUpBoth(req: TransferRequest) returns (from: Account?, to: Account?)
      modifies this`trace
      ensures from == null <==> req.fromAccountId !in accounts
      ensures from != null ==> from == accounts[req.fromAccountId]
      ensures from == null ==> to == null && trace == old(trace) + [LookedUp(req.fromAccountId)]
      ensures from != null ==>
        && (to == null <==> req.toAccountId !in accounts)
        && (to != null ==> to == accounts[req.toAccountId])
        && trace == old(trace) + [LookedUp(req.fromAccountId), LookedUp(req.toAccountId)]
    {
      from := LookUp(req.fromAccountId);
      to := null;
      if from != null {
        to := LookUp(req.toAccountId);
      }
    }

    /** `account.toString()`, recorded in the trace. Lombok's text is made of
        every field, so it reads the balance and the lock's state; it takes
        no lock to do so. */
    method Describe(account: Account) returns (view: AccountView)
      modifies this`trace
      ensures view.accountId == account.accountId && view.balance == account.balance
      ensures view.permits == account.permits
      ensures trace == old(trace) + [Described(account.accountId)]
    {
      view := account.View();
      trace := trace + [Described(account.accountId)];
    }

    /** `new AccountPairKey(from.toString(), to.toString())`: the source is
        rendered first, then the destination. */
    method PairKeyFor(from: Account, to: Account) returns (key: AccountPairKey)
      modifies this`trace
      ensures key == AccountPairKey(from.View(), to.View())
      ensures trace == old(trace) + KeyReads(from.accountId, to.accountId)
    {
      var fromView := Describe(from);
      var toView := Describe(to);
      key := AccountPairKey(fromView, toView);
    }

    /** `locks.computeIfAbsent(key, k -> new Semaphore(1))`: the registered
        semaphore, or a new one-permit semaphore registered under `key`. */
    method PairLockFor(key: AccountPairKey) returns (mutualLock: Semaphore)
      modifies this`locks
      ensures key in old(locks) ==> mutualLock == old(locks)[key] && locks == old(locks)
      ensures key !in old(locks) ==>
        fresh(mutualLock) && mutualLock.permits == 1 && locks == old(locks)[key := mutualLock]
    {
      if key in locks {
        mutualLock := locks[key];
      } else {
        mutualLock := new Semaphore(1);
        locks := locks[key := mutualLock];
      }
    }

    /** `mutualLock.acquire()`, recorded in the trace. */
    method AcquirePair(key: AccountPairKey, mutualLock: Semaphore)
      requires mutualLock.permits >= 1
      modifies mutualLock`permits, this`trace
      ensures mutualLock.permits == old(mutualLock.permits) - 1
      ensures trace == old(trace) + [PairAcquired(key)]
    {
      mutualLock.Acquire();
      trace := trace + [PairAcquired(key)];
    }

    /** `mutualLock.release()`, recorded in the trace. */
    method ReleasePair(key: AccountPairKey, mutualLock: Semaphore)
      modifies mutualLock`permits, this`trace
      ensures mutualLock.permits == old(mutualLock.permits) + 1
      ensures trace == old(trace) + [PairReleased(key)]
    {
      mutualLock.Release();
      trace := trace + [PairReleased(key)];
    }

    /** `locks.remove(accountPair)`, recorded in the trace. */
    method ForgetPair(key: AccountPairKey)
      modifies this`locks, this`trace
      ensures locks == old(locks) - {key}
      ensures trace == old(trace) + [PairForgotten(key)]
    {
      locks := locks - {key};
      trace := trace + [PairForgotten(key)];
    }

    /** `account.lock()`, recorded in the trace. */
    method LockAccount(account: Account)
      requires account.permits >= 1
      modifies account`permits, this`trace
      ensures account.permits == old(account.permits) - 1
      ensures trace == old(trace) + [AccountLocked(account.accountId)]
    {
      account.Lock();
      trace := trace + [AccountLocked(account.accountId)];
    }

    /** `account.unlock()`, recorded in the trace. */
    method UnlockAccount(account: Account)
      modifies account`permits, this`trace
      ensures account.permits == old(account.permits) + 1
      ensures trace == old(trace) + [AccountUnlocked(account.accountId)]
    {
      account.Unlock();
      trace := trace + [AccountUnlocked(account.accountId)];
    }

    /** `account.getBalance()`, recorded in the trace. */
    method ReadBalance(account: Account) returns (balance: real)
      modifies this`trace
      ensures balance == account.balance
      ensures trace == old(trace) + [BalanceRead(account.accountId)]
    {
      balance := account.balance;
      trace := trace + [BalanceRead(account.accountId)];
    }

    /** `account.setBalance(balance)`, recorded in the trace. */
    method WriteBalance(account: Account, balance: real)
      modifies account`balance, this`trace
      ensures account.balance == balance
      ensures trace == old(trace) + [BalanceWritten(account.accountId)]
    {
      account.SetBalance(balance);
      trace := trace + [BalanceWritten(account.accountId)];
    }

    /** The body of the `try` block and the two account unlocks of the
        `finally` block: lock `from`, then `to`; read both balances; stop if
        the source holds strictly less than the amount; otherwise debit,
        credit and notify both holders; unlock `to`, then `from`. Every lock
        and balance operation is recorded by the method that performs it. */
    method MoveUnderLocks(from: Account, to: Account, amount: real) returns (status: TransferStatus)
      requires from != to && from.permits >= 1 && to.permits >= 1
      modifies from`balance, from`permits, to`balance, to`permits, this`notifications, this`trace
      ensures from.permits == old(from.permits) && to.permits == old(to.permits)
      ensures status == (if old(from.balance) < amount then LimitExceeded else Success)
      ensures status == LimitExceeded ==>
        from.balance == old(from.balance) && to.balance == old(to.balance) && notifications == old(notifications)
      ensures status == Success ==>
        && from.balance == old(from.balance) - amount
        && to.balance == old(to.balance) + amount
        && notifications == old(notifications)
             + [Notification(from.accountId, Debited(amount, to.accountId)),
                Notification(to.accountId, Credited(amount, from.accountId))]
      ensures trace == old(trace) + UnderAccountLocks(from.accountId, to.accountId, status == Success)
    {
      LockAccount(from);
      LockAccount(to);
      var fromBalance := ReadBalance(from);
      var toBalance := ReadBalance(to);
      if fromBalance < amount {
        status := LimitExceeded;
      } else {
        WriteBalance(from, fromBalance - amount);
        WriteBalance(to, toBalance + amount);
        notifications := notifications + [Notification(from.accountId, Debited(amount, to.accountId))];
        notifications := notifications + [Notification(to.accountId, Credited(amount, from.accountId))];
        status := Success;
      }
      UnlockAccount(to);
      UnlockAccount(from);
    }

    /** The registry and semaphore part of a transfer between two present,
        distinct accounts, once the key is built: fetch the key's semaphore or
        register a new one with a single permit, acquire it, move the money
        under the two account locks, then release the semaphore and drop the
        key. */
    method MoveUnderPairLock(key: AccountPairKey, from: Account, to: Account, amount: real) returns (status: TransferStatus)
      requires from != to && from.permits >= 1 && to.permits >= 1
      requires key in locks ==> locks[key].permits >= 1
      modifies this`locks, this`notifications, this`trace
      modifies from`balance, from`permits, to`balance, to`permits, locks.Values`permits
      ensures from.permits == old(from.permits) && to.permits == old(to.permits)
      ensures forall s :: s in old(locks.Values) ==> s.permits == old(s.permits)
      ensures locks == old(locks) - {key}
      ensures trace == old(trace) + PairPhase(from.accountId, to.accountId, key, status == Success)
      ensures status == (if old(from.balance) < amount then LimitExceeded else Success)
      ensures status == LimitExceeded ==>
        from.balance == old(from.balance) && to.balance == old(to.balance) && notifications == old(notifications)
      ensures status == Success ==>
        && from.balance == old(from.balance) - amount
        && to.balance == old(to.balance) + amount
        && notifications == old(notifications)
             + [Notification(from.accountId, Debited(amount, to.accountId)),
                Notification(to.accountId, Credited(amount, from.accountId))]
    {
      var mutualLock := PairLockFor(key);
      AcquirePair(key, mutualLock);
      status := MoveUnderLocks(from, to, amount);
      ReleasePair(key, mutualLock);
      ForgetPair(key);
    }

    /** The whole transfer between two present, distinct accounts after the
        lookups: build the pair key from the two accounts' text, then the
        pair phase. */
    method TransferBetween(from: Account, to: Account, amount: real) returns (status: TransferStatus)
      requires from != to && from.permits >= 1 && to.permits >= 1
      requires var key := AccountPairKey(from.View(), to.View());
        key in locks ==> locks[key].permits >= 1
      modifies this`locks, this`notifications, this`trace
      modifies from`balance, from`permits, to`balance, to`permits, locks.Values`permits
      ensures from.permits == old(from.permits) && to.permits == old(to.permits)
      ensures forall s :: s in old(locks.Values) ==> s.permits == old(s.permits)
      ensures locks == old(locks) - {AccountPairKey(old(from.View()), old(to.View()))}
      ensures trace == old(trace) + LockingEvents(from.accountId, to.accountId,
        AccountPairKey(old(from.View()), old(to.View())), status == Success)
      ensures status == (if old(from.balance) < amount then LimitExceeded else Success)
      ensures status == LimitExceeded ==>
        from.balance == old(from.balance) && to.balance == old(to.balance) && notifications == old(notifications)
      ensures status == Success ==>
        && from.balance == old(from.balance) - amount
        && to.balance == old(to.balance) + amount
        && notifications == old(notifications)
             + [Notification(from.accountId, Debited(amount, to.accountId)),
                Notification(to.accountId, Credited(amount, from.accountId))]
    {
      var key := PairKeyFor(from, to);
      status := MoveUnderPairLock(key, from, to, amount);
    }

    /** A transfer between two stored, distinct accounts, from the lookups on:
        the store's balances and notifications become those of `Apply`, and
        every lock ends as it started. */
    method TransferStored(req: TransferRequest, from: Account, to: Account) returns (status: TransferStatus)
      requires Valid() && req.fromAccountId != req.toAccountId && Unblocked(req)
      requires req.fromAccountId in accounts && accounts[req.fromAccountId] == from
      requires req.toAccountId in accounts && accounts[req.toAccountId] == to
      modifies this`locks, this`notifications, this`trace, accounts.Values`balance, accounts.Values`permits, locks.Values`permits
      ensures status == Apply(old(State()), req).status
      ensures State() == Apply(old(State()), req).ledger
      ensures forall a :: a in old(accounts.Values) ==> a.permits == old(a.permits)
      ensures forall s :: s in old(locks.Values) ==> s.permits == old(s.permits)
      ensures trace == old(trace) + LockingEvents(req.fromAccountId, req.toAccountId, old(PairKeyOf(req)), status == Success)
      ensures locks == old(locks) - {old(PairKeyOf(req))}
    {
      ghost var f, t := req.fromAccountId, req.toAccountId;
      ghost var bal0 := Balances();
      assert bal0[f] == from.balance;

      status := TransferBetween(from, to, req.amount);

      ghost var expected := if status == Success
        then bal0[f := bal0[f] - req.amount][t := bal0[t] + req.amount] else bal0;
      assert Balances() == expected by {
        forall id | id in accounts
          ensures accounts[id].balance == expected[id]
        {
          if id != f && id != t {
            assert accounts[id] != from && accounts[id] != to;
          }
        }
      }
    }

    /** One transfer. Balances, notifications and outcome are exactly those of
        `Apply`; every account lock and pair semaphore ends as it started; the
        registry loses the pair key; the trace gains the lookups and then
        `LockingEvents`, which replays without a violation
        (`TransferNests`). A transfer from a stored account to itself is
        excluded: it would take the same one-permit lock twice and never
        return (and `SelfTransferCreatesMoney` shows what the arithmetic would
        do if it did). */
    method Transfer(req: TransferRequest) returns (status: TransferStatus)
      requires Valid()
      requires req.fromAccountId in accounts ==> req.fromAccountId != req.toAccountId
      requires Unblocked(req)
      modifies this`locks, this`notifications, this`trace, accounts.Values`balance, accounts.Values`permits, locks.Values`permits
      ensures Valid() && accounts == old(accounts)
      ensures status == Apply(old(State()), req).status
      ensures State() == Apply(old(State()), req).ledger
      ensures forall a :: a in old(accounts.Values) ==> a.permits == old(a.permits)
      ensures forall s :: s in old(locks.Values) ==> s.permits == old(s.permits)
      ensures req.fromAccountId !in old(accounts) ==>
        trace == old(trace) + [LookedUp(req.fromAccountId)] && locks == old(locks)
      ensures req.fromAccountId in old(accounts) && req.toAccountId !in old(accounts) ==>
        trace == old(trace) + [LookedUp(req.fromAccountId), LookedUp(req.toAccountId)] && locks == old(locks)
      ensures req.fromAccountId in old(accounts) && req.toAccountId in old(accounts) ==>
        var key := old(PairKeyOf(req));
        && trace == old(trace) + [LookedUp(req.fromAccountId), LookedUp(req.toAccountId)]
                      + LockingEvents(req.fromAccountId, req.toAccountId, key, status == Success)
        && locks == old(locks) - {key}
    {
      var from, to := LookUpBoth(req);
      if from == null {
        FromMissing(old(State()), req);
        return FromAccMissing;
      }
      if to == null {
        ToMissing(old(State()), req);
        return ToAccMissing;
      }
      assert State() == old(State());
      status := TransferStored(req, from, to);
    }

    /** `Transfer`, with the events it records checked against the lock
        protocol: whatever the outcome, they replay from no lock held,
        without a violation, back to no lock held. */
    method TransferFollowsProtocol(req: TransferRequest) returns (status: TransferStatus)
      requires Valid()
      requires req.fromAccountId in accounts ==> req.fromAccountId != req.toAccountId
      requires Unblocked(req)
      modifies this`locks, this`notifications, this`trace, accounts.Values`balance, accounts.Values`permits, locks.Values`permits
      ensures status == Apply(old(State()), req).status
      ensures State() == Apply(old(State()), req).ledger
      ensures |old(trace)| <= |trace| && Replay([], trace[|old(trace)|..]) == Some([])
    {
      ghost var f, t := req.fromAccountId, req.toAccountId;
      status := Transfer(req);
      ghost var added := trace[|old(trace)|..];
      if f !in old(accounts) {
        assert added == [LookedUp(f)];
        ReplayOne([], LookedUp(f));
      } else if t !in old(accounts) {
        assert added == [LookedUp(f), LookedUp(t)];
        ReplayTwo([], LookedUp(f), LookedUp(t));
      } else {
        ghost var key := old(PairKeyOf(req));
        assert added == [LookedUp(f), LookedUp(t)] + LockingEvents(f, t, key, status == Success);
        TransferNests(f, t, key, status == Success);
      }
    }
  }
}
