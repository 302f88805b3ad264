# Account transfers: a Dafny model

This project models the core of a small money-transfer service. Accounts are
kept in a store under their ids. Each account holds a balance and a
one-permit semaphore that serves as its lock. A transfer request names a
source account, a destination account and an amount. The service's
`transfer` works in this order:

1. It looks up the source account, then the destination.
2. It registers a pair semaphore under a key built from the two accounts,
   and acquires that semaphore.
3. It locks the source, then the destination, and reads both balances.
4. If the source holds strictly less than the amount, it refuses with
   `LIMIT_EXCEEDED`.
5. Otherwise it debits the source, credits the destination, and sends one
   notification to each holder: the debit first, then the credit.
6. Whatever happened, it unlocks the destination, then the source, releases
   the pair semaphore, and drops the key from the registry.

The model has these files:

- `account.dfy` (module `Accounts`): the `Account` class. Its fields are the
  id, the balance and the lock's permit count. It has two constructors, the
  balance setter, `lock`/`unlock`, the validation constraints, and an
  equality that ignores the lock.
- `transfer_request.dfy` (module `Requests`): the `TransferRequest` value and
  its validation constraints.
- `messages.dfy` (module `Messages`): the two notification texts.
- `transfer_spec.dfy` (module `Transfers`): what one transfer means, as a
  function `Apply` on a `Ledger` (balances by id plus the notifications sent
  so far). It also holds the properties of one transfer.
- `ledger_total.dfy` (module `LedgerTotal`): the sum of all balances, and its
  conservation.
- `lock_protocol.dfy` (module `LockProtocol`): the registry key and the
  events a transfer records: lookups, the two `toString` calls that build the
  key, lock operations, and `getBalance`/`setBalance` calls. A replay over
  the stack of held locks fails if any of these happen:
  - a one-permit lock is taken twice;
  - a lock is released out of order;
  - a key is removed while its semaphore is held;
  - `getBalance` or `setBalance` is called without both the account's lock
    and a pair lock naming the account.

  The `toString` calls also read both balances and lock states. They happen
  before any lock is taken, so the replay records them without checking
  them. `KeyReadsUnguarded` shows they happen with nothing held: under the
  `getBalance` rule they would be violations.
- `transfer_runs.dfy` (module `TransferRuns`): transfers applied one after
  another. It proves how many succeed and where the balances end, including
  the concrete scenarios of the controller tests.
- `accounts_service.dfy` (module `Service`): the `AccountsService` class. It
  holds the account store, the registry of pair semaphores, the notification
  log and a ghost trace. Each lookup, `toString`, acquire, lock, balance
  read, balance write, unlock, release and key removal is done by a small
  method of the service. That method performs the operation and appends its own event to
  the trace, so the trace records what actually ran, in order. `Transfer` is
  proved to leave the store's balances and notifications exactly as `Apply`
  says. It is also proved to return every lock and semaphore to its starting
  permit count and to drop the pair key. Its trace is proved to be the lookups
  followed by `LockingEvents`. `TransferFollowsProtocol` proves that the
  events any call adds replay without a violation.

Amounts and balances are `real`. `real` holds every decimal value exactly,
as `BigDecimal` does for the values the service computes (additions and
subtractions only).

A transfer from a stored account to itself passes request validation. In
the source it takes the account's one-permit lock a second time while
holding it, so it blocks forever. `Transfer` therefore requires the two ids
to differ whenever the source exists. Two lemmas show what the source would
otherwise do:

- `SelfTransferNeverCompletes`: the lock protocol cannot complete.
- `SelfTransferCreatesMoney`: the read-both-then-write arithmetic would
  credit the amount over the debit, creating money.

## Model

| member | source | states |
|---|---|---|
| `Accounts.Account.constructor` | src/main/java/com/dws/challenge/domain/Account.java:31-34 | A new account has the given id, a zero balance and a lock with exactly one free permit. |
| `Accounts.Account.WithBalance` | src/main/java/com/dws/challenge/domain/Account.java:36-41 | A new account stores the given id and balance, and its lock has one free permit. |
| `Accounts.Account.ConstraintsHold` | src/main/java/com/dws/challenge/domain/Account.java:18-24 | An account is valid when its id is non-empty and its balance is at least zero, the bound inclusive. |
| `Accounts.Account.Equals` | src/main/java/com/dws/challenge/domain/Account.java:15 | Lombok's equality compares the id and the balance and excludes the lock field. |
| `Accounts.Account.SetBalance` | src/main/java/com/dws/challenge/domain/Account.java:15 | The generated setter replaces the balance and changes nothing else. |
| `Accounts.Account.Lock` | src/main/java/com/dws/challenge/domain/Account.java:43-46 | `lock()` takes one permit. It can only proceed when a permit is free. |
| `Accounts.Account.Unlock` | src/main/java/com/dws/challenge/domain/Account.java:48-50 | `unlock()` gives one permit back, unconditionally. |
| `Accounts.LockThenUnlock` | src/main/java/com/dws/challenge/domain/Account.java:43-50 | `unlock()` after `lock()` restores the permit count. |
| `Accounts.EqualsIgnoresLock` | src/main/java/com/dws/challenge/domain/Account.java:26-29 | Two accounts with the same id and balance are equal whatever their lock state, although their text forms differ when the permits differ. |
| `Accounts.NewAccountConstraints` | src/main/java/com/dws/challenge/domain/Account.java:18-24 | An account built from an id alone is valid exactly when the id is non-empty; its zero balance meets the inclusive lower bound. |
| `Requests.TransferRequest.ConstraintsHold` | src/main/java/com/dws/challenge/domain/TransferRequest.java:15-25 | A request is valid when both ids are non-empty and the amount is strictly positive. Nothing relates the two ids. |
| `Requests.ZeroAmountRejected` | src/main/java/com/dws/challenge/domain/TransferRequest.java:24 | A zero amount fails validation: the lower bound is exclusive. |
| `Requests.SelfTransferPassesValidation` | src/main/java/com/dws/challenge/domain/TransferRequest.java:15-25 | Validation does not relate the two ids: a request from an account to itself, with non-empty id and positive amount, is valid. |
| `Messages.FromMsg` | src/main/java/com/dws/challenge/service/AccountsService.java:75-77 | The debit text starts with the common prefix, ends with the destination's id, and has the length of its parts. |
| `Messages.ToMsg` | src/main/java/com/dws/challenge/service/AccountsService.java:71-73 | The credit text starts with the common prefix, ends with the source's id, and has the length of its parts. |
| `Messages.DebitAndCreditDiffer` | src/main/java/com/dws/challenge/service/AccountsService.java:71-77 | For one amount, a debit text never equals a credit text. |
| `Messages.FromMsgDeterminesCounterparty` | src/main/java/com/dws/challenge/service/AccountsService.java:76 | Two debit texts for the same amount are equal only if they name the same destination. |
| `Messages.ToMsgDeterminesCounterparty` | src/main/java/com/dws/challenge/service/AccountsService.java:72 | Two credit texts for the same amount are equal only if they name the same source. |
| `Transfers.StatusOf` | src/main/java/com/dws/challenge/service/AccountsService.java:37-57 | The outcome is `FROM_ACC_MISSING` if and only if the source is absent. It is `TO_ACC_MISSING` if and only if the source is present and the destination absent. With both present, it is `LIMIT_EXCEEDED` if and only if the source balance is strictly below the amount, and `SUCCESS` if and only if it is at least the amount. |
| `Transfers.Apply` | src/main/java/com/dws/challenge/service/AccountsService.java:36-62 | The status is `StatusOf` the balances, and the set of ids is kept. A failed transfer changes nothing. A successful one keeps the earlier notices and adds exactly two. The destination gains the amount, and between distinct accounts the source loses it. |
| `Transfers.FromMissing` | src/main/java/com/dws/challenge/service/AccountsService.java:37-40 | A missing source yields `FROM_ACC_MISSING` and changes nothing, whether or not the destination exists. |
| `Transfers.ToMissing` | src/main/java/com/dws/challenge/service/AccountsService.java:41-44 | With the source present, a missing destination yields `TO_ACC_MISSING` and changes nothing. |
| `Transfers.LimitExceededIff` | src/main/java/com/dws/challenge/service/AccountsService.java:52-57 | With both accounts present, the result is `LIMIT_EXCEEDED` if and only if the source balance is strictly below the amount, and `SUCCESS` if and only if it is at least the amount. An exceeded limit changes nothing. |
| `Transfers.SuccessMovesAmount` | src/main/java/com/dws/challenge/service/AccountsService.java:58-59 | On success between distinct accounts, the source loses exactly the amount, the destination gains it, their sum is kept, and no other account or id changes. |
| `Transfers.NoOverdraft` | src/main/java/com/dws/challenge/service/AccountsService.java:55-58 | For a positive amount, a non-negative source balance stays non-negative, and it goes down only if it covered the amount. |
| `Transfers.NotificationsOnlyOnSuccess` | src/main/java/com/dws/challenge/service/AccountsService.java:56-62 | Earlier notices are kept. Exactly two are added if and only if the transfer succeeds: the debit to the source, then the credit to the destination. None are added otherwise. |
| `Transfers.SuccessNoticeTexts` | src/main/java/com/dws/challenge/service/AccountsService.java:60-61 | On success the first new notice goes to the source holder and renders, through `Text`, as the debit text naming the destination. The second goes to the destination holder and renders as the credit text naming the source. |
| `Transfers.FailureIsIdempotent` | src/main/java/com/dws/challenge/service/AccountsService.java:37-57 | Retrying a failed transfer fails the same way and changes nothing. |
| `Transfers.ReverseRestores` | src/test/java/com/dws/challenge/AccountsControllerTest.java:406-448 | A successful transfer followed by its reverse also succeeds, and every balance is back where it started. |
| `Transfers.SelfTransferCreatesMoney` | src/main/java/com/dws/challenge/service/AccountsService.java:52-59 | If a transfer from an account to itself got past the locks, the account would gain the amount: the credit overwrites the debit. |
| `LedgerTotal.TransferConservesTotal` | src/test/java/com/dws/challenge/AccountsControllerTest.java:444 | Any transfer between distinct ids, whatever its outcome, keeps the sum of all balances. |
| `LockProtocol.PairPhaseNests` | src/main/java/com/dws/challenge/service/AccountsService.java:47-67 | Between distinct accounts, after the acquire and the two `lock()` calls, the pair semaphore, the source lock and the destination lock are held, in that order. The whole pair phase replays without a violation and ends with nothing held. |
| `LockProtocol.TransferLocksNest` | src/main/java/com/dws/challenge/service/AccountsService.java:46-68 | Between distinct accounts, the recorded `LockingEvents` replay without a violation. The two `toString` reads that build the key happen with nothing held. Then the pair semaphore, the source lock and the destination lock are taken, in that order. Every `getBalance` and `setBalance` call (lines 52-59) happens while all three are held. They are given back in reverse order, the key is removed only after its release, and nothing is held at the end. |
| `LockProtocol.KeyReadsUnguarded` | src/main/java/com/dws/challenge/service/AccountsService.java:46 | The two `toString` calls that build the key happen with no lock held. Checked by the rule that `getBalance` obeys, those same reads would be violations. |
| `LockProtocol.TransferNests` | src/main/java/com/dws/challenge/service/AccountsService.java:37-68 | The whole trace a transfer between two present, distinct accounts records replays without a violation: the two lookups, then `LockingEvents`. |
| `LockProtocol.SelfTransferNeverCompletes` | src/main/java/com/dws/challenge/service/AccountsService.java:50-51 | From an account to itself, the second `lock()` waits on a permit the same call holds, so the recorded events never replay to completion. |
| `LockProtocol.PairKeyIsOrdered` | src/main/java/com/dws/challenge/service/AccountsService.java:79-84 | The key keeps request order: A-to-B and B-to-A use different registry entries. |
| `TransferRuns.RepeatedTransfers` | src/test/java/com/dws/challenge/AccountsControllerTest.java:237-269 | Run one after another, `k` equal transfers of `a > 0` from a source holding `b >= 0` succeed exactly n = min(k, floor(b/a)) times. The source ends at `b - n*a`, the destination gains `n*a`, no other balance changes, and `2n` notices are sent. |
| `TransferRuns.DrainSource` | src/test/java/com/dws/challenge/AccountsControllerTest.java:352-402 | Run one after another, transfers of `a > 0` out of a source holding `b >= 0` into any other destinations succeed for exactly the first n = min(k, floor(b/a)). The source ends at `b - n*a`. Each other account gains `c*a`, where `c` counts the first n requests addressed to it. |
| `TransferRuns.DrainSuccesses` | src/test/java/com/dws/challenge/AccountsControllerTest.java:387-400 | In such a run the number of successes is min(k, floor(b/a)). |
| `TransferRuns.TransferTwice` | src/test/java/com/dws/challenge/AccountsControllerTest.java:211-233 | Two transfers of 1 from 10 into 0 leave 8 and 2. |
| `TransferRuns.TenTransfersOfOne` | src/test/java/com/dws/challenge/AccountsControllerTest.java:237-269 | Ten transfers of 1 from 10 into 0 all succeed and leave 0 and 10. |
| `TransferRuns.TenTransfersOfFive` | src/test/java/com/dws/challenge/AccountsControllerTest.java:316-348 | Of ten transfers of 5 from 10 into 0, exactly two succeed, leaving 0 and 10. |
| `TransferRuns.FiveTransfersOfOneIntoFive` | src/test/java/com/dws/challenge/AccountsControllerTest.java:273-312 | Five transfers of 1 from 10 into five distinct empty accounts all succeed. Each destination ends at 1 and the source at 5. |
| `TransferRuns.FiveTransfersOfFiveIntoFive` | src/test/java/com/dws/challenge/AccountsControllerTest.java:352-402 | Of five transfers of 5 from 10 into five distinct empty accounts, two succeed. The source ends at 0, the first two destinations at 5, and the other three at 0. |
| `Service.Semaphore.Acquire` | src/main/java/com/dws/challenge/service/AccountsService.java:48 | Acquiring the pair semaphore takes one permit, and can only proceed when one is free. |
| `Service.Semaphore.Release` | src/main/java/com/dws/challenge/service/AccountsService.java:66 | Releasing the pair semaphore gives one permit back. |
| `Service.AccountsService.constructor` | src/main/java/com/dws/challenge/service/AccountsService.java:18-25 | A new service has an empty store, an empty registry and no notifications. |
| `Service.AccountsService.CreateAccount` | src/main/java/com/dws/challenge/service/AccountsService.java:27-29 | A new id is stored with its account, and nothing else in the store changes. An id already present is refused as a duplicate, and the store stays as it was. |
| `Service.AccountsService.GetAccount` | src/main/java/com/dws/challenge/service/AccountsService.java:31-33 | The stored account is returned, or null exactly when the id is absent. |
| `Service.AccountsService.LookUp` | src/main/java/com/dws/challenge/service/AccountsService.java:37 | A store lookup: it returns the stored account, or null exactly when the id is absent, and records `LookedUp`. |
| `Service.AccountsService.LookUpBoth` | src/main/java/com/dws/challenge/service/AccountsService.java:37-44 | The source is looked up first. Only when it is present is the destination looked up, so a missing source records one lookup and a present one records two. |
| `Service.AccountsService.Describe` | src/main/java/com/dws/challenge/service/AccountsService.java:46 | `toString` returns a view holding the id, the current balance and the lock's permits, and records `Described`. |
| `Service.AccountsService.PairKeyFor` | src/main/java/com/dws/challenge/service/AccountsService.java:46 | The key is the source's view, then the destination's, in request order. The trace gains the two `toString` reads, source first. |
| `Service.AccountsService.PairLockFor` | src/main/java/com/dws/challenge/service/AccountsService.java:47 | `computeIfAbsent`: an existing key keeps its semaphore and leaves the registry unchanged. A new key gets a fresh one-permit semaphore, and the registry gains exactly that entry. |
| `Service.AccountsService.AcquirePair` | src/main/java/com/dws/challenge/service/AccountsService.java:48 | The pair semaphore loses one permit, and `PairAcquired` is recorded. |
| `Service.AccountsService.LockAccount` | src/main/java/com/dws/challenge/service/AccountsService.java:50-51 | The account's lock loses one permit, and `AccountLocked` is recorded. |
| `Service.AccountsService.ReadBalance` | src/main/java/com/dws/challenge/service/AccountsService.java:52-53 | The account's current balance is returned, and `BalanceRead` is recorded. |
| `Service.AccountsService.WriteBalance` | src/main/java/com/dws/challenge/service/AccountsService.java:58-59 | The account's balance becomes the given value, and `BalanceWritten` is recorded. |
| `Service.AccountsService.UnlockAccount` | src/main/java/com/dws/challenge/service/AccountsService.java:64-65 | The account's lock gains one permit, and `AccountUnlocked` is recorded. |
| `Service.AccountsService.ReleasePair` | src/main/java/com/dws/challenge/service/AccountsService.java:66 | The pair semaphore gains one permit, and `PairReleased` is recorded. |
| `Service.AccountsService.ForgetPair` | src/main/java/com/dws/challenge/service/AccountsService.java:67 | The key leaves the registry, and `PairForgotten` is recorded. |
| `Service.AccountsService.MoveUnderLocks` | src/main/java/com/dws/challenge/service/AccountsService.java:50-65 | Under both account locks, `LIMIT_EXCEEDED` is returned if and only if the balance read is below the amount, and then nothing changes. Otherwise: exact debit and credit, two notices, `SUCCESS`. Both locks end with their starting permits. The trace gains `UnderAccountLocks`, recorded by the operations themselves: lock from, lock to, both reads, both writes on success, unlock to, unlock from. |
| `Service.AccountsService.MoveUnderPairLock` | src/main/java/com/dws/challenge/service/AccountsService.java:47-67 | The pair key is registered if absent and its semaphore acquired. The money then moves under the account locks. Every semaphore and lock gets its permits back, and the key is removed from the registry. The trace gains exactly `PairPhase`, recorded by the operations in the order they ran. |
| `Service.AccountsService.TransferBetween` | src/main/java/com/dws/challenge/service/AccountsService.java:46-68 | The key is built from both accounts' text, then the pair phase runs. The balances, notifications and permits end as in `MoveUnderPairLock`, for the key made from the accounts as they were. The trace gains exactly `LockingEvents`: the two `toString` reads, then `PairPhase`. |
| `Service.AccountsService.TransferStored` | src/main/java/com/dws/challenge/service/AccountsService.java:46-68 | For two stored, distinct accounts, the store's balances and notifications become exactly those of `Apply`, and every permit is restored. The trace gains `LockingEvents`, and the registry loses the pair key. |
| `Service.AccountsService.Transfer` | src/main/java/com/dws/challenge/service/AccountsService.java:36-69 | The result and the new balances and notifications are exactly `Apply` of the old ones. The store keeps the same accounts, and every lock and semaphore ends as it started. A missing source stops after one lookup, and a missing destination after two, both with the registry untouched. Otherwise the recorded trace is the two lookups followed by `LockingEvents`, and the pair key is dropped. |
| `Service.AccountsService.TransferFollowsProtocol` | src/main/java/com/dws/challenge/service/AccountsService.java:36-69 | A transfer has the outcome, balances and notifications of `Apply`. On every input, the events it records replay without a violation, from no lock held back to no lock held. |

## Left out

- Service.AccountsService.Transfer: it requires the two ids to differ when the source exists. The source accepts such a request and then blocks forever on the second `lock()`; `SelfTransferNeverCompletes` and `SelfTransferCreatesMoney` state what happens instead.
- Service.AccountsService.Transfer: it requires every lock it will wait on to have a free permit. A blocked wait for another thread is not modelled; calls run one at a time.
- Accounts.Account.Lock: a `lock()` that would block is a precondition, not a wait. `Service.Semaphore.Acquire` is treated the same way.
- Concurrency: interleavings of several transfers are not modelled. The tests' concurrent scenarios are proved for the same requests run one after another.
- The interrupted acquire that `@SneakyThrows` rethrows is not modelled.
- The exact text of Lombok's `toString` is not modelled. `AccountView` (id, balance, permits) stands in for it; what matters is that it includes the balance and the lock, so the key depends on them.
- `BigDecimal` scale and its `toString` are not modelled. Amounts are exact reals, and the notification text takes the amount's text as a parameter (`render`).
- Nulls: ids are never null. The `@NotNull` constraints hold by typing; only `GetAccount` returns a nullable account.
- The accounts repository is not part of this model. The store is a map from id to account, and a duplicate id yields an outcome value instead of an exception.
- The notification service is not part of this model. Its calls are recorded in order as a log of (recipient, message) pairs.
- The controller, `TransferResponse`, the mapping from status to HTTP, and the enforcement of bean validation by Spring and Jackson are not part of this model. The constraints themselves are modelled as predicates.
