/** The order in which a transfer looks up accounts, takes and gives back its
    locks and touches the balances, as a sequence of events, and a replay that
    checks the locks are released in the reverse order they were taken and
    that every balance is read and written under its locks. */
module LockProtocol {
  import opened Accounts

  /** The pair-registry key: the `toString` of the source and of the
      destination account, in request order (never normalised). */
  datatype AccountPairKey = AccountPairKey(fromAccount: AccountView, toAccount: AccountView)

  /** What the service did, recorded by the operation that did it. */
  datatype Event =
    | LookedUp(accountId: string)         // a store lookup
    | Described(accountId: string)        // an account's toString(), which reads its balance and lock
    | PairAcquired(key: AccountPairKey)   // the pair semaphore's acquire
    | AccountLocked(accountId: string)    // an account's lock()
    | BalanceRead(accountId: string)      // an account's getBalance()
    | BalanceWritten(accountId: string)   // an account's setBalance()
    | AccountUnlocked(accountId: string)  // an account's unlock()
    | PairReleased(key: AccountPairKey)   // the pair semaphore's release
    | PairForgotten(key: AccountPairKey)  // removal of the key from the registry

  datatype Resource = PairLock(key: AccountPairKey) | AccountLock(accountId: string)

  datatype Option<T> = None | Some(value: T)

  /** Some pair lock in `held` belongs to a key naming account `id`. */
  predicate PairCovers(held: seq<Resource>, id: string)
    decreases |held|
  {
    && held != []
    && ((held[0].PairLock? && (held[0].key.fromAccount.accountId == id || held[0].key.toAccount.accountId == id))
        || PairCovers(held[1..], id))
  }

  /** A balance may be touched only while its account's lock and a pair lock
      for that account are held. */
  predicate Guarded(held: seq<Resource>, id: string)
  {
    AccountLock(id) in held && PairCovers(held, id)
  }

  /** One event against the stack of locks held, oldest first. Taking a
      one-permit lock that is already held never returns (None); a balance
      touched through `getBalance`/`setBalance` without its locks is a
      protocol violation (None), while `toString` is not checked; a release
      must give back the most recently taken lock; a key may only be
      forgotten once its lock is given back. */
  function Step(held: seq<Resource>, e: Event): Option<seq<Resource>>
  {
    match e
    case LookedUp(_) => Some(held)
    case Described(_) => Some(held)
    case PairAcquired(k) => if PairLock(k) in held then None else Some(held + [PairLock(k)])
    case AccountLocked(id) => if AccountLock(id) in held then None else Some(held + [AccountLock(id)])
    case BalanceRead(id) => if Guarded(held, id) then Some(held) else None
    case BalanceWritten(id) => if Guarded(held, id) then Some(held) else None
    case AccountUnlocked(id) =>
      if held != [] && held[|held| - 1] == AccountLock(id) then Some(held[..|held| - 1]) else None
    case PairReleased(k) =>
      if held != [] && held[|held| - 1] == PairLock(k) then Some(held[..|held| - 1]) else None
    case PairForgotten(k) => if PairLock(k) in held then None else Some(held)
  }

  function Replay(held: seq<Resource>, events: seq<Event>): Option<seq<Resource>>
    decreases |events|
  {
    if events == [] then Some(held)
    else
      match Step(held, events[0])
      case None => None
      case Some(next) => Replay(next, events[1..])
  }

  /** The balance accesses of the `try` block: both balances are read; on
      success the source and then the destination are written. */
  function Accesses(fromId: string, toId: string, paid: bool): seq<Event>
  {
    [BalanceRead(fromId), BalanceRead(toId)]
      + (if paid then [BalanceWritten(fromId), BalanceWritten(toId)] else [])
  }

  /** Lock `from`, lock `to`, the accesses, then unlock `to` and `from`. */
  function UnderAccountLocks(fromId: string, toId: string, paid: bool): seq<Event>
  {
    [AccountLocked(fromId), AccountLocked(toId)] + Accesses(fromId, toId, paid)
      + [AccountUnlocked(toId), AccountUnlocked(fromId)]
  }

  /** Building the pair key renders the source and then the destination with
      `toString`, which reads each balance and lock state; no lock is taken
      for it. */
  function KeyReads(fromId: string, toId: string): seq<Event>
  {
    [Described(fromId), Described(toId)]
  }

  /** The pair semaphore, the account phase, then the pair semaphore's
      release and the key's removal. */
  function PairPhase(fromId: string, toId: string, key: AccountPairKey, paid: bool): seq<Event>
  {
    [PairAcquired(key)] + UnderAccountLocks(fromId, toId, paid) + [PairReleased(key), PairForgotten(key)]
  }

  /** What a transfer between two present accounts does after the lookups:
      build the key, then the pair phase. */
  function LockingEvents(fromId: string, toId: string, key: AccountPairKey, paid: bool): seq<Event>
  {
    KeyReads(fromId, toId) + PairPhase(fromId, toId, key, paid)
  }

  /** Replaying a concatenation is replaying the parts in turn. */
  lemma {:induction false} ReplayAppend(held: seq<Resource>, xs: seq<Event>, ys: seq<Event>)
    ensures Replay(held, xs + ys) ==
      match Replay(held, xs)
      case None => None
      case Some(mid) => Replay(mid, ys)
    decreases |xs|
  {
    if xs == [] {
      assert xs + ys == ys;
    } else {
      assert (xs + ys)[0] == xs[0] && (xs + ys)[1..] == xs[1..] + ys;
      match Step(held, xs[0])
      case None =>
      case Some(next) =>
        ReplayAppend(next, xs[1..], ys);
        assert Replay(held, xs + ys) == Replay(next, xs[1..] + ys);
    }
  }

  /** Replaying one event is taking that step. */
  lemma ReplayOne(held: seq<Resource>, e: Event)
    ensures Replay(held, [e]) == Step(held, e)
  {
    assert [e][1..] == [];
    match Step(held, e)
    case None =>
    case Some(next) =>
      assert Replay(next, []) == Some(next);
  }

  /** Replaying two events is taking the two steps. */
  lemma ReplayTwo(held: seq<Resource>, a: Event, b: Event)
    ensures Replay(held, [a, b]) ==
      match Step(held, a)
      case None => None
      case Some(mid) => Step(mid, b)
  {
    assert [a, b][1..] == [b];
    match Step(held, a)
    case None =>
    case Some(mid) =>
      ReplayOne(mid, b);
  }

  /** With the pair lock and both account locks held, both reads and, on
      success, both writes are allowed and leave the locks as they are. */
  lemma {:induction false} AccessesAllowed(fromId: string, toId: string, key: AccountPairKey, paid: bool)
    requires key.fromAccount.accountId == fromId && key.toAccount.accountId == toId
    ensures var held := [PairLock(key), AccountLock(fromId), AccountLock(toId)];
      Replay(held, Accesses(fromId, toId, paid)) == Some(held)
  {
    var held := [PairLock(key), AccountLock(fromId), AccountLock(toId)];
    assert Guarded(held, fromId) && Guarded(held, toId);
    var loads: seq<Event> := [BalanceRead(fromId), BalanceRead(toId)];
    var stores: seq<Event> := if paid then [BalanceWritten(fromId), BalanceWritten(toId)] else [];
    ReplayTwo(held, loads[0], loads[1]);
    if paid {
      ReplayTwo(held, stores[0], stores[1]);
    }
    ReplayAppend(held, loads, stores);
  }

  /** Under the pair lock, `from` and then `to` can be taken when they differ. */
  lemma AccountLocksTaken(fromId: string, toId: string, key: AccountPairKey)
    requires fromId != toId
    ensures Replay([PairLock(key)], [AccountLocked(fromId), AccountLocked(toId)]) ==
      Some([PairLock(key), AccountLock(fromId), AccountLock(toId)])
  {
    var h1: seq<Resource> := [PairLock(key)];
    var h2 := h1 + [AccountLock(fromId)];
    assert h2 + [AccountLock(toId)] == [PairLock(key), AccountLock(fromId), AccountLock(toId)];
    assert AccountLock(toId) !in h2;
    ReplayTwo(h1, AccountLocked(fromId), AccountLocked(toId));
  }

  /** Under the pair lock, the account phase takes `from` and `to`, touches
      the balances, and gives both back, leaving only the pair lock. */
  lemma {:induction false} AccountPhaseNests(fromId: string, toId: string, key: AccountPairKey, paid: bool)
    requires fromId != toId
    requires key.fromAccount.accountId == fromId && key.toAccount.accountId == toId
    ensures Replay([PairLock(key)], UnderAccountLocks(fromId, toId, paid)) == Some([PairLock(key)])
  {
    var h1: seq<Resource> := [PairLock(key)];
    var h3 := [PairLock(key), AccountLock(fromId), AccountLock(toId)];
    assert h3[..2] == h1 + [AccountLock(fromId)] && h3[..2][..1] == h1;
    var locks: seq<Event> := [AccountLocked(fromId), AccountLocked(toId)];
    var unlocks: seq<Event> := [AccountUnlocked(toId), AccountUnlocked(fromId)];
    var acc := Accesses(fromId, toId, paid);
    AccountLocksTaken(fromId, toId, key);
    AccessesAllowed(fromId, toId, key, paid);
    ReplayTwo(h3, unlocks[0], unlocks[1]);
    ReplayAppend(h1, locks, acc);
    ReplayAppend(h1, locks + acc, unlocks);
  }

  /** Between two distinct accounts the pair phase is properly nested: the
      pair semaphore and both account locks are taken before any balance is
      touched; every read and write is allowed and leaves the three locks
      held; at the end nothing is held. */
  lemma {:induction false} PairPhaseNests(fromId: string, toId: string, key: AccountPairKey, paid: bool)
    requires fromId != toId
    requires key.fromAccount.accountId == fromId && key.toAccount.accountId == toId
    ensures Replay([], [PairAcquired(key), AccountLocked(fromId), AccountLocked(toId)]) ==
      Some([PairLock(key), AccountLock(fromId), AccountLock(toId)])
    ensures Replay([], PairPhase(fromId, toId, key, paid)) == Some([])
  {
    var h1: seq<Resource> := [PairLock(key)];
    var ends: seq<Event> := [PairReleased(key), PairForgotten(key)];
    assert [] + h1 == h1 && h1[..0] == [];
    ReplayOne([], PairAcquired(key));
    AccountLocksTaken(fromId, toId, key);
    AccountPhaseNests(fromId, toId, key, paid);
    ReplayTwo(h1, ends[0], ends[1]);
    ReplayAppend([], [PairAcquired(key)], [AccountLocked(fromId), AccountLocked(toId)]);
    assert [PairAcquired(key)] + [AccountLocked(fromId), AccountLocked(toId)]
      == [PairAcquired(key), AccountLocked(fromId), AccountLocked(toId)];
    ReplayAppend([], [PairAcquired(key)], UnderAccountLocks(fromId, toId, paid));
    ReplayAppend([], [PairAcquired(key)] + UnderAccountLocks(fromId, toId, paid), ends);
  }

  /** Between two distinct accounts the whole protocol after the lookups is
      properly nested. The key is built while nothing is held, so its two
      `toString` reads are unguarded; then the pair semaphore and both
      account locks are taken before `getBalance`/`setBalance` touch a
      balance; every such read and write is allowed and leaves the three
      locks held; at the end nothing is held. */
  lemma {:induction false} TransferLocksNest(fromId: string, toId: string, key: AccountPairKey, paid: bool)
    requires fromId != toId
    requires key.fromAccount.accountId == fromId && key.toAccount.accountId == toId
    ensures Replay([], KeyReads(fromId, toId)) == Some([])
    ensures Replay([], KeyReads(fromId, toId) + [PairAcquired(key), AccountLocked(fromId), AccountLocked(toId)]) ==
      Some([PairLock(key), AccountLock(fromId), AccountLock(toId)])
    ensures var held := [PairLock(key), AccountLock(fromId), AccountLock(toId)];
      Replay(held, Accesses(fromId, toId, paid)) == Some(held)
    ensures Replay([], LockingEvents(fromId, toId, key, paid)) == Some([])
  {
    var keyed := KeyReads(fromId, toId);
    ReplayTwo([], keyed[0], keyed[1]);
    PairPhaseNests(fromId, toId, key, paid);
    AccessesAllowed(fromId, toId, key, paid);
    ReplayAppend([], keyed, [PairAcquired(key), AccountLocked(fromId), AccountLocked(toId)]);
    ReplayAppend([], keyed, PairPhase(fromId, toId, key, paid));
  }

  /** The key's two `toString` reads take place with no lock held: checked
      by the rule `getBalance` obeys, they would be violations. */
  lemma KeyReadsUnguarded(fromId: string, toId: string)
    ensures Replay([], KeyReads(fromId, toId)) == Some([])
    ensures Replay([], [BalanceRead(fromId), BalanceRead(toId)]) == None
  {
    ReplayTwo([], Described(fromId), Described(toId));
    ReplayTwo([], BalanceRead(fromId), BalanceRead(toId));
  }

  /** With the two lookups in front, the whole transfer still nests: lookups
      take and give back nothing. */
  lemma TransferNests(fromId: string, toId: string, key: AccountPairKey, paid: bool)
    requires fromId != toId
    requires key.fromAccount.accountId == fromId && key.toAccount.accountId == toId
    ensures Replay([], [LookedUp(fromId), LookedUp(toId)] + LockingEvents(fromId, toId, key, paid)) == Some([])
  {
    TransferLocksNest(fromId, toId, key, paid);
    ReplayTwo([], LookedUp(fromId), LookedUp(toId));
    ReplayAppend([], [LookedUp(fromId), LookedUp(toId)], LockingEvents(fromId, toId, key, paid));
  }

  /** A transfer from an account to itself takes that account's one-permit
      lock a second time while holding it: the protocol never completes. */
  lemma {:induction false} SelfTransferNeverCompletes(id: string, key: AccountPairKey, paid: bool)
    ensures Replay([], LockingEvents(id, id, key, paid)) == None
  {
    var h1: seq<Resource> := [PairLock(key)];
    var locks: seq<Event> := [AccountLocked(id), AccountLocked(id)];
    var acc := Accesses(id, id, paid);
    var unlocks: seq<Event> := [AccountUnlocked(id), AccountUnlocked(id)];
    var ends: seq<Event> := [PairReleased(key), PairForgotten(key)];
    ReplayTwo(h1, locks[0], locks[1]);
    assert Replay(h1, locks) == None;
    ReplayAppend(h1, locks, acc);
    ReplayAppend(h1, locks + acc, unlocks);
    assert [] + h1 == h1;
    ReplayOne([], PairAcquired(key));
    ReplayAppend([], [PairAcquired(key)], UnderAccountLocks(id, id, paid));
    ReplayAppend([], [PairAcquired(key)] + UnderAccountLocks(id, id, paid), ends);
    ReplayTwo([], Described(id), Described(id));
    ReplayAppend([], KeyReads(id, id), PairPhase(id, id, key, paid));
  }

  /** The key is taken in request order: A to B and B to A use different
      registry slots, so the pair semaphore alone does not serialise them. */
  lemma PairKeyIsOrdered(a: AccountView, b: AccountView)
    requires a != b
    ensures AccountPairKey(a, b) != AccountPairKey(b, a)
  {
  }
}
