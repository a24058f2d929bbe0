/** Lock bookkeeping after a channel was settled with an outdated balance proof. */
module LockInfo {
  import Collections
  import MapSums

  datatype Lock = Lock(amount: nat, expiration: nat, secretHash: string)

  datatype Unlock = Unlock(lock: Lock, secret: string)

  /** The locks of one channel end, by secret hash. */
  datatype Locks = Locks(locked: map<string, Lock>, unlocked: map<string, Unlock>, onchain: map<string, Unlock>)

  /** All locks that were in the balance proof; an unlocked entry takes precedence. */
  function AllLocks(l: Locks): map<string, Lock> {
    l.locked + map s | s in l.unlocked :: l.unlocked[s].lock
  }

  /** The same locks with what the current state knows to be unlocked on-chain and the payments still running. */
  function Updated(l: Locks, nowOnchain: map<string, Unlock>, tasks: set<string>): Locks {
    var all := AllLocks(l);
    Locks(map s | s in all && s !in nowOnchain && s in tasks :: all[s],
          map[],
          l.onchain + map s | s in nowOnchain && s in all :: nowOnchain[s])
  }

  class EndState {
    var lockedLocks: map<string, Lock>
    var unlockedLocks: map<string, Unlock>
    var onchainUnlockedLocks: map<string, Unlock>

    ghost function View(): Locks
      reads this
    {
      Locks(lockedLocks, unlockedLocks, onchainUnlockedLocks)
    }

    constructor (l: Locks)
      ensures View() == l
    {
      lockedLocks, unlockedLocks, onchainUnlockedLocks := l.locked, l.unlocked, l.onchain;
    }
  }

  /** The on-chain entries after the given hashes have been looked up among all locks. */
  function Arrived(onchain: map<string, Unlock>, all: map<string, Lock>, now: map<string, Unlock>,
                   done: set<string>): map<string, Unlock> {
    onchain + map s | s in now && s in all && s in done :: now[s]
  }

  lemma ArriveOne(all: map<string, Lock>, onchain: map<string, Unlock>, now: map<string, Unlock>, done: set<string>,
                  s: string)
    requires s in now && s !in done
    ensures all - done - {s} == all - (done + {s})
    ensures s !in all ==> all - (done + {s}) == all - done
    ensures Arrived(onchain, all, now, done + {s}) ==
            if s in all then Arrived(onchain, all, now, done)[s := now[s]] else Arrived(onchain, all, now, done)
  {
  }

  /** A lock unlocked on-chain leaves the locked ones, if it is among them. */
  method MoveLock(state: EndState, secret: string, unlock: Unlock)
    modifies state`lockedLocks, state`onchainUnlockedLocks
    ensures state.lockedLocks == old(state.lockedLocks) - {secret}
    ensures state.onchainUnlockedLocks ==
            if secret in old(state.lockedLocks) then old(state.onchainUnlockedLocks)[secret := unlock]
            else old(state.onchainUnlockedLocks)
  {
    if secret !in state.lockedLocks {
      assert state.lockedLocks - {secret} == state.lockedLocks;
      return;
    }
    state.lockedLocks := state.lockedLocks - {secret};
    state.onchainUnlockedLocks := state.onchainUnlockedLocks[secret := unlock];
  }

  /** The loop over what is unlocked on-chain now. */
  method MoveOnchain(state: EndState, now: map<string, Unlock>)
    modifies state`lockedLocks, state`onchainUnlockedLocks
    ensures state.lockedLocks == old(state.lockedLocks) - now.Keys
    ensures state.onchainUnlockedLocks == Arrived(old(state.onchainUnlockedLocks), old(state.lockedLocks), now, now.Keys)
  {
    ghost var all, onchain := state.lockedLocks, state.onchainUnlockedLocks;
    var todo := now.Keys;
    ghost var done := {};
    MoveNone(all, onchain, now);
    while todo != {}
      invariant done !! todo && done + todo == now.Keys
      invariant state.lockedLocks == all - done
      invariant state.onchainUnlockedLocks == Arrived(onchain, all, now, done)
      decreases |todo|
    {
      var secret :| secret in todo;
      ArriveOne(all, onchain, now, done, secret);
      MoveLock(state, secret, now[secret]);
      Collections.MoveOne(done, todo, secret);
      todo, done := todo - {secret}, done + {secret};
    }
    assert done == now.Keys;
  }

  lemma MoveNone(all: map<string, Lock>, onchain: map<string, Unlock>, now: map<string, Unlock>)
    ensures all - {} == all && Arrived(onchain, all, now, {}) == onchain
  {
  }

  /** Updates the old state in place. The two states may even be the same object. */
  method UpdateLockInfo(old': EndState, new': EndState, tasks: set<string>)
    modifies old'
    ensures old'.View() == Updated(old(old'.View()), old(new'.onchainUnlockedLocks), tasks)
  {
    ghost var before := old'.View();
    var unlocks := old'.unlockedLocks;
    old'.lockedLocks := old'.lockedLocks + map s | s in unlocks :: unlocks[s].lock;
    old'.unlockedLocks := map[];
    var now := new'.onchainUnlockedLocks;
    MoveOnchain(old', now);
    var locked := old'.lockedLocks;
    old'.lockedLocks := map s | s in locked && s in tasks :: locked[s];
    UpdatedIs(before, now, tasks, old'.View());
  }

  lemma UpdatedIs(l: Locks, now: map<string, Unlock>, tasks: set<string>, after: Locks)
    requires var left := AllLocks(l) - now.Keys;
             after == Locks(map s | s in left && s in tasks :: left[s], map[], Arrived(l.onchain, AllLocks(l), now, now.Keys))
    ensures after == Updated(l, now, tasks)
  {
    var all := AllLocks(l);
    assert after.locked == Updated(l, now, tasks).locked;
    assert (map s | s in now && s in all && s in now.Keys :: now[s]) == map s | s in now && s in all :: now[s];
  }

  // Where every lock goes

  predicate KeyDisjoint(l: Locks) {
    l.locked.Keys !! l.unlocked.Keys && l.locked.Keys !! l.onchain.Keys && l.unlocked.Keys !! l.onchain.Keys
  }

  function Dropped(l: Locks, nowOnchain: map<string, Unlock>, tasks: set<string>): map<string, Lock> {
    var all := AllLocks(l);
    map s | s in all && s !in nowOnchain && s !in tasks :: all[s]
  }

  function Moved(l: Locks, nowOnchain: map<string, Unlock>): map<string, Unlock> {
    var all := AllLocks(l);
    map s | s in nowOnchain && s in all :: nowOnchain[s]
  }

  /** Every lock that was locked or unlocked ends up in exactly one place: on-chain iff it is unlocked there now,
      otherwise still locked iff its payment is running, otherwise dropped. Earlier on-chain entries stay. */
  lemma EachLockGoesToOnePlace(l: Locks, nowOnchain: map<string, Unlock>, tasks: set<string>, s: string)
    requires KeyDisjoint(l) && (s in l.locked || s in l.unlocked)
    ensures var u, dropped := Updated(l, nowOnchain, tasks), Dropped(l, nowOnchain, tasks);
            && (s in u.onchain <==> s in nowOnchain)
            && (s in u.locked <==> s !in nowOnchain && s in tasks)
            && (s in dropped <==> s !in nowOnchain && s !in tasks)
            && s !in u.unlocked
            && (s in u.onchain ==> u.onchain[s] == nowOnchain[s])
            && (s in u.locked ==> u.locked[s] == if s in l.unlocked then l.unlocked[s].lock else l.locked[s])
            && forall x :: x in l.onchain ==> x in u.onchain && u.onchain[x] == l.onchain[x]
  {
  }

  function LockAmounts(m: map<string, Lock>): map<string, int> { map s | s in m :: m[s].amount }

  function UnlockAmounts(m: map<string, Unlock>): map<string, int> { map s | s in m :: m[s].lock.amount }

  /** Conservation: when amounts agree per secret hash, the amounts of all previously locked and unlocked locks are
      what newly moved on-chain, what stays locked and what was dropped, together. */
  lemma AmountsAreConserved(l: Locks, nowOnchain: map<string, Unlock>, tasks: set<string>)
    requires KeyDisjoint(l)
    requires forall s :: s in nowOnchain && s in AllLocks(l) ==> nowOnchain[s].lock.amount == AllLocks(l)[s].amount
    ensures var u := Updated(l, nowOnchain, tasks);
            MapSums.Sum(LockAmounts(l.locked)) + MapSums.Sum(UnlockAmounts(l.unlocked))
            == MapSums.Sum(UnlockAmounts(u.onchain)) - MapSums.Sum(UnlockAmounts(l.onchain))
               + MapSums.Sum(LockAmounts(u.locked)) + MapSums.Sum(LockAmounts(Dropped(l, nowOnchain, tasks)))
  {
    var u, dropped, moved := Updated(l, nowOnchain, tasks), Dropped(l, nowOnchain, tasks), Moved(l, nowOnchain);
    MapSums.SumDisjoint(LockAmounts(l.locked), UnlockAmounts(l.unlocked));
    AmountsBefore(l);
    MapSums.SumDisjoint(UnlockAmounts(l.onchain), UnlockAmounts(moved));
    AmountsOnchain(l, nowOnchain, tasks);
    MapSums.SumDisjoint(LockAmounts(u.locked), LockAmounts(dropped));
    MapSums.SumDisjoint(UnlockAmounts(moved), LockAmounts(u.locked) + LockAmounts(dropped));
    AmountsAfter(l, nowOnchain, tasks);
  }

  lemma AmountsBefore(l: Locks)
    requires KeyDisjoint(l)
    ensures LockAmounts(l.locked) + UnlockAmounts(l.unlocked) == LockAmounts(AllLocks(l))
  {
  }

  lemma AmountsOnchain(l: Locks, nowOnchain: map<string, Unlock>, tasks: set<string>)
    requires KeyDisjoint(l)
    ensures UnlockAmounts(l.onchain) + UnlockAmounts(Moved(l, nowOnchain)) == UnlockAmounts(Updated(l, nowOnchain, tasks).onchain)
    ensures UnlockAmounts(l.onchain).Keys !! UnlockAmounts(Moved(l, nowOnchain)).Keys
  {
  }

  lemma AmountsAfter(l: Locks, nowOnchain: map<string, Unlock>, tasks: set<string>)
    requires forall s :: s in nowOnchain && s in AllLocks(l) ==> nowOnchain[s].lock.amount == AllLocks(l)[s].amount
    ensures UnlockAmounts(Moved(l, nowOnchain))
            + (LockAmounts(Updated(l, nowOnchain, tasks).locked) + LockAmounts(Dropped(l, nowOnchain, tasks)))
            == LockAmounts(AllLocks(l))
  {
  }

  lemma {:induction false} SumPositiveIff(m: map<string, int>)
    requires forall s :: s in m ==> m[s] >= 0
    ensures MapSums.Sum(m) >= 0
    ensures MapSums.Sum(m) > 0 <==> exists s :: s in m && m[s] > 0
    decreases |m|
  {
    if m != map[] {
      var s :| s in m;
      MapSums.SumRemove(m, s);
      SumPositiveIff(m - {s});
      if MapSums.Sum(m - {s}) > 0 {
        var t :| t in m - {s} && (m - {s})[t] > 0;
        assert t in m && m[t] > 0;
      }
      if t :| t in m && m[t] > 0 && t != s {
        assert t in m - {s} && (m - {s})[t] > 0;
      }
    }
  }

  /** Our own locks are unlocked on-chain exactly when some lock of positive value is not yet unlocked there and its
      payment is still running. */
  lemma OwnUnlockIff(l: Locks, nowOnchain: map<string, Unlock>, tasks: set<string>)
    ensures MapSums.Sum(LockAmounts(Updated(l, nowOnchain, tasks).locked)) > 0
            <==> exists s :: s in AllLocks(l) && s !in nowOnchain && s in tasks && AllLocks(l)[s].amount > 0
  {
    SumPositiveIff(LockAmounts(Updated(l, nowOnchain, tasks).locked));
  }

  /** The partner's locks are unlocked on-chain exactly when some lock of positive value has been revealed there. */
  lemma PartnerUnlockIff(l: Locks, nowOnchain: map<string, Unlock>, tasks: set<string>)
    requires KeyDisjoint(l)
    ensures MapSums.Sum(UnlockAmounts(Updated(l, nowOnchain, tasks).onchain)) > 0
            <==> || (exists s :: s in l.onchain && l.onchain[s].lock.amount > 0)
                 || (exists s :: s in nowOnchain && s in AllLocks(l) && nowOnchain[s].lock.amount > 0)
  {
    var onchain := UnlockAmounts(Updated(l, nowOnchain, tasks).onchain);
    SumPositiveIff(onchain);
    assert forall s :: s in l.onchain ==> onchain[s] == l.onchain[s].lock.amount;
    assert forall s :: s in nowOnchain && s in AllLocks(l) ==> onchain[s] == nowOnchain[s].lock.amount;
  }
}
