/**
 * The per-seat lock (infrastructure/lock/DistributedLockManager.java).
 *
 * A lock is taken in the shared store first; when the store client is absent
 * or a call to it fails, an in-process reentrant lock is used instead. Both
 * kinds of lock are reentrant: they remember the owning thread and how many
 * times it has re-entered. Threads are numbered; how each store call goes is
 * an oracle parameter (`StoreReply`). Lease expiry is not modelled.
 */
module LockManager {
  import opened Common
  import Text

  const LockPrefix: string := "lock:"
  /** Fail fast: do not wait for a held lock. */
  const DefaultWaitTime: int := 0
  /** Lease in seconds. */
  const DefaultLeaseTime: int := 10

  /** `createSeatLockKey`. */
  function SeatLockKey(screeningId: nat, seatId: nat): (key: string)
    ensures Text.StartsWith(key, LockPrefix + "screening:")
  {
    LockPrefix + "screening:" + Text.NatToString(screeningId) + ":seat:" + Text.NatToString(seatId)
  }

  /** Distinct (screening, seat) pairs are locked under distinct keys. */
  lemma SeatLockKeyInjective(s1: nat, t1: nat, s2: nat, t2: nat)
    ensures SeatLockKey(s1, t1) == SeatLockKey(s2, t2) <==> s1 == s2 && t1 == t2
  {
    if SeatLockKey(s1, t1) == SeatLockKey(s2, t2) {
      var x, y := Text.NatToString(s1), Text.NatToString(s2);
      var u, v := ":seat:" + Text.NatToString(t1), ":seat:" + Text.NatToString(t2);
      assert x + u == y + v by {
        KeyAfterPrefix(s1, t1);
        KeyAfterPrefix(s2, t2);
      }
      NoColonInDigits(s1);
      NoColonInDigits(s2);
      Text.SplitAtFirstIn(x, u, y, v, {':'});
      Text.NatToStringInjective(s1, s2);
      assert Text.NatToString(t1) == u[6..];
      assert Text.NatToString(t2) == v[6..];
      Text.NatToStringInjective(t1, t2);
    }
  }

  /** What follows the fixed prefix of a seat lock key. */
  lemma KeyAfterPrefix(s: nat, t: nat)
    ensures SeatLockKey(s, t)[|LockPrefix + "screening:"|..] == Text.NatToString(s) + (":seat:" + Text.NatToString(t))
  {
    var p := LockPrefix + "screening:";
    assert SeatLockKey(s, t) == p + (Text.NatToString(s) + (":seat:" + Text.NatToString(t)));
  }

  lemma NoColonInDigits(n: nat)
    ensures forall i :: 0 <= i < |Text.NatToString(n)| ==> Text.NatToString(n)[i] !in {':'}
  {
    var x := Text.NatToString(n);
    forall i | 0 <= i < |x| ensures x[i] !in {':'} {
      assert Text.IsDigit(x[i]);
    }
  }

  /** A reentrant lock: free, or held by `owner` who has re-entered it `reentries` more times. */
  datatype LockState = Free | Held(owner: nat, reentries: nat)

  predicate IsHeldBy(s: LockState, thread: nat)
  {
    s.Held? && s.owner == thread
  }

  /** An absent key is a lock nobody holds. */
  function StateOf(locks: map<string, LockState>, key: string): LockState
  {
    if key in locks then locks[key] else Free
  }

  /** `tryLock()` on a reentrant lock: succeeds iff the lock is free or already the caller's. */
  function TryAcquire(s: LockState, thread: nat): (r: (bool, LockState))
    ensures r.0 <==> s.Free? || IsHeldBy(s, thread)
    ensures r.0 ==> IsHeldBy(r.1, thread)
    ensures !r.0 ==> r.1 == s
  {
    match s
    case Free => (true, Held(thread, 0))
    case Held(o, n) => if o == thread then (true, Held(o, n + 1)) else (false, s)
  }

  /** `unlock()` by the owner: one level of re-entry is given back. */
  function ReleaseOnce(s: LockState, thread: nat): (r: LockState)
    requires IsHeldBy(s, thread)
    ensures r.Free? <==> s.reentries == 0
    ensures r.Held? ==> r.owner == thread && r.reentries + 1 == s.reentries
  {
    if s.reentries == 0 then Free else Held(s.owner, s.reentries - 1)
  }

  /** Releasing once undoes one successful acquisition. */
  lemma ReleaseUndoesAcquire(s: LockState, thread: nat)
    requires TryAcquire(s, thread).0
    ensures ReleaseOnce(TryAcquire(s, thread).1, thread) == s
  {
  }

  /** How one call to the shared store goes. */
  datatype StoreReply = Answered | Interrupted | Unreachable

  /** Both lock tables: the shared store's and the in-process fallback. */
  datatype LockTables = LockTables(remote: map<string, LockState>, local: map<string, LockState>)

  /**
   * `tryLock(lockKey, waitTime, leaseTime)`. With a store client, an answered
   * call decides; an interrupt gives false; any other failure falls through to
   * the local lock, which `computeIfAbsent` creates on first use. A local wait
   * (`waitTime > 0`) can itself be interrupted.
   */
  function TryLockStep(t: LockTables, hasClient: bool, key: string, waitTime: int, thread: nat,
                       reply: StoreReply, localInterrupted: bool): (bool, LockTables)
  {
    if hasClient && reply == Answered then
      var r := TryAcquire(StateOf(t.remote, key), thread);
      (r.0, if r.0 then t.(remote := t.remote[key := r.1]) else t)
    else if hasClient && reply == Interrupted then
      (false, t)
    else
      var local := if key in t.local then t.local else t.local[key := Free];
      if waitTime > 0 && localInterrupted then (false, t.(local := local))
      else
        var r := TryAcquire(local[key], thread);
        (r.0, t.(local := local[key := r.1]))
  }

  /**
   * `unlock(lockKey)`. A store lock held by the caller is released and the
   * call returns; otherwise (not held, store failure, no client) the local
   * lock is released if the caller holds it, and nothing happens if not.
   */
  function UnlockStep(t: LockTables, hasClient: bool, key: string, thread: nat, remoteAnswered: bool): LockTables
  {
    if hasClient && remoteAnswered && IsHeldBy(StateOf(t.remote, key), thread) then
      t.(remote := t.remote[key := ReleaseOnce(t.remote[key], thread)])
    else if key in t.local && IsHeldBy(t.local[key], thread) then
      t.(local := t.local[key := ReleaseOnce(t.local[key], thread)])
    else
      t
  }

  /** Which table a lock attempt consults. */
  predicate UsesStore(hasClient: bool, reply: StoreReply)
  {
    hasClient && reply != Unreachable
  }

  /**
   * On the table it consults, an attempt fails exactly when another thread holds
   * the key (or the attempt is interrupted); a success makes the caller the holder,
   * reentrantly; the other table and every other key are untouched.
   */
  lemma TryLockStepSpec(t: LockTables, hasClient: bool, key: string, waitTime: int, thread: nat,
                        reply: StoreReply, localInterrupted: bool)
    ensures var (ok, t') := TryLockStep(t, hasClient, key, waitTime, thread, reply, localInterrupted);
      && (UsesStore(hasClient, reply) ==>
            t'.local == t.local
            && (ok <==> reply == Answered && (StateOf(t.remote, key).Free? || IsHeldBy(StateOf(t.remote, key), thread)))
            && (ok ==> IsHeldBy(StateOf(t'.remote, key), thread)))
      && (!UsesStore(hasClient, reply) ==>
            t'.remote == t.remote
            && (ok <==> !(waitTime > 0 && localInterrupted)
                        && (StateOf(t.local, key).Free? || IsHeldBy(StateOf(t.local, key), thread)))
            && (ok ==> IsHeldBy(StateOf(t'.local, key), thread)))
      && (forall k :: k != key ==> StateOf(t'.remote, k) == StateOf(t.remote, k)
                                   && StateOf(t'.local, k) == StateOf(t.local, k))
  {
  }

  /** With wait 0 a failed attempt means the key is held by someone else on the table consulted. */
  lemma FailFastMeansHeldElsewhere(t: LockTables, hasClient: bool, key: string, thread: nat,
                                   reply: StoreReply, localInterrupted: bool)
    requires reply != Interrupted || !hasClient
    requires !TryLockStep(t, hasClient, key, DefaultWaitTime, thread, reply, localInterrupted).0
    ensures var s := if UsesStore(hasClient, reply) then StateOf(t.remote, key) else StateOf(t.local, key);
      s.Held? && s.owner != thread
  {
    TryLockStepSpec(t, hasClient, key, DefaultWaitTime, thread, reply, localInterrupted);
  }

  /**
   * A successful lock followed by an unlock that reaches the same table leaves
   * both tables as they were, key by key.
   */
  lemma UnlockUndoesTryLock(t: LockTables, hasClient: bool, key: string, waitTime: int, thread: nat,
                            reply: StoreReply, localInterrupted: bool, remoteAnswered: bool)
    requires TryLockStep(t, hasClient, key, waitTime, thread, reply, localInterrupted).0
    requires remoteAnswered <==> reply == Answered
    ensures var t2 := UnlockStep(TryLockStep(t, hasClient, key, waitTime, thread, reply, localInterrupted).1,
                                 hasClient, key, thread, remoteAnswered);
      forall k :: StateOf(t2.remote, k) == StateOf(t.remote, k) && StateOf(t2.local, k) == StateOf(t.local, k)
  {
    TryLockStepSpec(t, hasClient, key, waitTime, thread, reply, localInterrupted);
    var t1 := TryLockStep(t, hasClient, key, waitTime, thread, reply, localInterrupted).1;
    if hasClient && reply == Answered {
      ReleaseUndoesAcquire(StateOf(t.remote, key), thread);
    } else {
      assert StateOf(t1.remote, key) == StateOf(t.remote, key);
      if hasClient && remoteAnswered {
        assert false;
      }
      ReleaseUndoesAcquire(StateOf(t.local, key), thread);
    }
  }

  /** Unlocking a key the caller does not hold anywhere changes nothing. */
  lemma UnlockByNonHolderIsNoOp(t: LockTables, hasClient: bool, key: string, thread: nat, remoteAnswered: bool)
    requires !IsHeldBy(StateOf(t.remote, key), thread) && !IsHeldBy(StateOf(t.local, key), thread)
    ensures UnlockStep(t, hasClient, key, thread, remoteAnswered) == t
  {
  }

  /**
   * The local fallback does not see the store's locks: while one thread holds a
   * key in the store, another thread whose store call fails gets the same key locally.
   */
  lemma FallbackIgnoresStoreHolder(t: LockTables, key: string, holder: nat, other: nat)
    requires holder != other
    requires IsHeldBy(StateOf(t.remote, key), holder)
    requires StateOf(t.local, key).Free?
    ensures !TryLockStep(t, true, key, DefaultWaitTime, other, Answered, false).0
    ensures TryLockStep(t, true, key, DefaultWaitTime, other, Unreachable, false).0
  {
  }

  class DistributedLockManager {
    /** Whether a store client was available at construction (`redissonClient != null`). */
    const hasClient: bool
    var remoteLocks: map<string, LockState>
    var localLocks: map<string, LockState>

    function Tables(): LockTables
      reads this
    {
      LockTables(remoteLocks, localLocks)
    }

    constructor (hasClient: bool)
      ensures this.hasClient == hasClient
      ensures remoteLocks == map[] && localLocks == map[]
    {
      this.hasClient := hasClient;
      remoteLocks := map[];
      localLocks := map[];
    }

    /** `isAvailable`. */
    method IsAvailable() returns (available: bool)
      ensures available == hasClient
    {
      available := hasClient;
    }

    /** `tryLock(lockKey, waitTime, leaseTime)`; the lease is not modelled. */
    method TryLock(lockKey: string, waitTime: int, leaseTime: int, thread: nat,
                   reply: StoreReply, localInterrupted: bool) returns (acquired: bool)
      modifies this
      ensures (acquired, Tables())
              == TryLockStep(old(Tables()), hasClient, lockKey, waitTime, thread, reply, localInterrupted)
    {
      if hasClient {
        if reply == Answered {
          var r := TryAcquire(StateOf(remoteLocks, lockKey), thread);
          if r.0 {
            remoteLocks := remoteLocks[lockKey := r.1];
          }
          return r.0;
        } else if reply == Interrupted {
          return false;
        }
      }
      if lockKey !in localLocks {
        localLocks := localLocks[lockKey := Free];
      }
      if waitTime > 0 && localInterrupted {
        return false;
      }
      var r := TryAcquire(localLocks[lockKey], thread);
      localLocks := localLocks[lockKey := r.1];
      acquired := r.0;
    }

    /** `tryLock(lockKey)`: fail fast, 10-second lease. */
    method TryLockDefault(lockKey: string, thread: nat, reply: StoreReply) returns (acquired: bool)
      modifies this
      ensures (acquired, Tables())
              == TryLockStep(old(Tables()), hasClient, lockKey, DefaultWaitTime, thread, reply, false)
    {
      acquired := TryLock(lockKey, DefaultWaitTime, DefaultLeaseTime * 1000, thread, reply, false);
    }

    /** `tryLockSeat`. */
    method TryLockSeat(screeningId: nat, seatId: nat, thread: nat, reply: StoreReply) returns (acquired: bool)
      modifies this
      ensures (acquired, Tables())
              == TryLockStep(old(Tables()), hasClient, SeatLockKey(screeningId, seatId), DefaultWaitTime, thread, reply, false)
    {
      acquired := TryLockDefault(SeatLockKey(screeningId, seatId), thread, reply);
    }

    /** `unlock(lockKey)`. */
    method Unlock(lockKey: string, thread: nat, remoteAnswered: bool)
      modifies this
      ensures Tables() == UnlockStep(old(Tables()), hasClient, lockKey, thread, remoteAnswered)
    {
      if hasClient && remoteAnswered && IsHeldBy(StateOf(remoteLocks, lockKey), thread) {
        remoteLocks := remoteLocks[lockKey := ReleaseOnce(remoteLocks[lockKey], thread)];
        return;
      }
      if lockKey in localLocks && IsHeldBy(localLocks[lockKey], thread) {
        localLocks := localLocks[lockKey := ReleaseOnce(localLocks[lockKey], thread)];
      }
    }

    /** `unlockSeat`. */
    method UnlockSeat(screeningId: nat, seatId: nat, thread: nat, remoteAnswered: bool)
      modifies this
      ensures Tables() == UnlockStep(old(Tables()), hasClient, SeatLockKey(screeningId, seatId), thread, remoteAnswered)
    {
      Unlock(SeatLockKey(screeningId, seatId), thread, remoteAnswered);
    }

    /**
     * `executeWithLock`: SEAT_LOCK_FAILED without running the action when the lock
     * is not acquired; otherwise the action's value, with the lock given back.
     */
    method ExecuteWithLock<T>(lockKey: string, action: () -> T, thread: nat,
                              reply: StoreReply, remoteAnswered: bool) returns (r: Result<T>)
      modifies this
      ensures var (ok, t1) := TryLockStep(old(Tables()), hasClient, lockKey, DefaultWaitTime, thread, reply, false);
        && (!ok ==> r == Err(SEAT_LOCK_FAILED) && Tables() == t1)
        && (ok ==> r == Ok(action()) && Tables() == UnlockStep(t1, hasClient, lockKey, thread, remoteAnswered))
    {
      var acquired := TryLockDefault(lockKey, thread, reply);
      if !acquired {
        return Err(SEAT_LOCK_FAILED);
      }
      var value := action();
      Unlock(lockKey, thread, remoteAnswered);
      r := Ok(value);
    }
  }
}
