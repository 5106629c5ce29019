/**
 * Login brute-force protection (global/security/LoginBruteForceService.java): the failure
 * times of each login id, kept in a deque pruned to the lock window, and the lock that holds
 * while enough recent failures are on record. `System.nanoTime()` is the `now` parameter;
 * it never goes back, which the `clock` field records.
 */
module LoginBruteForce {
  import opened Common
  import opened Seqs
  import opened SlidingWindow

  const DefaultMaxFailedAttempts: int := 5
  const DefaultLockMinutes: int := 15
  const NanosPerMinute: int := 60_000_000_000

  /** The failures on record for an id, none when it has no deque. */
  function FailuresOf(failures: map<string, seq<int>>, loginId: string): seq<int>
  {
    if loginId in failures then failures[loginId] else []
  }

  /** `recordFailure`: prune the id's deque at `now`, then append `now`. */
  function RecordFailureStep(failures: map<string, seq<int>>, loginId: string, now: int, window: int): map<string, seq<int>>
  {
    failures[loginId := Pruned(FailuresOf(failures, loginId), now, window) + [now]]
  }

  /** `isLocked`: the id has a deque holding at least `maxFailed` failures at or after `now - window`. */
  predicate LockedIn(failures: map<string, seq<int>>, loginId: string, now: int, window: int, maxFailed: int)
  {
    loginId in failures && Count(failures[loginId], Recent(now, window)) >= maxFailed
  }

  /** A recorded failure adds one to the failures recent at any later instant it is recent for. */
  lemma RecordFailureCounts(failures: map<string, seq<int>>, loginId: string, at: int, now: int, window: int)
    requires at <= now && at >= now - window
    ensures Count(RecordFailureStep(failures, loginId, at, window)[loginId], Recent(now, window))
            == Count(FailuresOf(failures, loginId), Recent(now, window)) + 1
  {
    var r := Pruned(FailuresOf(failures, loginId), at, window);
    PrunedKeepsRecentCount(FailuresOf(failures, loginId), at, now, window);
    CountIsFilterLength(r + [at], Recent(now, window));
    CountIsFilterLength(r, Recent(now, window));
    CountIsFilterLength([at], Recent(now, window));
    FilterAppend(r, [at], Recent(now, window));
  }

  /** Recording failures at the given instants, in order. */
  function RecordAll(failures: map<string, seq<int>>, loginId: string, times: seq<int>, window: int): map<string, seq<int>>
    decreases |times|
  {
    if times == [] then failures
    else RecordAll(RecordFailureStep(failures, loginId, times[0], window), loginId, times[1..], window)
  }

  /** `maxFailed` failures within the window before `now` lock the id at `now`, whatever came before. */
  lemma FailuresInWindowLock(failures: map<string, seq<int>>, loginId: string, times: seq<int>,
                                                now: int, window: int, maxFailed: int)
    requires |times| >= maxFailed
    requires times != [] || loginId in failures
    requires forall i :: 0 <= i < |times| ==> now - window <= times[i] <= now
    ensures LockedIn(RecordAll(failures, loginId, times, window), loginId, now, window, maxFailed)
  {
    RecordAllCount(failures, loginId, times, now, window);
  }

  lemma {:induction false} RecordAllCount(failures: map<string, seq<int>>, loginId: string, times: seq<int>,
                                          now: int, window: int)
    requires forall i :: 0 <= i < |times| ==> now - window <= times[i] <= now
    ensures times != [] || loginId in failures ==> loginId in RecordAll(failures, loginId, times, window)
    ensures Count(FailuresOf(RecordAll(failures, loginId, times, window), loginId), Recent(now, window))
            == Count(FailuresOf(failures, loginId), Recent(now, window)) + |times|
    decreases |times|
  {
    if times != [] {
      var f1 := RecordFailureStep(failures, loginId, times[0], window);
      RecordFailureCounts(failures, loginId, times[0], now, window);
      RecordAllCount(f1, loginId, times[1..], now, window);
    }
  }

  /** Every deque is in time order and holds no instant after `clock`. */
  predicate InTimeOrder(failures: map<string, seq<int>>, clock: int)
  {
    forall id :: id in failures ==> Sorted(failures[id]) && forall i :: 0 <= i < |failures[id]| ==> failures[id][i] <= clock
  }

  /** Recording a failure at a reading no earlier than the clock keeps every deque in time order. */
  lemma RecordKeepsTimeOrder(failures: map<string, seq<int>>, clock: int, loginId: string, now: int, window: int)
    requires InTimeOrder(failures, clock) && clock <= now
    ensures InTimeOrder(RecordFailureStep(failures, loginId, now, window), now)
  {
    var f := RecordFailureStep(failures, loginId, now, window);
    forall id | id in f
      ensures Sorted(f[id]) && forall i :: 0 <= i < |f[id]| ==> f[id][i] <= now
    {
      if id == loginId {
        PrunedAppendSorted(FailuresOf(failures, loginId), now, window);
      }
    }
  }

  class LoginBruteForceService {
    const maxFailedAttempts: int
    const lockMinutes: int
    var failuresByLoginId: map<string, seq<int>>
    /** The latest `System.nanoTime()` reading. */
    var clock: int

    ghost predicate Valid()
      reads this
    {
      InTimeOrder(failuresByLoginId, clock)
    }

    function Window(): int
      reads this
    {
      lockMinutes * NanosPerMinute
    }

    constructor (maxFailedAttempts: int, lockMinutes: int, now: int)
      ensures this.maxFailedAttempts == maxFailedAttempts && this.lockMinutes == lockMinutes
      ensures failuresByLoginId == map[] && clock == now
      ensures Valid()
    {
      this.maxFailedAttempts := maxFailedAttempts;
      this.lockMinutes := lockMinutes;
      failuresByLoginId := map[];
      clock := now;
    }

    /** `isLocked`, counting the recent failures with a loop. */
    method IsLocked(loginId: string, now: int) returns (locked: bool)
      ensures locked == LockedIn(failuresByLoginId, loginId, now, Window(), maxFailedAttempts)
    {
      if loginId !in failuresByLoginId {
        return false;
      }
      var q := failuresByLoginId[loginId];
      var cutoff := now - lockMinutes * NanosPerMinute;
      var n := 0;
      var i := |q|;
      while i > 0
        invariant 0 <= i <= |q|
        invariant n == Count(q[i..], Recent(now, Window()))
      {
        i := i - 1;
        assert q[i..] == [q[i]] + q[i + 1..];
        if q[i] >= cutoff {
          n := n + 1;
        }
      }
      assert q[0..] == q;
      locked := n >= maxFailedAttempts;
    }

    /** `checkLocked`: INVALID_PASSWORD, the same answer as for a wrong password, exactly while locked. */
    method CheckLocked(loginId: string, now: int) returns (r: Outcome)
      ensures r.Fail? <==> LockedIn(failuresByLoginId, loginId, now, Window(), maxFailedAttempts)
      ensures r.Fail? ==> r.error == INVALID_PASSWORD
    {
      var locked := IsLocked(loginId, now);
      if locked {
        return Fail(INVALID_PASSWORD);
      }
      return Pass;
    }

    /** `recordFailure` at `now`. */
    method RecordFailure(loginId: string, now: int)
      requires Valid() && clock <= now
      modifies this`failuresByLoginId, this`clock
      ensures Valid() && clock == now
      ensures failuresByLoginId == RecordFailureStep(old(failuresByLoginId), loginId, now, Window())
    {
      var q0 := FailuresOf(failuresByLoginId, loginId);
      var q := q0;
      while q != [] && now - q[0] > lockMinutes * NanosPerMinute
        invariant Pruned(q, now, Window()) == Pruned(q0, now, Window())
        decreases |q|
      {
        q := q[1..];
      }
      RecordKeepsTimeOrder(failuresByLoginId, clock, loginId, now, Window());
      failuresByLoginId := failuresByLoginId[loginId := q + [now]];
      clock := now;
    }

    /** `clearSuccess`: the id's failures are forgotten, so it is not locked at any instant. */
    method ClearSuccess(loginId: string)
      requires Valid()
      modifies this`failuresByLoginId
      ensures Valid()
      ensures failuresByLoginId == old(failuresByLoginId) - {loginId}
      ensures forall now :: !LockedIn(failuresByLoginId, loginId, now, Window(), maxFailedAttempts)
    {
      failuresByLoginId := failuresByLoginId - {loginId};
    }
  }
}
