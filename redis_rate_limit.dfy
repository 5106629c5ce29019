/**
 * The fixed-window request counter kept in Redis
 * (infrastructure/redis/RedisRateLimitService.java): each call increments `"rate:" + key`,
 * gives a fresh counter its window as expiry, and allows the call while the count is within
 * the limit. A store error lets the call through. Whether the increment and the expiry
 * command reach the store are the `incrOk` and `expireOk` parameters; `now` is the store's
 * clock in milliseconds.
 */
module RedisRateLimit {
  import opened Common

  const RatePrefix: string := "rate:"

  /** A counter and the instant it expires at, if an expiry was set. */
  datatype Counter = Counter(count: int, expireAt: Option<int>)

  /** The counter under `redisKey` is still in the store at `now`. */
  predicate Live(counters: map<string, Counter>, redisKey: string, now: int)
  {
    redisKey in counters && (counters[redisKey].expireAt.None? || now < counters[redisKey].expireAt.value)
  }

  /** `INCR`: a live counter goes up by one and keeps its expiry; otherwise a new counter starts at 1. */
  function Incremented(counters: map<string, Counter>, redisKey: string, now: int): (c: Counter)
    ensures c.count >= 1 || Live(counters, redisKey, now)
  {
    if Live(counters, redisKey, now) then counters[redisKey].(count := counters[redisKey].count + 1)
    else Counter(1, None)
  }

  /** `tryAcquire(key, limit, windowSeconds)`. */
  function TryAcquireStep(counters: map<string, Counter>, key: string, limit: int, windowSeconds: int, now: int,
                          incrOk: bool, expireOk: bool): (bool, map<string, Counter>)
  {
    var redisKey := RatePrefix + key;
    if !incrOk then (true, counters)
    else
      var c := Incremented(counters, redisKey, now);
      if c.count == 1 && !expireOk then (true, counters[redisKey := c])
      else
        var c' := if c.count == 1 then c.(expireAt := Some(now + windowSeconds * MillisPerSecond)) else c;
        (c.count <= limit, counters[redisKey := c'])
  }

  /**
   * With both commands reaching the store, the counter goes up by one (or restarts at 1), the
   * window is set exactly when it restarts, and the call is allowed exactly when the new count is
   * within the limit. A failed increment allows the call and changes nothing; a failed expiry on a
   * new counter allows the call and leaves that counter with no expiry.
   */
  lemma TryAcquireSpec(counters: map<string, Counter>, key: string, limit: int, windowSeconds: int, now: int,
                       incrOk: bool, expireOk: bool)
    ensures var r := TryAcquireStep(counters, key, limit, windowSeconds, now, incrOk, expireOk);
      var redisKey := RatePrefix + key;
      && (!incrOk ==> r == (true, counters))
      && (incrOk ==>
            && r.1.Keys == counters.Keys + {redisKey}
            && (forall k :: k in counters && k != redisKey ==> r.1[k] == counters[k])
            && r.1[redisKey].count == (if Live(counters, redisKey, now) then counters[redisKey].count + 1 else 1)
            && (Live(counters, redisKey, now) && counters[redisKey].count != 0 ==> r.1[redisKey].expireAt == counters[redisKey].expireAt)
            && (r.1[redisKey].count == 1 && expireOk ==> r.1[redisKey].expireAt == Some(now + windowSeconds * MillisPerSecond))
            && (r.1[redisKey].count == 1 && !expireOk ==> r.0 && r.1[redisKey].expireAt == Incremented(counters, redisKey, now).expireAt)
            && (r.1[redisKey].count != 1 || expireOk ==> (r.0 <==> r.1[redisKey].count <= limit)))
  {
  }

  /** Calls at successive instants, each reaching the store. */
  function AcquireAll(counters: map<string, Counter>, key: string, limit: int, windowSeconds: int, times: seq<int>)
    : (r: (seq<bool>, map<string, Counter>))
    ensures |r.0| == |times|
    decreases |times|
  {
    if times == [] then ([], counters)
    else
      var (a, c1) := TryAcquireStep(counters, key, limit, windowSeconds, times[0], true, true);
      var (rest, c2) := AcquireAll(c1, key, limit, windowSeconds, times[1..]);
      ([a] + rest, c2)
  }

  /**
   * Within one window, exactly the first `limit` calls are allowed: once the counter for `key`
   * has expired (or never existed), calls made before `start + windowSeconds` seconds, where
   * `start` is the first call, are allowed exactly while fewer than `limit` came before them.
   */
  lemma FirstLimitCallsAllowed(counters: map<string, Counter>, key: string, limit: int, windowSeconds: int,
                               times: seq<int>)
    requires windowSeconds > 0 && times != []
    requires !Live(counters, RatePrefix + key, times[0])
    requires forall i :: 0 <= i < |times| ==> times[0] <= times[i] < times[0] + windowSeconds * MillisPerSecond
    ensures forall i :: 0 <= i < |times| ==> AcquireAll(counters, key, limit, windowSeconds, times).0[i] == (i < limit)
  {
    var redisKey := RatePrefix + key;
    var expireAt := times[0] + windowSeconds * MillisPerSecond;
    var (a, c1) := TryAcquireStep(counters, key, limit, windowSeconds, times[0], true, true);
    assert c1[redisKey] == Counter(1, Some(expireAt));
    InWindowCounts(c1, key, limit, windowSeconds, times[1..], 1, expireAt);
  }

  lemma {:induction false} InWindowCounts(counters: map<string, Counter>, key: string, limit: int, windowSeconds: int,
                                          times: seq<int>, n: int, expireAt: int)
    requires n >= 1
    requires RatePrefix + key in counters && counters[RatePrefix + key] == Counter(n, Some(expireAt))
    requires forall i :: 0 <= i < |times| ==> times[i] < expireAt
    ensures forall i :: 0 <= i < |times| ==> AcquireAll(counters, key, limit, windowSeconds, times).0[i] == (n + i < limit)
    decreases |times|
  {
    if times != [] {
      var redisKey := RatePrefix + key;
      var (a, c1) := TryAcquireStep(counters, key, limit, windowSeconds, times[0], true, true);
      assert a == (n + 1 <= limit);
      assert c1[redisKey] == Counter(n + 1, Some(expireAt));
      InWindowCounts(c1, key, limit, windowSeconds, times[1..], n + 1, expireAt);
      var r := AcquireAll(counters, key, limit, windowSeconds, times);
      var rest := AcquireAll(c1, key, limit, windowSeconds, times[1..]);
      assert r.0 == [a] + rest.0;
      forall i | 0 <= i < |times| ensures r.0[i] == (n + i < limit) {
        if i > 0 {
          assert r.0[i] == rest.0[i - 1];
        }
      }
    }
  }

  /** A counter whose expiry command failed never expires: each later call raises it, so once it is
    * past the limit every call for that key is refused from then on. */
  lemma CounterWithoutExpiryNeverResets(counters: map<string, Counter>, key: string, limit: int, windowSeconds: int,
                                        now: int, expireOk: bool)
    requires RatePrefix + key in counters && counters[RatePrefix + key].expireAt.None?
    requires counters[RatePrefix + key].count >= limit && counters[RatePrefix + key].count >= 1
    ensures var r := TryAcquireStep(counters, key, limit, windowSeconds, now, true, expireOk);
      && !r.0
      && r.1[RatePrefix + key] == Counter(counters[RatePrefix + key].count + 1, None)
  {
  }

  class RedisRateLimitService {
    var counters: map<string, Counter>

    constructor ()
      ensures counters == map[]
    {
      counters := map[];
    }

    /** `tryAcquire`. */
    method TryAcquire(key: string, limit: int, windowSeconds: int, now: int, incrOk: bool, expireOk: bool)
      returns (allowed: bool)
      modifies this
      ensures (allowed, counters) == TryAcquireStep(old(counters), key, limit, windowSeconds, now, incrOk, expireOk)
    {
      var redisKey := RatePrefix + key;
      if !incrOk {
        return true;
      }
      var before := counters;
      var c := Incremented(counters, redisKey, now);
      counters := counters[redisKey := c];
      if c.count == 1 {
        if !expireOk {
          return true;
        }
        counters := counters[redisKey := c.(expireAt := Some(now + windowSeconds * MillisPerSecond))];
        assert counters == before[redisKey := c.(expireAt := Some(now + windowSeconds * MillisPerSecond))];
      }
      allowed := c.count <= limit;
    }
  }
}
