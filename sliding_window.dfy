/**
 * A deque of event times kept to a sliding window: the loop both in-memory limiters
 * (global/security/LoginBruteForceService.java and global/security/AuthRateLimitFilter.java)
 * run before they look at the deque, which drops leading entries more than `window` older
 * than `now`.
 */
module SlidingWindow {
  import opened Seqs

  /** The entries at or after `now - window`. */
  function Recent(now: int, window: int): int -> bool
  {
    (t: int) => t >= now - window
  }

  /** The deque after the `while` loop of the limiters: leading entries older than the window dropped. */
  function Pruned(q: seq<int>, now: int, window: int): (r: seq<int>)
    ensures |r| <= |q| && r == q[|q| - |r|..]
    ensures r == [] || now - r[0] <= window
    ensures forall i :: 0 <= i < |q| - |r| ==> now - q[i] > window
  {
    if q != [] && now - q[0] > window then Pruned(q[1..], now, window) else q
  }

  predicate Sorted(q: seq<int>)
  {
    forall i, j :: 0 <= i < j < |q| ==> q[i] <= q[j]
  }

  /** On a sorted deque, pruning keeps exactly the recent entries. */
  lemma PrunedIsRecent(q: seq<int>, now: int, window: int)
    requires Sorted(q)
    ensures Pruned(q, now, window) == Filter(q, Recent(now, window))
  {
    var r := Pruned(q, now, window);
    var dropped := q[..|q| - |r|];
    DroppedAreOld(q, now, window);
    KeptAreRecent(q, now, window);
    assert q == dropped + r;
    FilterOldThenRecent(dropped, r, Recent(now, window));
  }

  /** Filtering entries that all fail the test, then entries that all pass it, keeps the latter. */
  lemma FilterOldThenRecent(dropped: seq<int>, r: seq<int>, p: int -> bool)
    requires forall i :: 0 <= i < |dropped| ==> !p(dropped[i])
    requires forall i :: 0 <= i < |r| ==> p(r[i])
    ensures Filter(dropped + r, p) == r
  {
    FilterAppend(dropped, r, p);
    FilterKeepsNone(dropped, p);
    FilterKeepsAll(r, p);
    assert [] + r == r;
  }

  lemma DroppedAreOld(q: seq<int>, now: int, window: int)
    ensures var dropped := q[..|q| - |Pruned(q, now, window)|];
      forall i :: 0 <= i < |dropped| ==> !Recent(now, window)(dropped[i])
  {
  }

  /** On a sorted deque every entry after the first kept one is recent too. */
  lemma KeptAreRecent(q: seq<int>, now: int, window: int)
    requires Sorted(q)
    ensures var r := Pruned(q, now, window);
      forall i :: 0 <= i < |r| ==> Recent(now, window)(r[i])
  {
    var r := Pruned(q, now, window);
    var k := |q| - |r|;
    forall i | 0 <= i < |r| ensures r[i] >= now - window {
      assert r[i] == q[k + i] && r[0] == q[k];
    }
  }

  /** Pruning at an instant no later than `now` drops no entry that is recent at `now`. */
  lemma PrunedKeepsRecentCount(q: seq<int>, at: int, now: int, window: int)
    requires at <= now
    ensures Count(Pruned(q, at, window), Recent(now, window)) == Count(q, Recent(now, window))
  {
    var r := Pruned(q, at, window);
    var k := |q| - |r|;
    assert q == q[..k] + r;
    CountIsFilterLength(q, Recent(now, window));
    CountIsFilterLength(r, Recent(now, window));
    CountIsFilterLength(q[..k], Recent(now, window));
    FilterAppend(q[..k], r, Recent(now, window));
    FilterKeepsNone(q[..k], Recent(now, window));
  }

  lemma PrunedAppendSorted(q: seq<int>, now: int, window: int)
    requires Sorted(q) && forall i :: 0 <= i < |q| ==> q[i] <= now
    ensures var r := Pruned(q, now, window) + [now];
      Sorted(r) && forall i :: 0 <= i < |r| ==> r[i] <= now
  {
    var r := Pruned(q, now, window);
    SortedSuffixAtMost(q, |q| - |r|, now);
    SortedAppend(r, now);
  }

  lemma SortedSuffixAtMost(q: seq<int>, k: nat, bound: int)
    requires k <= |q| && Sorted(q) && forall i :: 0 <= i < |q| ==> q[i] <= bound
    ensures Sorted(q[k..]) && forall i :: 0 <= i < |q[k..]| ==> q[k..][i] <= bound
  {
    assert forall i :: 0 <= i < |q[k..]| ==> q[k..][i] == q[k + i];
  }

  lemma SortedAppend(r: seq<int>, x: int)
    requires Sorted(r) && forall i :: 0 <= i < |r| ==> r[i] <= x
    ensures Sorted(r + [x]) && forall i :: 0 <= i < |r + [x]| ==> (r + [x])[i] <= x
  {
    assert forall i :: 0 <= i < |r| ==> (r + [x])[i] == r[i];
  }

}
