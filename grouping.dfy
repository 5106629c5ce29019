/**
 * `Collectors.groupingBy(key, summingLong(value))` and `counting()`, with the sums they
 * stand for: a map from each key to the total of the values under that key.
 */
module Grouping {
  import opened Seqs

  /** `Map.getOrDefault(k, d)`. */
  function GetOrDefault<K, V>(m: map<K, V>, k: K, d: V): V
  {
    if k in m then m[k] else d
  }

  /** The map `groupingBy` builds from (key, value) pairs, summing the values under each key. */
  function GroupSum<K(!new)>(pairs: seq<(K, int)>): (m: map<K, int>)
    ensures forall k :: k in m <==> exists i :: 0 <= i < |pairs| && pairs[i].0 == k
  {
    if pairs == [] then map[]
    else
      var rest := GroupSum(pairs[1..]);
      var (k, v) := pairs[0];
      assert forall i :: 1 <= i < |pairs| ==> pairs[i] == pairs[1..][i - 1];
      rest[k := GetOrDefault(rest, k, 0) + v]
  }

  /** The total of the values paired with key `k`. */
  function SumFor<K(==)>(pairs: seq<(K, int)>, k: K): int
  {
    if pairs == [] then 0
    else (if pairs[0].0 == k then pairs[0].1 else 0) + SumFor(pairs[1..], k)
  }

  /** Looking a key up in the grouped map, with 0 for an absent key, is the total for that key. */
  lemma {:induction false} GroupSumGet<K(!new)>(pairs: seq<(K, int)>, k: K)
    ensures GetOrDefault(GroupSum(pairs), k, 0) == SumFor(pairs, k)
    decreases |pairs|
  {
    if pairs != [] {
      GroupSumGet(pairs[1..], k);
    }
  }

  /** The total of `f` over the elements of `s` that satisfy `p`. */
  function SumOf<T>(s: seq<T>, p: T -> bool, f: T -> int): int
  {
    if s == [] then 0
    else (if p(s[0]) then f(s[0]) else 0) + SumOf(s[1..], p, f)
  }

  /** Pairing the elements that pass `p` with `key` and `value`, the total for `k` is the sum of
    * `value` over the elements that pass `p` and have key `k`. */
  lemma {:induction false} SumForPairs<T(!new), K>(s: seq<T>, p: T -> bool, key: T -> K, value: T -> int,
                                                   pair: T -> (K, int), k: K, q: T -> bool)
    requires forall x :: pair(x) == (key(x), value(x))
    requires forall x :: q(x) == (p(x) && key(x) == k)
    ensures SumFor(Map(Filter(s, p), pair), k) == SumOf(s, q, value)
    decreases |s|
  {
    if s != [] {
      SumForPairs(s[1..], p, key, value, pair, k, q);
      if p(s[0]) {
        assert Filter(s, p) == [s[0]] + Filter(s[1..], p);
        assert Map(Filter(s, p), pair)[1..] == Map(Filter(s[1..], p), pair);
      }
    }
  }

  /** Summing over a filtered list is summing over the whole list under the conjunction. */
  lemma {:induction false} SumOfFilter<T(!new)>(s: seq<T>, p: T -> bool, q: T -> bool, pq: T -> bool, f: T -> int)
    requires forall x :: x in s ==> pq(x) == (p(x) && q(x))
    ensures SumOf(Filter(s, p), q, f) == SumOf(s, pq, f)
    decreases |s|
  {
    if s != [] {
      assert forall x :: x in s[1..] ==> x in s;
      SumOfFilter(s[1..], p, q, pq, f);
      if p(s[0]) {
        assert Filter(s, p) == [s[0]] + Filter(s[1..], p);
      }
    }
  }

  /** Summing 1 per element is counting. */
  lemma {:induction false} SumOfOnesIsCount<T>(s: seq<T>, p: T -> bool, one: T -> int)
    requires forall x :: one(x) == 1
    ensures SumOf(s, p, one) == Count(s, p)
    decreases |s|
  {
    if s != [] {
      SumOfOnesIsCount(s[1..], p, one);
    }
  }
}
