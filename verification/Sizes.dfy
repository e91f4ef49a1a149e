/** Sizes of finite sets and maps. */
module Sizes {
  lemma {:induction false} SubsetIsSmaller<T>(a: set<T>, b: set<T>)
    requires a <= b
    ensures |a| <= |b|
  {
    if a != {} {
      var x :| x in a;
      SubsetIsSmaller(a - {x}, b - {x});
    }
  }

  lemma FewerKeys<K, V, W>(small: map<K, V>, large: map<K, W>)
    requires small.Keys <= large.Keys
    ensures |small| <= |large|
  {
    assert |small| == |small.Keys| && |large| == |large.Keys|;
    SubsetIsSmaller(small.Keys, large.Keys);
  }

  lemma OneKeyLess<K, V>(m: map<K, V>, key: K)
    requires key in m
    ensures |m| == |m - {key}| + 1
  {
    assert (m - {key}).Keys == m.Keys - {key};
    assert |m - {key}| == |(m - {key}).Keys| && |m| == |m.Keys|;
  }

  /** A map that is one-to-one into a set has no more entries than the set. */
  lemma {:induction false} InjectiveSize<K, V>(m: map<K, V>, target: set<V>)
    requires forall k :: k in m ==> m[k] in target
    requires forall k, j :: k in m && j in m && k != j ==> m[k] != m[j]
    ensures |m| <= |target|
  {
    if m != map[] {
      var k :| k in m;
      OneKeyLess(m, k);
      InjectiveSize(m - {k}, target - {m[k]});
    }
  }
}
