/** The Fisher-Yates shuffle as a bijection between choice vectors and permutations. */
module Shuffle {
  import opened Bytes
  import opened RandomStream
  import opened Sampling

  const MAX_PERMUTATION_ITEMS := 1_000_000

  function Identity(n: nat): (s: seq<nat>)
    ensures |s| == n
  {
    seq(n, i => i)
  }

  function Swap(s: seq<nat>, i: nat, j: nat): (t: seq<nat>)
    requires i < |s| && j < |s|
    ensures |t| == |s|
  {
    s[i := s[j]][j := s[i]]
  }

  /** choices[i] is what is drawn for index i; index 0 is never drawn for. */
  predicate IsChoiceVector(choices: seq<nat>) {
    forall i :: 0 <= i < |choices| ==> choices[i] <= i
  }

  /** The swaps for indexes k-1 down to 1. */
  function SwapsBelow(s: seq<nat>, choices: seq<nat>, k: nat): (t: seq<nat>)
    requires k <= |s| == |choices| && IsChoiceVector(choices)
    ensures |t| == |s|
    decreases k
  {
    if k <= 1 then s else SwapsBelow(Swap(s, k - 1, choices[k - 1]), choices, k - 1)
  }

  function Shuffled(choices: seq<nat>): (t: seq<nat>)
    requires IsChoiceVector(choices)
    ensures |t| == |choices|
  {
    SwapsBelow(Identity(|choices|), choices, |choices|)
  }

  ghost predicate IsPermutation(p: seq<nat>) {
    && (forall i :: 0 <= i < |p| ==> p[i] < |p|)
    && Distinct(p)
  }

  ghost predicate Distinct(p: seq<nat>) {
    forall i, j :: 0 <= i < j < |p| ==> p[i] != p[j]
  }

  lemma SwapKeepsItems(s: seq<nat>, i: nat, j: nat)
    requires i < |s| && j < |s|
    ensures multiset(Swap(s, i, j)) == multiset(s)
    ensures Distinct(s) ==> Distinct(Swap(s, i, j))
  {
  }

  /** The swaps below k touch only the first k places and rearrange those. */
  lemma {:induction false} SwapsBelowFrame(s: seq<nat>, choices: seq<nat>, k: nat)
    requires k <= |s| == |choices| && IsChoiceVector(choices)
    ensures SwapsBelow(s, choices, k)[k..] == s[k..]
    ensures multiset(SwapsBelow(s, choices, k)) == multiset(s)
    ensures Distinct(s) ==> Distinct(SwapsBelow(s, choices, k))
    decreases k
  {
    if k > 1 {
      var s' := Swap(s, k - 1, choices[k - 1]);
      SwapKeepsItems(s, k - 1, choices[k - 1]);
      SwapsBelowFrame(s', choices, k - 1);
      assert s'[k - 1..][1..] == s'[k..] == s[k..];
    }
  }

  lemma {:induction false} LastPlaced(s: seq<nat>, choices: seq<nat>, k: nat)
    requires 1 <= k <= |s| == |choices| && IsChoiceVector(choices)
    ensures SwapsBelow(s, choices, k)[k - 1] == s[choices[k - 1]]
  {
    if k > 1 {
      var s' := Swap(s, k - 1, choices[k - 1]);
      SwapsBelowFrame(s', choices, k - 1);
      assert SwapsBelow(s', choices, k - 1)[k - 1..][0] == s'[k - 1..][0];
    }
  }

  lemma IsPermutationIffSameItems(p: seq<nat>)
    ensures IsPermutation(p) <==> multiset(p) == multiset(Identity(|p|))
  {
    var n, id := |p|, Identity(|p|);
    if multiset(p) == multiset(id) {
      forall i | 0 <= i < n ensures p[i] < n {
        assert p[i] in multiset(p);
        assert p[i] in id;
      }
      forall i, j | 0 <= i < j < n ensures p[i] != p[j] {
        if p[i] == p[j] {
          TwiceInMultiset(p, i, j);
          DistinctMultiplicity(id, p[i]);
        }
      }
    }
    if IsPermutation(p) {
      Pigeonhole(p, n);
      forall x | x in multiset(p) || x in multiset(id) ensures multiset(p)[x] == multiset(id)[x] {
        DistinctMultiplicity(p, x);
        DistinctMultiplicity(id, x);
        assert x in multiset(id) ==> x in id;
        assert x in multiset(id) ==> x < n;
        assert x < n ==> id[x] == x;
      }
    }
  }

  lemma TwiceInMultiset(p: seq<nat>, i: nat, j: nat)
    requires i < j < |p| && p[i] == p[j]
    ensures multiset(p)[p[i]] >= 2
  {
    assert p == p[..i] + [p[i]] + p[i + 1..j] + [p[j]] + p[j + 1..];
  }

  lemma {:induction false} DistinctMultiplicity(p: seq<nat>, x: nat)
    requires Distinct(p)
    ensures multiset(p)[x] == if x in p then 1 else 0
  {
    if p != [] {
      var q, y := p[..|p| - 1], p[|p| - 1];
      assert p == q + [y];
      DistinctMultiplicity(q, x);
      assert y !in q;
    }
  }

  /** n distinct numbers below n are all of them. */
  lemma {:induction false} Pigeonhole(p: seq<nat>, n: nat)
    requires |p| == n && Distinct(p) && forall i :: 0 <= i < n ==> p[i] < n
    ensures forall x :: 0 <= x < n ==> x in p
  {
    if n > 0 {
      if n - 1 in p {
        var k :| 0 <= k < n && p[k] == n - 1;
        var q := p[..k] + p[k + 1..];
        assert forall i :: 0 <= i < n - 1 ==> q[i] == if i < k then p[i] else p[i + 1];
        Pigeonhole(q, n - 1);
        forall x | 0 <= x < n ensures x in p {
          if x < n - 1 { assert x in q; }
        }
      } else {
        var q := p[..n - 1];
        assert p[n - 1] !in q;
        Pigeonhole(q, n - 1);
      }
    }
  }

  /** Each choice vector gives a permutation of 0..n-1. */
  lemma ShuffleGivesPermutation(choices: seq<nat>)
    requires IsChoiceVector(choices)
    ensures IsPermutation(Shuffled(choices))
  {
    SwapsBelowFrame(Identity(|choices|), choices, |choices|);
    IsPermutationIffSameItems(Shuffled(choices));
  }

  lemma {:induction false} SwapsDetermineChoices(s: seq<nat>, c: seq<nat>, d: seq<nat>, k: nat)
    requires k <= |s| == |c| == |d| && IsChoiceVector(c) && IsChoiceVector(d) && Distinct(s)
    requires SwapsBelow(s, c, k) == SwapsBelow(s, d, k)
    ensures c[..k] == d[..k]
    decreases k
  {
    if k == 1 {
      assert c[0] == d[0];
    } else if k > 1 {
      LastPlaced(s, c, k);
      LastPlaced(s, d, k);
      assert c[k - 1] == d[k - 1];
      SwapKeepsItems(s, k - 1, c[k - 1]);
      SwapsDetermineChoices(Swap(s, k - 1, c[k - 1]), c, d, k - 1);
      assert c[..k] == c[..k - 1] + [c[k - 1]] && d[..k] == d[..k - 1] + [d[k - 1]];
    }
  }

  /** Distinct choice vectors give distinct permutations. */
  lemma ShuffleIsInjective(c: seq<nat>, d: seq<nat>)
    requires IsChoiceVector(c) && IsChoiceVector(d) && Shuffled(c) == Shuffled(d)
    ensures c == d
  {
    SwapsDetermineChoices(Identity(|c|), c, d, |c|);
    assert c[..|c|] == c && d[..|d|] == d;
  }

  function IndexOf(s: seq<nat>, x: nat): (i: nat)
    requires x in s
    ensures i < |s| && s[i] == x
  {
    if s[0] == x then 0 else 1 + IndexOf(s[1..], x)
  }

  lemma PrefixItems(s: seq<nat>, t: seq<nat>, k: nat)
    requires k <= |s| == |t| && multiset(s) == multiset(t) && s[k..] == t[k..]
    ensures multiset(s[..k]) == multiset(t[..k])
  {
    assert s == s[..k] + s[k..];
    assert t == t[..k] + t[k..];
    assert multiset(s) == multiset(s[..k]) + multiset(s[k..]);
    assert multiset(t) == multiset(t[..k]) + multiset(t[k..]);
    forall x ensures multiset(s[..k])[x] == multiset(t[..k])[x] {
      assert multiset(s)[x] == multiset(t)[x];
    }
  }

  lemma LastIsInPrefix(s: seq<nat>, t: seq<nat>, k: nat)
    requires 1 <= k <= |s| == |t| && multiset(s) == multiset(t) && s[k..] == t[k..]
    ensures t[k - 1] in s[..k]
  {
    PrefixItems(s, t, k);
    assert t[k - 1] in t[..k];
    assert t[k - 1] in multiset(t[..k]);
  }

  /** The index, among the first k, of what has to go to place k-1; putting it there keeps `t` reachable. */
  function PlaceFor(s: seq<nat>, t: seq<nat>, k: nat): (i: nat)
    requires 1 <= k <= |s| == |t| && multiset(s) == multiset(t) && s[k..] == t[k..]
    ensures i < k && s[i] == t[k - 1]
    ensures multiset(Swap(s, k - 1, i)) == multiset(t)
    ensures Swap(s, k - 1, i)[k - 1..] == t[k - 1..]
  {
    LastIsInPrefix(s, t, k);
    var i := IndexOf(s[..k], t[k - 1]);
    SwapKeepsItems(s, k - 1, i);
    assert Swap(s, k - 1, i)[k - 1..] == [t[k - 1]] + s[k..];
    i
  }

  /** The choices for indexes below k that turn `s` into `t`. */
  function ChoicesBelow(s: seq<nat>, t: seq<nat>, k: nat): (c: seq<nat>)
    requires k <= |s| == |t| && multiset(s) == multiset(t) && s[k..] == t[k..]
    ensures |c| == k && IsChoiceVector(c)
    decreases k
  {
    if k == 0 then []
    else
      var i := PlaceFor(s, t, k);
      ChoicesBelow(Swap(s, k - 1, i), t, k - 1) + [i]
  }

  lemma {:induction false} ChoicesBelowWork(s: seq<nat>, t: seq<nat>, k: nat, c: seq<nat>)
    requires k <= |s| == |t| == |c| && multiset(s) == multiset(t) && s[k..] == t[k..]
    requires IsChoiceVector(c) && c[..k] == ChoicesBelow(s, t, k)
    ensures SwapsBelow(s, c, k) == t
    decreases k
  {
    if k == 0 {
      assert s[0..] == s && t[0..] == t;
    } else {
      var i := PlaceFor(s, t, k);
      var s' := Swap(s, k - 1, i);
      assert c[k - 1] == c[..k][k - 1] == i;
      assert c[..k - 1] == c[..k][..k - 1] == ChoicesBelow(s', t, k - 1);
      ChoicesBelowWork(s', t, k - 1, c);
      if k == 1 {
        assert s' == s;
      }
    }
  }

  /** The choice vector a permutation came from. */
  ghost function ChoicesOf(p: seq<nat>): (c: seq<nat>)
    requires IsPermutation(p)
    ensures |c| == |p| && IsChoiceVector(c)
  {
    IsPermutationIffSameItems(p);
    ChoicesBelow(Identity(|p|), p, |p|)
  }

  /** The shuffle is a bijection: ChoicesOf undoes it on either side. */
  lemma ShuffleReachesEveryPermutation(p: seq<nat>)
    requires IsPermutation(p)
    ensures Shuffled(ChoicesOf(p)) == p
  {
    IsPermutationIffSameItems(p);
    var c := ChoicesOf(p);
    assert c[..|p|] == c;
    ChoicesBelowWork(Identity(|p|), p, |p|, c);
  }

  lemma ShuffleIsUndone(c: seq<nat>)
    requires IsChoiceVector(c)
    ensures IsPermutation(Shuffled(c)) && ChoicesOf(Shuffled(c)) == c
  {
    ShuffleGivesPermutation(c);
    ShuffleReachesEveryPermutation(Shuffled(c));
    ShuffleIsInjective(ChoicesOf(Shuffled(c)), c);
  }

  /** Each of the draws for indexes n-1 down to 1, each from where the one before it ended, comes to a kept
      candidate: what the sampling loops need in order to stop. */
  ghost predicate ServesDown(prf: uint64 -> Block, n: nat, at: nat)
    requires n <= MAX_PERMUTATION_ITEMS
  {
    n <= 1 || (Serves(prf, n, at) && ServesDown(prf, n - 1, AfterSelection(prf, n, at)))
  }

  /** The uniform values that the stream gives from byte `at` on for indexes n-1 down to 1. */
  ghost function DrawnChoices(prf: uint64 -> Block, n: nat, at: nat): (c: seq<nat>)
    requires n <= MAX_PERMUTATION_ITEMS && ServesDown(prf, n, at)
    ensures |c| == n && IsChoiceVector(c)
  {
    if n <= 1 then seq(n, _ => 0)
    else DrawnChoices(prf, n - 1, AfterSelection(prf, n, at)) + [Selected(prf, n, at)]
  }

  ghost function DrawnEnd(prf: uint64 -> Block, n: nat, at: nat): nat
    requires n <= MAX_PERMUTATION_ITEMS && ServesDown(prf, n, at)
  {
    if n <= 1 then at else DrawnEnd(prf, n - 1, AfterSelection(prf, n, at))
  }

  method Exchange(items: array<nat>, i: nat, j: nat)
    requires i < items.Length && j < items.Length
    modifies items
    ensures items[..] == Swap(old(items[..]), i, j)
  {
    items[i], items[j] := items[j], items[i];
  }

  lemma OneSwap(prf: uint64 -> Block, choices: seq<nat>, index: nat, at: nat, items: seq<nat>)
    requires 1 <= index < |choices| == |items| <= MAX_PERMUTATION_ITEMS && IsChoiceVector(choices)
    requires ServesDown(prf, index + 1, at) && choices[..index + 1] == DrawnChoices(prf, index + 1, at)
    ensures Serves(prf, index + 1, at)
    ensures choices[index] == Selected(prf, index + 1, at)
    ensures choices[..index] == DrawnChoices(prf, index, AfterSelection(prf, index + 1, at))
    ensures SwapsBelow(items, choices, index + 1) == SwapsBelow(Swap(items, index, choices[index]), choices, index)
  {
    assert choices[index] == choices[..index + 1][index];
    assert choices[..index] == choices[..index + 1][..index];
  }

  method Permutation(count: int, source: Stream) returns (r: Option<array<nat>>)
    requires source.Valid()
    requires 1 <= count <= MAX_PERMUTATION_ITEMS ==> ServesDown(source.prf, count, source.consumed)
    modifies source
    ensures source.Valid()
    ensures r.None? <==> count < 1 || count > MAX_PERMUTATION_ITEMS
    ensures r.None? ==> source.consumed == old(source.consumed)
    ensures r.Some? ==> fresh(r.value)
    ensures r.Some? ==> r.value[..] == Shuffled(DrawnChoices(source.prf, count, old(source.consumed)))
    ensures r.Some? ==> source.consumed == DrawnEnd(source.prf, count, old(source.consumed))
  {
    if count < 1 || count > MAX_PERMUTATION_ITEMS {
      return None;
    }
    var items := new nat[count](i => i);
    assert items[..] == Identity(count);
    SwapDown(items, source);
    return Some(items);
  }

  /** The loop over the indexes from the last one down to 1. */
  method SwapDown(items: array<nat>, source: Stream)
    requires 1 <= items.Length <= MAX_PERMUTATION_ITEMS
    requires source.Valid() && ServesDown(source.prf, items.Length, source.consumed)
    modifies items, source
    ensures source.Valid()
    ensures source.consumed == DrawnEnd(source.prf, items.Length, old(source.consumed))
    ensures items[..] == SwapsBelow(old(items[..]), DrawnChoices(source.prf, items.Length, old(source.consumed)),
                                    items.Length)
  {
    ghost var choices := DrawnChoices(source.prf, items.Length, source.consumed);
    assert choices[..items.Length] == choices;
    var index := items.Length - 1;
    while index > 0
      invariant 0 <= index < items.Length
      invariant source.Valid() && ServesDown(source.prf, index + 1, source.consumed)
      invariant choices[..index + 1] == DrawnChoices(source.prf, index + 1, source.consumed)
      invariant DrawnEnd(source.prf, index + 1, source.consumed)
                == DrawnEnd(source.prf, items.Length, old(source.consumed))
      invariant SwapsBelow(items[..], choices, index + 1) == SwapsBelow(old(items[..]), choices, items.Length)
    {
      OneSwap(source.prf, choices, index, source.consumed, items[..]);
      SwapOnce(items, source, index);
      index := index - 1;
    }
  }

  /** One pass of the loop. */
  method SwapOnce(items: array<nat>, source: Stream, index: nat)
    requires 1 <= index < items.Length <= MAX_PERMUTATION_ITEMS
    requires source.Valid() && Serves(source.prf, index + 1, source.consumed)
    modifies items, source
    ensures source.Valid() && source.consumed == AfterSelection(source.prf, index + 1, old(source.consumed))
    ensures Selected(source.prf, index + 1, old(source.consumed)) <= index
    ensures items[..] == Swap(old(items[..]), index, Selected(source.prf, index + 1, old(source.consumed)))
  {
    var selected := Uniform(source, index + 1);
    Exchange(items, index, selected.value);
  }
}
