/** Rejection sampling below a bound: which 64-bit candidates are kept, and how many give each residue. */
module Sampling {
  import opened Bytes
  import opened Division
  import opened RandomStream

  /** (uint64(0) - bound) % bound, the subtraction wrapping. */
  function Threshold(bound: uint64): (t: uint64)
    requires bound > 0
  {
    ((0 - bound + TWO_POW_64) % TWO_POW_64) % bound
  }

  predicate Accepted(bound: uint64, candidate: uint64)
    requires bound > 0
  {
    candidate >= Threshold(bound)
  }

  lemma ThresholdIsRemainder(bound: uint64)
    requires bound > 0
    ensures Threshold(bound) == TWO_POW_64 % bound
    ensures TWO_POW_64 == TWO_POW_64 / bound * bound + Threshold(bound)
    ensures Threshold(bound) * 2 < TWO_POW_64
  {
    var q, t := TWO_POW_64 / bound, TWO_POW_64 % bound;
    MultipleIsFar(q, bound);
    assert TWO_POW_64 - bound == (q - 1) * bound + t;
    QuotientUnique(TWO_POW_64 - bound, bound, q - 1, t);
  }

  /** The candidates that are kept and reduce to `residue`. */
  ghost function Candidates(bound: uint64, residue: nat): set<int>
    requires bound > 0
  {
    set c: int | Threshold(bound) <= c < TWO_POW_64 && c % bound == residue
  }

  ghost function Window(bound: nat, residue: nat, from: nat, turns: nat): set<int>
    requires bound > 0
  {
    set c: int | from <= c < from + turns * bound && c % bound == residue
  }

  /** The only number in a window of `bound` consecutive ones with the given residue. */
  function Representative(bound: nat, residue: nat, from: nat): (c: nat)
    requires residue < bound
    ensures from <= c < from + bound && c % bound == residue
  {
    var shift := (residue - from % bound) % bound;
    assert (from + shift) % bound == residue by {
      var d := residue - from % bound;
      var q := from / bound;
      if d >= 0 {
        QuotientUnique(d, bound, 0, d);
        QuotientUnique(from + d, bound, q, residue);
      } else {
        QuotientUnique(d, bound, -1, d + bound);
        assert from + d + bound == (q + 1) * bound + residue;
        QuotientUnique(from + d + bound, bound, q + 1, residue);
      }
    }
    from + shift
  }

  lemma OneRepresentative(bound: nat, residue: nat, from: nat, c: int)
    requires residue < bound && from <= c < from + bound && c % bound == residue
    ensures c == Representative(bound, residue, from)
  {
    var d := Representative(bound, residue, from);
    assert c == c / bound * bound + residue && d == d / bound * bound + residue;
    Distribute(c / bound, d / bound, bound);
    MultipleIsFar(c / bound - d / bound, bound);
  }

  lemma {:induction false} WindowCount(bound: nat, residue: nat, from: nat, turns: nat)
    requires residue < bound
    ensures |Window(bound, residue, from, turns)| == turns
  {
    var w := Window(bound, residue, from, turns);
    if turns == 0 {
      assert w == {};
    } else {
      var next := from + (turns - 1) * bound;
      assert from + turns * bound == next + bound;
      var inner := Window(bound, residue, from, turns - 1);
      var last := Representative(bound, residue, next);
      WindowCount(bound, residue, from, turns - 1);
      assert 0 <= (turns - 1) * bound;
      assert w == inner + {last} by {
        forall c | c in w ensures c in inner + {last} {
          if c >= next { OneRepresentative(bound, residue, next, c); }
        }
      }
      assert last !in inner;
    }
  }

  /** Exact uniformity: every residue is the image of the same number of kept candidates. */
  lemma EveryResidueEquallyLikely(bound: uint64, residue: nat)
    requires residue < bound
    ensures |Candidates(bound, residue)| == TWO_POW_64 / bound
  {
    ThresholdIsRemainder(bound);
    WindowCount(bound, residue, Threshold(bound), TWO_POW_64 / bound);
    assert Candidates(bound, residue) == Window(bound, residue, Threshold(bound), TWO_POW_64 / bound);
  }

  /** Fewer than half of all candidates are drawn again. */
  lemma RejectedAreAMinority(bound: uint64)
    requires bound > 0
    ensures var rejected := set c: int | 0 <= c < TWO_POW_64 && !Accepted(bound, c);
            |rejected| == TWO_POW_64 % bound && |rejected| * 2 < TWO_POW_64
  {
    ThresholdIsRemainder(bound);
    var t := Threshold(bound);
    WindowCount(1, 0, 0, t);
    assert (set c: int | 0 <= c < TWO_POW_64 && !Accepted(bound, c)) == Window(1, 0, 0, t);
  }

  /** Draw number `k` from byte `at` of a stream. */
  function Draw(prf: uint64 -> Block, at: nat, k: nat): uint64 {
    Word(prf, at + 8 * k)
  }

  /** From byte `at` on, some draw is kept: what the sampling loop needs in order to stop. */
  ghost predicate Serves(prf: uint64 -> Block, bound: uint64, at: nat) {
    bound > 0 && exists k: nat :: Accepted(bound, Draw(prf, at, k))
  }

  /** How many draws from `at` are thrown away before the first that is kept. */
  ghost function Rejections(prf: uint64 -> Block, bound: uint64, at: nat): (k: nat)
    requires Serves(prf, bound, at)
    ensures Accepted(bound, Draw(prf, at, k))
    ensures forall j :: 0 <= j < k ==> !Accepted(bound, Draw(prf, at, j))
  {
    var k: nat :| Accepted(bound, Draw(prf, at, k));
    LeastAccepted(prf, bound, at, k);
    var least: nat :| Accepted(bound, Draw(prf, at, least))
                      && forall j :: 0 <= j < least ==> !Accepted(bound, Draw(prf, at, j));
    least
  }

  lemma {:induction false} LeastAccepted(prf: uint64 -> Block, bound: uint64, at: nat, k: nat)
    requires bound > 0 && Accepted(bound, Draw(prf, at, k))
    ensures exists least: nat :: Accepted(bound, Draw(prf, at, least))
                                 && forall j :: 0 <= j < least ==> !Accepted(bound, Draw(prf, at, j))
  {
    if j :| 0 <= j < k && Accepted(bound, Draw(prf, at, j)) {
      LeastAccepted(prf, bound, at, j);
    }
  }

  ghost function Selected(prf: uint64 -> Block, bound: uint64, at: nat): (v: nat)
    requires Serves(prf, bound, at)
    ensures v < bound
  {
    Draw(prf, at, Rejections(prf, bound, at)) % bound
  }

  ghost function AfterSelection(prf: uint64 -> Block, bound: uint64, at: nat): nat
    requires Serves(prf, bound, at)
  {
    at + 8 * (Rejections(prf, bound, at) + 1)
  }

  /** The loop returns the first kept draw reduced, and consumes exactly the draws up to it. */
  method Uniform(source: Stream, bound: uint64) returns (r: Option<uint64>)
    requires source.Valid()
    requires bound > 0 ==> Serves(source.prf, bound, source.consumed)
    modifies source
    ensures source.Valid()
    ensures r.None? <==> bound == 0
    ensures bound == 0 ==> source.consumed == old(source.consumed)
    ensures bound > 0 ==> r.value == Selected(source.prf, bound, old(source.consumed))
    ensures bound > 0 ==> source.consumed == AfterSelection(source.prf, bound, old(source.consumed))
  {
    if bound == 0 {
      return None;
    }
    ghost var k, last := 0, Rejections(source.prf, bound, source.consumed);
    var threshold := ((0 - bound + TWO_POW_64) % TWO_POW_64) % bound;
    while true
      invariant source.Valid() && source.consumed == old(source.consumed) + 8 * k
      invariant k <= last
      decreases last - k
    {
      var candidate := source.Uint64();
      assert candidate == Draw(source.prf, old(source.consumed), k);
      if candidate >= threshold {
        return Some(candidate % bound);
      }
      k := k + 1;
    }
  }
}
