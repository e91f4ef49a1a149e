/** How likely each answer of the sampler and of the shuffle is, over the words a stream may go on with, and what a
    stream's bytes are. */
module Uniformity {
  import opened Bytes
  import opened RandomStream
  import opened Sampling
  import opened Division
  import opened Shuffle

  // ------------------------------------------------------------------ the answer of one draw

  /** The answer is congruent to the first draw that is kept, and that draw is the last one consumed. */
  lemma AnswerIsFirstKept(prf: uint64 -> Block, bound: uint64, at: nat, k: nat)
    requires bound > 0 && Draw(prf, at, k) >= TWO_POW_64 % bound
    requires forall j :: 0 <= j < k ==> Draw(prf, at, j) < TWO_POW_64 % bound
    ensures Serves(prf, bound, at) && AfterSelection(prf, bound, at) == at + 8 * k + 8
    ensures Selected(prf, bound, at) < bound && Selected(prf, bound, at) == Draw(prf, at, k) % bound
  {
    ThresholdIsRemainder(bound);
    assert Accepted(bound, Draw(prf, at, k));
  }

  /** On every stream, from wherever this is its next word, the sampler answers `residue` and consumes nothing else. */
  ghost predicate AnswersAtOnce(bound: uint64, word: int, residue: nat) {
    forall prf: uint64 -> Block, at: nat :: Word(prf, at) == word ==>
      Serves(prf, bound, at) && Selected(prf, bound, at) == residue && AfterSelection(prf, bound, at) == at + 8
  }

  /** A stream that begins with this word. */
  function BeginningWith(word: uint64): (prf: uint64 -> Block)
  {
    (c: uint64) => BigEndian(word, 8) + seq(24, _ => 0 as byte)
  }

  lemma BeginsWith(word: uint64)
    ensures Word(BeginningWith(word), 0) == word
  {
    WidthBounds();
    BigEndianRoundTrip(word, 8);
    assert OutputRange(BeginningWith(word), 0, 8) == BigEndian(word, 8);
  }

  lemma KeptWordAnswers(bound: uint64, word: uint64)
    requires bound > 0 && word >= TWO_POW_64 % bound
    ensures AnswersAtOnce(bound, word, word % bound)
  {
    forall prf: uint64 -> Block, at: nat | Word(prf, at) == word
      ensures Serves(prf, bound, at) && Selected(prf, bound, at) == word % bound
              && AfterSelection(prf, bound, at) == at + 8
    {
      assert Draw(prf, at, 0) == word;
      AnswerIsFirstKept(prf, bound, at, 0);
    }
  }

  /** A word makes the sampler answer at once exactly when it is kept, and then it answers its residue. */
  lemma AnswersAtOnceIff(bound: uint64, word: uint64, residue: nat)
    requires bound > 0
    ensures AnswersAtOnce(bound, word, residue) <==> word >= TWO_POW_64 % bound && word % bound == residue
  {
    if AnswersAtOnce(bound, word, residue) {
      BeginsWith(word);
      var prf := BeginningWith(word);
      assert Word(prf, 0) == word;
      assert Serves(prf, bound, 0) && AfterSelection(prf, bound, 0) == 8;
      OneDrawIsKept(prf, bound, 0);
      KeptWordAnswers(bound, word);
      assert Selected(prf, bound, 0) == word % bound;
    } else if word >= TWO_POW_64 % bound && word % bound == residue {
      KeptWordAnswers(bound, word);
    }
  }

  /** If nothing is consumed but one word, that word was kept. */
  lemma OneDrawIsKept(prf: uint64 -> Block, bound: uint64, at: nat)
    requires bound > 0 && Serves(prf, bound, at) && AfterSelection(prf, bound, at) == at + 8
    ensures Word(prf, at) >= TWO_POW_64 % bound
  {
    ThresholdIsRemainder(bound);
    assert Draw(prf, at, 0) == Word(prf, at);
  }

  /** Exact uniformity of the operation: for each residue below the bound exactly floor(2^64 / bound) words make the
      sampler answer it at once, on whatever stream; so no answer is likelier than another. */
  lemma EveryAnswerEquallyLikely(bound: uint64, residue: nat)
    requires residue < bound
    ensures var words := set word: int | 0 <= word < TWO_POW_64 && AnswersAtOnce(bound, word, residue);
            |words| == TWO_POW_64 / bound
  {
    var words := set word: int | 0 <= word < TWO_POW_64 && AnswersAtOnce(bound, word, residue);
    ThresholdIsRemainder(bound);
    forall word: int | 0 <= word < TWO_POW_64
      ensures word in words <==> word in Candidates(bound, residue)
    {
      AnswersAtOnceIff(bound, word, residue);
    }
    assert words == Candidates(bound, residue);
    EveryResidueEquallyLikely(bound, residue);
  }

  // ------------------------------------------------------------------ the bytes of a stream

  /** The first blocks, one after the other. */
  function Blocks(prf: uint64 -> Block, count: nat): seq<byte>
    requires count <= TWO_POW_64
  {
    if count == 0 then [] else Blocks(prf, count - 1) + prf(count - 1)
  }

  /** What a stream gives from its beginning on are the blocks of the counters 0, 1, 2, ... in order. */
  lemma {:induction false} StreamIsItsBlocks(prf: uint64 -> Block, count: nat)
    requires count <= TWO_POW_64
    ensures OutputRange(prf, 0, 32 * count) == Blocks(prf, count)
  {
    if count > 0 {
      var n := count - 1;
      StreamIsItsBlocks(prf, n);
      assert OutputRange(prf, 0, 32 * count) == OutputRange(prf, 0, 32 * n) + OutputRange(prf, 32 * n, 32);
      forall i | 0 <= i < 32 ensures OutputRange(prf, 32 * n, 32)[i] == prf(n)[i] {
        QuotientUnique(32 * n + i, 32, n, i);
      }
      assert OutputRange(prf, 32 * n, 32) == prf(n);
    }
  }

  /** A word's bytes are the next eight of the stream, the highest first. */
  lemma WordIsBigEndian(prf: uint64 -> Block, at: nat)
    ensures BigEndian(Word(prf, at), 8) == OutputRange(prf, at, 8)
  {
    BytesOfNumber(OutputRange(prf, at, 8));
  }

  lemma {:induction false} BytesOfNumber(s: seq<byte>)
    ensures BigEndian(FromBigEndian(s), |s|) == s
  {
    if s != [] {
      var fewer, last := s[..|s| - 1], s[|s| - 1] as nat;
      BytesOfNumber(fewer);
      QuotientUnique(FromBigEndian(s), 0x100, FromBigEndian(fewer), last);
    }
  }

  // ------------------------------------------------------------------ the shuffle

  /** Picking from a pool: the last place gets the item chosen, the last item of the pool takes its place in it, and so
      on with the pool that is left. */
  function Picked(pool: seq<nat>, choices: seq<nat>): (t: seq<nat>)
    requires |pool| == |choices| && IsChoiceVector(choices)
    decreases |pool|
  {
    if pool == [] then []
    else
      var n := |pool| - 1;
      Picked(if choices[n] == n then pool[..n] else pool[..n][choices[n] := pool[n]], choices[..n]) + [pool[choices[n]]]
  }

  lemma {:induction false} SwapsArePicks(s: seq<nat>, choices: seq<nat>, k: nat)
    requires k <= |s| == |choices| && IsChoiceVector(choices)
    ensures SwapsBelow(s, choices, k)[..k] == Picked(s[..k], choices[..k])
    decreases k
  {
    if k == 1 {
      assert choices[0] == 0 && s[..1] == [s[0]];
    } else if k > 1 {
      var n, i := k - 1, choices[k - 1];
      var s' := Swap(s, n, i);
      SwapsArePicks(s', choices, n);
      LastPlaced(s, choices, k);
      var t := SwapsBelow(s, choices, k);
      assert t[..k] == t[..n] + [t[n]];
      assert s'[..n] == if i == n then s[..k][..n] else s[..k][..n][i := s[n]];
      assert choices[..k][..n] == choices[..n];
    }
  }

  /** Shuffling 0 to n-1 is picking all of them from the pool. */
  lemma ShufflingIsPicking(choices: seq<nat>)
    requires IsChoiceVector(choices)
    ensures Shuffled(choices) == Picked(Identity(|choices|), choices)
  {
    SwapsArePicks(Identity(|choices|), choices, |choices|);
    assert Identity(|choices|)[..|choices|] == Identity(|choices|) && choices[..|choices|] == choices;
    assert Shuffled(choices)[..|choices|] == Shuffled(choices);
  }

  /** From byte `at` on the stream gives these words. */
  predicate Reads(prf: uint64 -> Block, at: nat, words: seq<int>) {
    forall i :: 0 <= i < |words| ==> Word(prf, at + 8 * i) == words[i]
  }

  /** The words that draw exactly these choices, for the last index first, none of them drawn again. */
  ghost function Drawing(c: seq<nat>): set<seq<int>>
    requires IsChoiceVector(c) && |c| <= MAX_PERMUTATION_ITEMS
  {
    if |c| <= 1 then {[]}
    else Pairs(Candidates(|c|, c[|c| - 1]), Drawing(c[..|c| - 1]))
  }

  /** The product of floor(2^64 / i) for i from 2 to n. */
  function Ways(n: nat): nat {
    if n <= 1 then 1 else TWO_POW_64 / n * Ways(n - 1)
  }

  /** The pairs of a first word and the rest, written one after the other. */
  ghost function Pairs(firsts: set<int>, rests: set<seq<int>>): set<seq<int>> {
    set w, rest | w in firsts && rest in rests :: [w] + rest
  }

  lemma {:induction false} PairsCount(firsts: set<int>, rests: set<seq<int>>)
    ensures |Pairs(firsts, rests)| == |firsts| * |rests|
    decreases |firsts|
  {
    if |firsts| == 0 {
      assert Pairs(firsts, rests) == {};
    } else {
      var w := SomeElement(firsts);
      var fewer := firsts - {w};
      assert |fewer| == |firsts| - 1;
      PairsCount(fewer, rests);
      PrependCount(w, rests);
      OneMoreFirst(firsts, rests, w);
      SumOfOneMore(|firsts|, |rests|);
    }
  }

  lemma SomeElement<T>(s: set<T>) returns (x: T)
    requires |s| > 0
    ensures x in s
  {
    x :| x in s;
  }

  lemma SumOfOneMore(firsts: nat, rests: nat)
    requires firsts > 0
    ensures rests + (firsts - 1) * rests == firsts * rests
  {
  }

  lemma OneMoreFirst(firsts: set<int>, rests: set<seq<int>>, w: int)
    requires w in firsts
    ensures var with := set rest | rest in rests :: [w] + rest;
            Pairs(firsts, rests) == with + Pairs(firsts - {w}, rests) && with !! Pairs(firsts - {w}, rests)
  {
    forall v, rest | v in firsts - {w} && rest in rests ensures ([v] + rest)[0] != w {
    }
  }

  lemma {:induction false} PrependCount(w: int, rests: set<seq<int>>)
    ensures |set rest | rest in rests :: [w] + rest| == |rests|
    decreases rests
  {
    var with := set rest | rest in rests :: [w] + rest;
    if rests == {} {
      assert with == {};
    } else {
      var r :| r in rests;
      PrependCount(w, rests - {r});
      var fewer := set rest | rest in rests - {r} :: [w] + rest;
      forall rest | rest in rests - {r} ensures [w] + rest != [w] + r {
        assert ([w] + rest)[1..] == rest && ([w] + r)[1..] == r;
      }
      assert with == fewer + {[w] + r};
    }
  }

  lemma {:induction false} DrawingCount(c: seq<nat>)
    requires IsChoiceVector(c) && |c| <= MAX_PERMUTATION_ITEMS
    ensures |Drawing(c)| == Ways(|c|)
  {
    if |c| > 1 {
      var n := |c| - 1;
      DrawingCount(c[..n]);
      EveryResidueEquallyLikely(|c|, c[n]);
      PairsCount(Candidates(|c|, c[n]), Drawing(c[..n]));
      assert |Drawing(c)| == TWO_POW_64 / |c| * Ways(n);
    }
  }

  /** The draws for indexes n-1 down to 1 give these choices, and none of them is made again. */
  ghost predicate DrawsAtOnce(prf: uint64 -> Block, at: nat, c: seq<nat>)
    requires |c| <= MAX_PERMUTATION_ITEMS
  {
    && ServesDown(prf, |c|, at) && DrawnChoices(prf, |c|, at) == c
    && DrawnEnd(prf, |c|, at) == if c == [] then at else at + 8 * (|c| - 1)
  }

  lemma {:induction false} DrawnEndIsFar(prf: uint64 -> Block, n: nat, at: nat)
    requires 1 <= n <= MAX_PERMUTATION_ITEMS && ServesDown(prf, n, at)
    ensures DrawnEnd(prf, n, at) >= at + 8 * (n - 1)
    decreases n
  {
    if n > 1 {
      DrawnEndIsFar(prf, n - 1, AfterSelection(prf, n, at));
    }
  }

  /** A stream draws these choices at once exactly when its next words are among those that do. */
  lemma {:induction false} DrawsAtOnceIff(prf: uint64 -> Block, at: nat, c: seq<nat>, words: seq<int>)
    requires IsChoiceVector(c) && 1 <= |c| <= MAX_PERMUTATION_ITEMS
    requires |words| == |c| - 1 && Reads(prf, at, words)
    ensures words in Drawing(c) <==> DrawsAtOnce(prf, at, c)
    decreases |c|
  {
    var n := |c| - 1;
    if n == 0 {
      OneItemDrawsNothing(prf, at, c);
      assert words == [];
    } else {
      var w, rest, fewer := words[0], words[1..], c[..n];
      assert words == [w] + rest;
      ReadsOn(prf, at, words);
      DrawsAtOnceIff(prf, at + 8, fewer, rest);
      FirstOfDrawing(c, w, rest);
      if w in Candidates(|c|, c[n]) && DrawsAtOnce(prf, at + 8, fewer) {
        FirstThenRest(prf, at, c, w);
      }
      if DrawsAtOnce(prf, at, c) {
        AtOnceDrawsFirst(prf, at, c);
      }
    }
  }

  lemma ReadsOn(prf: uint64 -> Block, at: nat, words: seq<int>)
    requires words != [] && Reads(prf, at, words)
    ensures Word(prf, at) == words[0] && Reads(prf, at + 8, words[1..])
  {
    assert Word(prf, at + 8 * 0) == words[0];
    forall i | 0 <= i < |words[1..]| ensures Word(prf, at + 8 + 8 * i) == words[1..][i] {
      assert Word(prf, at + 8 * (i + 1)) == words[i + 1];
    }
  }

  lemma OneItemDrawsNothing(prf: uint64 -> Block, at: nat, c: seq<nat>)
    requires IsChoiceVector(c) && |c| == 1
    ensures Drawing(c) == {[]} && DrawsAtOnce(prf, at, c)
  {
    assert DrawnChoices(prf, 1, at) == c;
  }

  lemma FirstThenRest(prf: uint64 -> Block, at: nat, c: seq<nat>, w: int)
    requires IsChoiceVector(c) && 2 <= |c| <= MAX_PERMUTATION_ITEMS && Word(prf, at) == w
    requires w in Candidates(|c|, c[|c| - 1]) && DrawsAtOnce(prf, at + 8, c[..|c| - 1])
    ensures DrawsAtOnce(prf, at, c)
  {
    KeptWordDraws(prf, at, c, w);
    assert c == c[..|c| - 1] + [c[|c| - 1]];
  }

  lemma FirstOfDrawing(c: seq<nat>, w: int, rest: seq<int>)
    requires IsChoiceVector(c) && 2 <= |c| <= MAX_PERMUTATION_ITEMS
    ensures [w] + rest in Drawing(c)
            <==> w in Candidates(|c|, c[|c| - 1]) && rest in Drawing(c[..|c| - 1])
  {
    if [w] + rest in Drawing(c) {
      var v, more :| v in Candidates(|c|, c[|c| - 1]) && more in Drawing(c[..|c| - 1]) && [v] + more == [w] + rest;
      assert ([v] + more)[0] == v && ([v] + more)[1..] == more;
      assert ([w] + rest)[0] == w && ([w] + rest)[1..] == rest;
    }
  }

  lemma KeptWordDraws(prf: uint64 -> Block, at: nat, c: seq<nat>, w: int)
    requires IsChoiceVector(c) && 2 <= |c| <= MAX_PERMUTATION_ITEMS && Word(prf, at) == w
    requires w in Candidates(|c|, c[|c| - 1])
    ensures Serves(prf, |c|, at) && Selected(prf, |c|, at) == c[|c| - 1] && AfterSelection(prf, |c|, at) == at + 8
  {
    ThresholdIsRemainder(|c|);
    KeptWordAnswers(|c|, w);
  }

  lemma AtOnceDrawsFirst(prf: uint64 -> Block, at: nat, c: seq<nat>)
    requires IsChoiceVector(c) && 2 <= |c| <= MAX_PERMUTATION_ITEMS && DrawsAtOnce(prf, at, c)
    ensures Word(prf, at) in Candidates(|c|, c[|c| - 1]) && DrawsAtOnce(prf, at + 8, c[..|c| - 1])
  {
    var n := |c| - 1;
    var next := AfterSelection(prf, |c|, at);
    DrawnEndIsFar(prf, n, next);
    assert next == at + 8;
    OneDrawIsKept(prf, |c|, at);
    ThresholdIsRemainder(|c|);
    KeptWordAnswers(|c|, Word(prf, at));
    assert DrawnChoices(prf, |c|, at)[n] == c[n];
    assert DrawnChoices(prf, |c|, at)[..n] == c[..n];
  }

  /** The shuffle is unbiased: for each permutation the same number of words, the product of floor(2^64 / i), make it
      the outcome of the shuffle without any draw being made again, and on whatever stream they come. */
  lemma EveryPermutationEquallyLikely(p: seq<nat>)
    requires IsPermutation(p) && 1 <= |p| <= MAX_PERMUTATION_ITEMS
    ensures |Drawing(ChoicesOf(p))| == Ways(|p|)
    ensures forall prf: uint64 -> Block, at: nat, words: seq<int> :: |words| == |p| - 1 && Reads(prf, at, words) ==>
      (words in Drawing(ChoicesOf(p))
       <==> && ServesDown(prf, |p|, at) && DrawnEnd(prf, |p|, at) == at + 8 * (|p| - 1)
            && Shuffled(DrawnChoices(prf, |p|, at)) == p)
  {
    var c := ChoicesOf(p);
    DrawingCount(c);
    ShuffleReachesEveryPermutation(p);
    forall prf: uint64 -> Block, at: nat, words: seq<int> | |words| == |p| - 1 && Reads(prf, at, words)
      ensures words in Drawing(c)
              <==> && ServesDown(prf, |p|, at) && DrawnEnd(prf, |p|, at) == at + 8 * (|p| - 1)
                   && Shuffled(DrawnChoices(prf, |p|, at)) == p
    {
      DrawsAtOnceIff(prf, at, c, words);
      if ServesDown(prf, |p|, at) && Shuffled(DrawnChoices(prf, |p|, at)) == p {
        ShuffleIsInjective(DrawnChoices(prf, |p|, at), c);
      }
    }
  }
}
