/** The HMAC-counter byte stream. The HMAC itself is an arbitrary function from a key and a
    counter to a 32-byte block. */
module RandomStream {
  import opened Bytes

  /** Byte `k` of the stream: byte k mod 32 of block k div 32, the block counter being a uint64. */
  function Output(prf: uint64 -> Block, k: nat): byte {
    prf((k / 32) % TWO_POW_64)[k % 32]
  }

  function OutputRange(prf: uint64 -> Block, from: nat, count: nat): (s: seq<byte>)
    ensures |s| == count
  {
    seq(count, i requires 0 <= i < count => Output(prf, from + i))
  }

  function Sum(sizes: seq<nat>): nat {
    if sizes == [] then 0 else sizes[0] + Sum(sizes[1..])
  }

  /** What successive reads of the given sizes return, joined. */
  function Chunks(prf: uint64 -> Block, from: nat, sizes: seq<nat>): seq<byte>
    decreases |sizes|
  {
    if sizes == [] then []
    else OutputRange(prf, from, sizes[0]) + Chunks(prf, from + sizes[0], sizes[1..])
  }

  /** However a caller splits its reads, it sees the bytes of one long read. */
  lemma {:induction false} ReadsAreChunkIndependent(prf: uint64 -> Block, from: nat, sizes: seq<nat>)
    ensures Chunks(prf, from, sizes) == OutputRange(prf, from, Sum(sizes))
    decreases |sizes|
  {
    if sizes != [] {
      ReadsAreChunkIndependent(prf, from + sizes[0], sizes[1..]);
    }
  }

  class Stream {
    const prf: uint64 -> Block
    var counter: uint64
    var block: Block
    var offset: nat
    /** Number of bytes handed out so far. */
    ghost var consumed: nat

    ghost predicate Valid()
      reads this
    {
      && offset <= 32
      && (offset == 32 ==> consumed % 32 == 0 && counter == (consumed / 32) % TWO_POW_64)
      && (offset < 32 ==>
            && offset == consumed % 32
            && block == prf((consumed / 32) % TWO_POW_64)
            && counter == (consumed / 32 + 1) % TWO_POW_64)
    }

    constructor (prf: uint64 -> Block)
      ensures Valid() && consumed == 0 && this.prf == prf
    {
      this.prf := prf;
      counter, block, offset, consumed := 0, ZeroBlock(), 32, 0;
    }

    /** A zero seed is refused. */
    static method New(hmac: (Block, uint64) -> Block, seed: Block) returns (stream: Option<Stream>)
      ensures stream.None? <==> seed == ZeroBlock()
      ensures stream.Some? ==>
                && fresh(stream.value) && stream.value.Valid() && stream.value.consumed == 0
                && forall c: uint64 :: stream.value.prf(c) == hmac(seed, c)
    {
      if seed == ZeroBlock() {
        return None;
      }
      var s := new Stream((c: uint64) => hmac(seed, c));
      return Some(s);
    }

    method Fill()
      requires Valid() && offset == 32
      modifies this
      ensures Valid() && offset == 0 && consumed == old(consumed)
    {
      block := prf(counter);
      counter := (counter + 1) % TWO_POW_64;
      offset := 0;
    }

    /** Takes the next bytes of the current block, as many as fit, and moves the offset. */
    method CopyFromBlock(target: array<byte>, written: nat) returns (count: nat)
      requires Valid() && offset < 32 && written < target.Length
      modifies this, target
      ensures Valid() && 0 < count && written + count <= target.Length
      ensures consumed == old(consumed) + count
      ensures target[..written + count] == old(target[..written]) + OutputRange(prf, old(consumed), count)
    {
      count := Copy(target, written, block[offset..]);
      BlockBytes(prf, consumed);
      WithinBlock(consumed, count - 1);
      assert block[offset..][..count] == OutputRange(prf, consumed, count);
      offset := offset + count;
      consumed := consumed + count;
    }

    method Read(target: array<byte>) returns (written: nat)
      requires Valid()
      modifies this, target
      ensures Valid() && written == target.Length
      ensures consumed == old(consumed) + target.Length
      ensures target[..] == OutputRange(prf, old(consumed), target.Length)
    {
      written := 0;
      while written < target.Length
        invariant written <= target.Length
        invariant Valid() && consumed == old(consumed) + written
        invariant target[..written] == OutputRange(prf, old(consumed), written)
      {
        if offset >= 32 {
          Fill();
        }
        var count := CopyFromBlock(target, written);
        assert OutputRange(prf, old(consumed), written) + OutputRange(prf, old(consumed) + written, count)
            == OutputRange(prf, old(consumed), written + count);
        written := written + count;
      }
      assert target[..] == target[..written];
    }

    method Uint64() returns (v: uint64)
      requires Valid()
      modifies this
      ensures Valid() && consumed == old(consumed) + 8
      ensures v == Word(prf, old(consumed))
    {
      var encoded := new byte[8];
      var n := Read(encoded);
      FromBigEndianBound(encoded[..]);
      WidthBounds();
      v := FromBigEndian(encoded[..]);
    }
  }

  /** Go's `copy(target[written:], source)`. */
  method Copy(target: array<byte>, written: nat, source: seq<byte>) returns (count: nat)
    requires written <= target.Length
    modifies target
    ensures count == if target.Length - written < |source| then target.Length - written else |source|
    ensures target[..written + count] == old(target[..written]) + source[..count]
  {
    count := if target.Length - written < |source| then target.Length - written else |source|;
    forall j | written <= j < written + count {
      target[j] := source[j - written];
    }
  }

  /** The 64-bit big-endian candidate that starts at byte `at`. */
  function Word(prf: uint64 -> Block, at: nat): (v: uint64)
  {
    FromBigEndianBound(OutputRange(prf, at, 8));
    WidthBounds();
    FromBigEndian(OutputRange(prf, at, 8))
  }

  /** The rest of the current block is the next stretch of output. */
  lemma BlockBytes(prf: uint64 -> Block, consumed: nat)
    ensures var block, offset := prf((consumed / 32) % TWO_POW_64), consumed % 32;
            forall j :: offset <= j < 32 ==> block[j] == Output(prf, consumed - offset + j)
  {
    var offset := consumed % 32;
    forall j | offset <= j < 32
      ensures prf((consumed / 32) % TWO_POW_64)[j] == Output(prf, consumed - offset + j)
    {
      WithinBlock(consumed, j - offset);
    }
  }

  lemma WithinBlock(consumed: nat, j: nat)
    requires consumed % 32 + j < 32
    ensures (consumed + j) / 32 == consumed / 32
    ensures (consumed + j) % 32 == consumed % 32 + j
  {
  }
}
