/** Bytes, fixed-width big-endian words and the optional value used across the model. */
module Bytes {
  const TWO_POW_32 := 0x1_0000_0000
  const TWO_POW_64 := 0x1_0000_0000_0000_0000

  newtype byte = x: int | 0 <= x < 0x100

  type uint64 = x: int | 0 <= x < 0x1_0000_0000_0000_0000

  datatype Option<+T> = None | Some(value: T)

  /** A 32-byte digest, seed or HMAC block. */
  type Block = s: seq<byte> | |s| == 32 witness seq(32, _ => 0)

  function ZeroBlock(): Block { seq(32, _ => 0 as byte) }

  /** `width` big-endian bytes of `value`, higher bits dropped as Go's PutUint32/PutUint64 conversions do. */
  function BigEndian(value: nat, width: nat): (s: seq<byte>)
    ensures |s| == width
  {
    if width == 0 then [] else BigEndian(value / 0x100, width - 1) + [(value % 0x100) as byte]
  }

  function FromBigEndian(s: seq<byte>): nat {
    if s == [] then 0 else FromBigEndian(s[..|s| - 1]) * 0x100 + s[|s| - 1] as nat
  }

  function Power256(width: nat): (p: nat)
    ensures p > 0
  {
    if width == 0 then 1 else 0x100 * Power256(width - 1)
  }

  lemma {:induction false} BigEndianRoundTrip(value: nat, width: nat)
    requires value < Power256(width)
    ensures FromBigEndian(BigEndian(value, width)) == value
  {
    if width > 0 {
      assert value / 0x100 < Power256(width - 1);
      BigEndianRoundTrip(value / 0x100, width - 1);
      var s := BigEndian(value, width);
      assert s[..|s| - 1] == BigEndian(value / 0x100, width - 1);
    }
  }

  lemma {:induction false} FromBigEndianBound(s: seq<byte>)
    ensures FromBigEndian(s) < Power256(|s|)
  {
    if s != [] {
      FromBigEndianBound(s[..|s| - 1]);
    }
  }

  lemma WidthBounds()
    ensures Power256(4) == TWO_POW_32
    ensures Power256(8) == TWO_POW_64
  {
    assert Power256(0) == 1;
    assert Power256(1) == 0x100;
    assert Power256(2) == 0x1_0000;
    assert Power256(3) == 0x100_0000;
    assert Power256(4) == 0x1_0000_0000;
    assert Power256(5) == 0x100_0000_0000;
    assert Power256(6) == 0x1_0000_0000_0000;
    assert Power256(7) == 0x100_0000_0000_0000;
  }

  /** Distinct values below the width's range have distinct encodings. */
  lemma {:induction false} BigEndianInjective(a: nat, b: nat, width: nat)
    requires a < Power256(width) && b < Power256(width)
    requires BigEndian(a, width) == BigEndian(b, width)
    ensures a == b
  {
    BigEndianRoundTrip(a, width);
    BigEndianRoundTrip(b, width);
  }
}
