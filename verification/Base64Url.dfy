/** Unpadded base64url with the canonical-form check (RFC 4648, sections 3.5 and 5). */
module Base64Url {
  import opened Bytes
  import opened Division

  const UPPER := "ABCDEFGHIJKLM" + "NOPQRSTUVWXYZ"
  const LOWER := "abcdefghijklm" + "nopqrstuvwxyz"
  const ALPHABET := UPPER + LOWER + "0123456789" + "-_"

  type sextet = x: int | 0 <= x < 64

  /** The regular expression's character class. */
  predicate IsSymbol(c: char) {
    'A' <= c <= 'Z' || 'a' <= c <= 'z' || '0' <= c <= '9' || c == '-' || c == '_'
  }

  function Symbol(d: sextet): (c: char)
    ensures IsSymbol(c)
  {
    if d < 26 then 'A' + d as char
    else if d < 52 then 'a' + (d - 26) as char
    else if d < 62 then '0' + (d - 52) as char
    else if d == 62 then '-' else '_'
  }

  function Digit(c: char): (d: sextet)
    requires IsSymbol(c)
    ensures Symbol(d) == c
  {
    if 'A' <= c <= 'Z' then (c - 'A') as int
    else if 'a' <= c <= 'z' then (c - 'a') as int + 26
    else if '0' <= c <= '9' then (c - '0') as int + 52
    else if c == '-' then 62 else 63
  }

  lemma SymbolsDiffer(d: sextet)
    ensures Digit(Symbol(d)) == d
  {
  }

  lemma LettersInOrder(i: nat)
    requires i < 26
    ensures |UPPER| == 26 && UPPER[i] == 'A' + i as char
    ensures |LOWER| == 26 && LOWER[i] == 'a' + i as char
  {
    if i < 13 {
      assert UPPER[i] == "ABCDEFGHIJKLM"[i];
      assert LOWER[i] == "abcdefghijklm"[i];
    } else {
      assert UPPER[i] == "NOPQRSTUVWXYZ"[i - 13];
      assert LOWER[i] == "nopqrstuvwxyz"[i - 13];
    }
  }

  lemma AlphabetIsSymbols(d: sextet)
    ensures |ALPHABET| == 64 && ALPHABET[d] == Symbol(d)
  {
    LettersInOrder(if d < 26 then d else if d < 52 then d - 26 else 0);
    if d < 26 {
      assert ALPHABET[d] == UPPER[d];
    } else if d < 52 {
      assert ALPHABET[d] == LOWER[d - 26];
    } else {
      assert ALPHABET[d] == ("0123456789" + "-_")[d - 52];
    }
  }

  /** String.prototype.indexOf for one character. */
  function IndexOf(s: string, c: char): (i: int)
    ensures -1 <= i < |s|
    ensures i >= 0 ==> s[i] == c
    ensures i < 0 ==> c !in s
  {
    if s == "" then -1
    else if s[0] == c then 0
    else
      var i := IndexOf(s[1..], c);
      if i < 0 then -1 else i + 1
  }

  lemma {:induction false} IndexOfSymbol(c: char)
    ensures IndexOf(ALPHABET, c) >= 0 <==> IsSymbol(c)
    ensures IsSymbol(c) ==> IndexOf(ALPHABET, c) == Digit(c)
  {
    var i := IndexOf(ALPHABET, c);
    if i >= 0 {
      AlphabetIsSymbols(i);
      SymbolsDiffer(i);
    }
    if IsSymbol(c) {
      AlphabetIsSymbols(Digit(c));
      assert c in ALPHABET;
    }
  }

  // ------------------------------------------------------------------ reference definition

  function At(b: seq<byte>, i: nat): (v: nat)
    ensures v < 256
  {
    if i < |b| then b[i] as nat else 0
  }

  /** The four groups of six bits in bytes 3q, 3q+1 and 3q+2. */
  function SextetIn(b: seq<byte>, q: nat, r: nat): sextet {
    if r == 0 then At(b, 3 * q) / 4
    else if r == 1 then At(b, 3 * q) % 4 * 16 + At(b, 3 * q + 1) / 16
    else if r == 2 then At(b, 3 * q + 1) % 16 * 4 + At(b, 3 * q + 2) / 64
    else At(b, 3 * q + 2) % 64
  }

  /** The k-th six bits of the bytes, missing bits being zero. */
  function SextetAt(b: seq<byte>, k: nat): sextet {
    SextetIn(b, k / 4, k % 4)
  }

  function Sextets(b: seq<byte>): (d: seq<sextet>)
    ensures |d| == (4 * |b| + 2) / 3
  {
    seq((4 * |b| + 2) / 3, k requires 0 <= k => SextetAt(b, k))
  }

  function Encoded(b: seq<byte>): (s: string)
    ensures |s| == (4 * |b| + 2) / 3
  {
    var d := Sextets(b);
    seq(|d|, k requires 0 <= k < |d| => Symbol(d[k]))
  }

  /** The three groups of eight bits in digits 4q to 4q+3. */
  function OctetIn(d: seq<sextet>, q: nat, r: nat): byte
    requires r < 3 && 4 * q + r + 1 < |d|
  {
    var x: int, y: int := d[4 * q + r], d[4 * q + r + 1];
    (if r == 0 then x * 4 + y / 16 else if r == 1 then x % 16 * 16 + y / 4 else x % 4 * 64 + y) as byte
  }

  /** The j-th eight bits of the digits. */
  function OctetAt(d: seq<sextet>, j: nat): byte
    requires 8 * j + 8 <= 6 * |d|
  {
    OctetIn(d, j / 3, j % 3)
  }

  /** All whole bytes of the digits; leftover bits are dropped. */
  function Octets(d: seq<sextet>): (b: seq<byte>)
    ensures |b| == |d| * 6 / 8
  {
    seq(|d| * 6 / 8, j requires 0 <= j < |d| * 6 / 8 => OctetAt(d, j))
  }

  lemma OctetsUndoSextets(b: seq<byte>)
    ensures Octets(Sextets(b)) == b
  {
    forall j | 0 <= j < |b| ensures OctetAt(Sextets(b), j) == b[j] {
      OctetUndone(b, j / 3, j % 3);
    }
  }

  lemma OctetUndone(b: seq<byte>, q: nat, r: nat)
    requires r < 3 && 3 * q + r < |b|
    ensures 4 * q + r + 1 < |Sextets(b)|
    ensures OctetIn(Sextets(b), q, r) == b[3 * q + r]
  {
    SextetsOfGroup(b, q, r);
    SextetsOfGroup(b, q, r + 1);
    OctetOfGroup(b, q, r);
  }

  lemma OctetOfGroup(b: seq<byte>, q: nat, r: nat)
    requires r < 3 && 3 * q + r < |b| && 4 * q + r + 1 < |Sextets(b)|
    requires Sextets(b)[4 * q + r] == SextetIn(b, q, r) && Sextets(b)[4 * q + r + 1] == SextetIn(b, q, r + 1)
    ensures OctetIn(Sextets(b), q, r) == b[3 * q + r]
  {
    BitsRejoin(At(b, 3 * q), At(b, 3 * q + 1), At(b, 3 * q + 2));
    if r == 0 {
    } else if r == 1 {
    } else {
    }
  }

  lemma SextetsOfGroup(b: seq<byte>, q: nat, r: nat)
    requires r < 4
    ensures SextetAt(b, 4 * q + r) == SextetIn(b, q, r)
    ensures 4 * q + r < |Sextets(b)| ==> Sextets(b)[4 * q + r] == SextetIn(b, q, r)
  {
    AddMultiple(r, q, 4);
  }

  lemma BitsRejoin(x: nat, y: nat, z: nat)
    requires x < 256 && y < 256 && z < 256
    ensures x / 4 * 4 + (x % 4 * 16 + y / 16) / 16 == x
    ensures (x % 4 * 16 + y / 16) % 16 * 16 + (y % 16 * 4 + z / 64) / 4 == y
    ensures (y % 16 * 4 + z / 64) % 4 * 64 + z % 64 == z
  {
  }

  function Digits(s: string): (d: seq<sextet>)
    requires forall c :: c in s ==> IsSymbol(c)
    ensures |d| == |s|
  {
    seq(|s|, k requires 0 <= k < |s| => Digit(s[k]))
  }

  lemma EncodedIsSymbols(b: seq<byte>)
    ensures forall c :: c in Encoded(b) ==> IsSymbol(c)
    ensures Digits(Encoded(b)) == Sextets(b)
    ensures |Encoded(b)| % 4 != 1
    ensures Encoded(b) == "" <==> b == []
  {
    var d := Sextets(b);
    forall k | 0 <= k < |d| ensures Digit(Encoded(b)[k]) == d[k] {
      SymbolsDiffer(d[k]);
    }
  }

  /** Distinct byte strings have distinct encodings. */
  lemma EncodingIsInjective(a: seq<byte>, b: seq<byte>)
    requires Encoded(a) == Encoded(b)
    ensures a == b
  {
    EncodedIsSymbols(a);
    EncodedIsSymbols(b);
    OctetsUndoSextets(a);
    OctetsUndoSextets(b);
  }

  // ------------------------------------------------------------------ the accumulator

  function ToInt32(x: int): int {
    (x + 0x8000_0000) % TWO_POW_32 - 0x8000_0000
  }

  /** The number of buffered bits that have not been output. */
  type leftover = x: int | 0 <= x < 8

  function Power2(bits: leftover): (p: nat)
    ensures p > 0
  {
    [1, 2, 4, 8, 16, 32, 64, 128][bits]
  }

  /** (buffer >>> bits) & 0xff; the shift first reads the buffer as unsigned 32 bits. */
  function ShiftedByte(buffer: int, bits: leftover): byte {
    (buffer % TWO_POW_32 / Power2(bits) % 0x100) as byte
  }

  datatype Accumulator = Accumulator(buffer: int, bits: leftover, output: seq<byte>)

  const EMPTY := Accumulator(0, 0, [])

  /** One digit into the signed 32-bit buffer, which is never masked. The low six bits are clear after
      the shift, so `|` adds. */
  function Feed32(a: Accumulator, d: sextet): Accumulator {
    var buffer, bits := ToInt32(a.buffer * 64) + d, a.bits + 6;
    if bits >= 8 then Accumulator(buffer, bits - 8, a.output + [ShiftedByte(buffer, bits - 8)])
    else Accumulator(buffer, bits, a.output)
  }

  function Run32(d: seq<sextet>): Accumulator {
    if d == [] then EMPTY else Feed32(Run32(d[..|d| - 1]), d[|d| - 1])
  }

  /** The same decoder over unbounded integers. */
  function FeedUnbounded(a: Accumulator, d: sextet): Accumulator {
    var buffer, bits := a.buffer * 64 + d, a.bits + 6;
    if bits >= 8 then Accumulator(buffer, bits - 8, a.output + [(buffer / Power2(bits - 8) % 0x100) as byte])
    else Accumulator(buffer, bits, a.output)
  }

  function RunUnbounded(d: seq<sextet>): Accumulator {
    if d == [] then EMPTY else FeedUnbounded(RunUnbounded(d[..|d| - 1]), d[|d| - 1])
  }

  /** Wrapping at 32 bits does not reach the eight bits that are read. */
  lemma SmallShift(x: int, bits: leftover)
    ensures x % TWO_POW_32 / Power2(bits) % 0x100 == x / Power2(bits) % 0x100
  {
    var l, h, p := x % TWO_POW_32, x / TWO_POW_32, Power2(bits);
    var blocks := [0x100_0000, 0x80_0000, 0x40_0000, 0x20_0000, 0x10_0000, 0x8_0000, 0x4_0000, 0x2_0000][bits];
    assert blocks * 0x100 * p == TWO_POW_32;
    assert h * (blocks * 0x100) * p == h * TWO_POW_32;
    AddMultiple(l, h * (blocks * 0x100), p);
    assert h * (blocks * 0x100) == h * blocks * 0x100;
    AddMultiple(l / p, h * blocks, 0x100);
  }

  /** For input of any length the wrapped buffer gives the bytes that unbounded integers give. */
  lemma {:induction false} NeverMaskedIsHarmless(d: seq<sextet>)
    ensures Run32(d).output == RunUnbounded(d).output
    ensures Run32(d).bits == RunUnbounded(d).bits
    ensures Run32(d).buffer == ToInt32(RunUnbounded(d).buffer)
  {
    if d != [] {
      var before := d[..|d| - 1];
      NeverMaskedIsHarmless(before);
      var a, u, x := Run32(before), RunUnbounded(before), d[|d| - 1];
      WrapStep(u.buffer, x);
      var bits := u.bits + 6;
      if bits >= 8 {
        SmallShift(ToInt32(a.buffer * 64) + x, bits - 8);
        SmallShift(u.buffer * 64 + x, bits - 8);
      }
    }
  }

  /** Only the residue of a number counts for its 32-bit reading. */
  lemma SameInt32(x: int, k: int)
    ensures ToInt32(k * TWO_POW_32 + x) == ToInt32(x)
    ensures (k * TWO_POW_32 + x) % TWO_POW_32 == x % TWO_POW_32
  {
    AddMultiple(x, k, TWO_POW_32);
    AddMultiple(x + 0x8000_0000, k, TWO_POW_32);
  }

  /** A digit added below a shifted number cannot carry. */
  lemma DigitDoesNotCarry(m: int, d: sextet)
    requires 0 <= m < 0x400_0000
    ensures ToInt32(m * 64 + d) == ToInt32(m * 64) + d
  {
  }

  lemma WrapStep(buffer: int, d: sextet)
    ensures ToInt32(ToInt32(buffer) * 64) + d == ToInt32(buffer * 64 + d)
    ensures (ToInt32(ToInt32(buffer) * 64) + d) % TWO_POW_32 == (buffer * 64 + d) % TWO_POW_32
  {
    var w := (buffer + 0x8000_0000) / TWO_POW_32;
    var k, m := buffer / 0x400_0000, buffer % 0x400_0000;
    assert buffer * 64 == k * TWO_POW_32 + m * 64;
    assert ToInt32(buffer) * 64 == (k - 64 * w) * TWO_POW_32 + m * 64;
    SameInt32(m * 64, k - 64 * w);
    SameInt32(m * 64 + d, k);
    DigitDoesNotCarry(m, d);
    ResidueOfInt32(buffer * 64 + d);
  }

  lemma ResidueOfInt32(x: int)
    ensures ToInt32(x) % TWO_POW_32 == x % TWO_POW_32
  {
    var k := (x + 0x8000_0000) / TWO_POW_32;
    assert ToInt32(x) == -k * TWO_POW_32 + x;
    AddMultiple(x, -k, TWO_POW_32);
  }

  /** The byte that completes at digit n, from the digits before it. */
  lemma CompletedOctet(d: seq<sextet>, q: nat, r: nat, buffer: int)
    requires 0 < r < 4 && 4 * q + r < |d| && buffer % 64 == d[4 * q + r - 1]
    ensures (buffer * 64 + d[4 * q + r]) / Power2(6 - 2 * r) % 0x100 == OctetIn(d, q, r - 1) as int
  {
    var x := d[4 * q + r];
    LowBits(buffer, x);
    if r == 1 {
      AddMultiple(x, buffer * 4, 16);
    } else if r == 2 {
      AddMultiple(x, buffer * 16, 4);
    }
  }

  /** Only the last digit of the buffer is left in the byte that is read. */
  lemma LowBits(buffer: int, x: sextet)
    ensures (buffer * 4 + x / 16) % 0x100 == buffer % 64 * 4 + x / 16
    ensures (buffer * 16 + x / 4) % 0x100 == buffer % 64 % 16 * 16 + x / 4
    ensures (buffer * 64 + x) % 0x100 == buffer % 64 % 4 * 64 + x
  {
    var k, low := buffer / 64, buffer % 64;
    AddMultiple(low * 4 + x / 16, k, 0x100);
    AddMultiple(low % 16 * 16 + x / 4, k * 4 + low / 16, 0x100);
    AddMultiple(low % 4 * 64 + x, k * 16 + low / 4, 0x100);
  }

  lemma AppendOctet(d: seq<sextet>, q: nat, r: nat)
    requires 0 < r < 4 && |d| == 4 * q + r + 1
    ensures Octets(d) == Octets(d[..|d| - 1]) + [OctetIn(d, q, r - 1)]
  {
    var j := 3 * q + r - 1;
    AddMultiple(r - 1, q, 3);
    assert |Octets(d)| == j + 1 && |Octets(d[..|d| - 1])| == j;
    assert OctetAt(d, j) == OctetIn(d, q, r - 1);
  }

  /** What the unbounded decoder has after the digits d. */
  ghost predicate Holds(a: Accumulator, d: seq<sextet>) {
    && a.output == Octets(d)
    && a.bits == [0, 6, 4, 2][|d| % 4]
    && (d != [] ==> a.buffer % 64 == d[|d| - 1])
  }

  lemma OneMoreDigit(a: Accumulator, d: seq<sextet>, x: sextet)
    requires Holds(a, d)
    ensures Holds(FeedUnbounded(a, x), d + [x])
  {
    var q, r := |d| / 4, |d| % 4;
    AddMultiple(x, a.buffer, 64);
    AddMultiple(r + 1, q, 4);
    assert FeedUnbounded(a, x).bits == [0, 6, 4, 2][(r + 1) % 4];
    assert (d + [x])[..|d + [x]| - 1] == d;
    OneMoreOctet(a, d + [x], q, r);
  }

  lemma AppendNothing(d: seq<sextet>, q: nat)
    requires |d| == 4 * q + 1
    ensures Octets(d) == Octets(d[..|d| - 1])
  {
    var before := d[..|d| - 1];
    QuotientUnique(6 * |d|, 8, 3 * q, 6);
    QuotientUnique(6 * |before|, 8, 3 * q, 0);
    forall j | 0 <= j < 3 * q ensures OctetAt(d, j) == OctetAt(before, j) {
      assert 4 * (j / 3) + j % 3 + 1 < 4 * q;
    }
  }

  lemma FeedGives(a: Accumulator, x: sextet, r: nat)
    requires 0 < r < 4 && a.bits == 8 - 2 * r
    ensures FeedUnbounded(a, x).output == a.output + [((a.buffer * 64 + x) / Power2(6 - 2 * r) % 0x100) as byte]
  {
  }

  lemma OneMoreOctet(a: Accumulator, d: seq<sextet>, q: nat, r: nat)
    requires |d| == 4 * q + r + 1 && r < 4 && Holds(a, d[..|d| - 1])
    ensures FeedUnbounded(a, d[|d| - 1]).output == Octets(d)
  {
    AddMultiple(r, q, 4);
    if r == 0 {
      AppendNothing(d, q);
    } else {
      FeedGives(a, d[|d| - 1], r);
      CompletedOctet(d, q, r, a.buffer);
      AppendOctet(d, q, r);
    }
  }

  /** The unbounded decoder yields exactly the whole bytes of its digits. */
  lemma {:induction false} UnboundedYieldsOctets(d: seq<sextet>)
    ensures Holds(RunUnbounded(d), d)
  {
    if d != [] {
      var before, x := d[..|d| - 1], d[|d| - 1];
      UnboundedYieldsOctets(before);
      OneMoreDigit(RunUnbounded(before), before, x);
      assert before + [x] == d;
    }
  }

  // ------------------------------------------------------------------ the two functions

  method EncodeBase64Url(bytes: array<byte>) returns (output: string)
    ensures output == Encoded(bytes[..])
  {
    output := "";
    var index := 0;
    ghost var q := 0;
    while index < bytes.Length
      invariant index == 3 * q && EncodedUpTo(bytes[..], q, output)
    {
      var first := bytes[index] as int;
      var second := if index + 1 < bytes.Length then bytes[index + 1] as int else 0;
      var third := if index + 2 < bytes.Length then bytes[index + 2] as int else 0;
      var value := first * 0x1_0000 + second * 0x100 + third;
      ghost var before, b := output, bytes[..];
      GroupDigits(b, q, value);
      output := output + [ALPHABET[value / 0x4_0000 % 64]];
      output := output + [ALPHABET[value / 0x1000 % 64]];
      if index + 1 < bytes.Length {
        output := output + [ALPHABET[value / 64 % 64]];
      }
      if index + 2 < bytes.Length {
        output := output + [ALPHABET[value % 64]];
      }
      AppendGroup(b, q, before, output);
      index := index + 3;
      q := q + 1;
    }
  }

  /** `output` holds the encoding of the first q groups of three bytes. */
  ghost predicate EncodedUpTo(b: seq<byte>, q: nat, output: string) {
    output == Encoded(b)[..if 3 * q <= |b| then 4 * q else |Encoded(b)|]
  }

  lemma AppendGroup(b: seq<byte>, q: nat, before: string, after: string)
    requires 3 * q < |b| && EncodedUpTo(b, q, before)
    requires var group := [Symbol(SextetIn(b, q, 0)), Symbol(SextetIn(b, q, 1)), Symbol(SextetIn(b, q, 2)),
                           Symbol(SextetIn(b, q, 3))];
             after == before + group[..if 3 * q + 2 < |b| then 4 else if 3 * q + 1 < |b| then 3 else 2]
    ensures EncodedUpTo(b, q + 1, after)
  {
    var n := if 3 * q + 3 <= |b| then 4 * q + 4 else |Encoded(b)|;
    assert |after| == n;
    forall i | 0 <= i < n ensures after[i] == Encoded(b)[i] {
      if i < 4 * q {
        assert before[i] == Encoded(b)[i];
      } else {
        SextetsOfGroup(b, q, i - 4 * q);
      }
    }
  }

  lemma DigitsOfGroup(b: seq<byte>, q: nat, value: nat)
    requires value == At(b, 3 * q) * 0x1_0000 + At(b, 3 * q + 1) * 0x100 + At(b, 3 * q + 2)
    ensures value / 0x4_0000 % 64 == SextetIn(b, q, 0) as int
    ensures value / 0x1000 % 64 == SextetIn(b, q, 1) as int
    ensures value / 64 % 64 == SextetIn(b, q, 2) as int
    ensures value % 64 == SextetIn(b, q, 3) as int
  {
    CutGroup(At(b, 3 * q), At(b, 3 * q + 1), At(b, 3 * q + 2));
  }

  /** The four digits that the loop cuts out of one group of up to three bytes. */
  lemma GroupDigits(b: seq<byte>, q: nat, value: nat)
    requires value == At(b, 3 * q) * 0x1_0000 + At(b, 3 * q + 1) * 0x100 + At(b, 3 * q + 2)
    ensures |ALPHABET| == 64
    ensures ALPHABET[value / 0x4_0000 % 64] == Symbol(SextetIn(b, q, 0))
    ensures ALPHABET[value / 0x1000 % 64] == Symbol(SextetIn(b, q, 1))
    ensures ALPHABET[value / 64 % 64] == Symbol(SextetIn(b, q, 2))
    ensures ALPHABET[value % 64] == Symbol(SextetIn(b, q, 3))
  {
    DigitsOfGroup(b, q, value);
    AlphabetIsSymbols(value / 0x4_0000 % 64);
    AlphabetIsSymbols(value / 0x1000 % 64);
    AlphabetIsSymbols(value / 64 % 64);
    AlphabetIsSymbols(value % 64);
  }

  lemma CutGroup(x: nat, y: nat, z: nat)
    requires x < 256 && y < 256 && z < 256
    ensures var value := x * 0x1_0000 + y * 0x100 + z;
            && value / 0x4_0000 % 64 == x / 4
            && value / 0x1000 % 64 == x % 4 * 16 + y / 16
            && value / 64 % 64 == y % 16 * 4 + z / 64
            && value % 64 == z % 64
  {
    var value := x * 0x1_0000 + y * 0x100 + z;
    QuotientUnique(value, 0x4_0000, x / 4, x % 4 * 0x1_0000 + y * 0x100 + z);
    QuotientUnique(value, 0x1000, x * 16 + y / 16, y % 16 * 0x100 + z);
    QuotientUnique(value, 64, x * 0x400 + y * 4 + z / 64, z % 64);
    QuotientUnique(x * 16 + y / 16, 64, x / 4, x % 4 * 16 + y / 16);
    QuotientUnique(x * 0x400 + y * 4 + z / 64, 64, x * 16 + y / 16, y % 16 * 4 + z / 64);
  }

  /** One pass of the decoder's loop. */
  method Feed(output: array<byte>, buffer: int, bits: leftover, offset: nat, decoded: sextet)
    returns (buffer': int, bits': leftover, offset': nat)
    requires offset + (bits + 6) / 8 <= output.Length
    modifies output
    ensures offset' == offset + (bits + 6) / 8
    ensures Accumulator(buffer', bits', output[..offset']) == Feed32(Accumulator(buffer, bits, old(output[..offset])),
                                                                     decoded)
  {
    buffer' := ToInt32(buffer * 64) + decoded;
    var total := bits + 6;
    offset' := offset;
    if total >= 8 {
      total := total - 8;
      output[offset] := ShiftedByte(buffer', total);
      offset' := offset + 1;
    }
    bits' := total;
  }

  /** The decoder's loop over the characters. */
  method Accumulate(value: string) returns (output: array<byte>)
    requires forall c :: c in value ==> IsSymbol(c)
    ensures fresh(output) && output[..] == Octets(Digits(value))
  {
    ghost var digits := Digits(value);
    output := new byte[|value| * 6 / 8];
    var buffer, bits, offset := 0, 0, 0;
    for i := 0 to |value|
      invariant 0 <= bits < 8 && offset == i * 6 / 8
      invariant Accumulator(buffer, bits, output[..offset]) == Run32(digits[..i])
    {
      var decoded := IndexOf(ALPHABET, value[i]);
      IndexOfSymbol(value[i]);
      OneDigit(digits, i);
      buffer, bits, offset := Feed(output, buffer, bits, offset, decoded);
    }
    assert digits[..|value|] == digits;
    NeverMaskedIsHarmless(digits);
    UnboundedYieldsOctets(digits);
  }

  /** Accepts exactly the encodings of non-empty byte strings, and undoes the encoding. */
  method DecodeBase64Url(value: string) returns (r: Option<array<byte>>)
    ensures r.Some? ==> fresh(r.value) && r.value[..] != [] && Encoded(r.value[..]) == value
    ensures r.None? ==> forall b: seq<byte> :: b != [] ==> Encoded(b) != value
  {
    if |value| == 0 || |value| % 4 == 1 || exists c :: c in value && !IsSymbol(c) {
      forall b: seq<byte> | b != [] ensures Encoded(b) != value {
        EncodedIsSymbols(b);
      }
      return None;
    }
    var output := Accumulate(value);
    var again := EncodeBase64Url(output);
    if again != value {
      OnlyCandidate(value);
      return None;
    }
    return Some(output);
  }

  lemma OneDigit(d: seq<sextet>, i: nat)
    requires i < |d|
    ensures Run32(d[..i + 1]) == Feed32(Run32(d[..i]), d[i])
    ensures |Run32(d[..i]).output| == i * 6 / 8 && |Run32(d[..i + 1]).output| == (i + 1) * 6 / 8
    ensures (i + 1) * 6 / 8 <= |d| * 6 / 8
  {
    assert d[..i + 1][..i] == d[..i];
    NeverMaskedIsHarmless(d[..i]);
    UnboundedYieldsOctets(d[..i]);
    NeverMaskedIsHarmless(d[..i + 1]);
    UnboundedYieldsOctets(d[..i + 1]);
  }

  /** A string encodes at most the whole bytes of its own digits. */
  lemma OnlyCandidate(s: string)
    requires forall c :: c in s ==> IsSymbol(c)
    ensures forall b: seq<byte> :: Encoded(b) == s ==> b == Octets(Digits(s))
  {
    forall b: seq<byte> | Encoded(b) == s ensures b == Octets(Digits(s)) {
      EncodedIsSymbols(b);
      OctetsUndoSextets(b);
    }
  }

  /** decode(encode(x)) = x for every non-empty x. */
  method RoundTrip(bytes: array<byte>) returns (r: Option<array<byte>>)
    requires bytes.Length > 0
    ensures r.Some? && r.value[..] == bytes[..]
  {
    var s := EncodeBase64Url(bytes);
    r := DecodeBase64Url(s);
    assert bytes[..] != [];
    EncodingIsInjective(r.value[..], bytes[..]);
  }
}
