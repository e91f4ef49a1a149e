/** Canonical byte encodings: length-prefixed strings and fixed-width fields written one after another. */
module Canonical {
  import opened Bytes
  import opened Text

  /** One written field: a string behind its 32-bit length, or bytes of a fixed width. */
  datatype Field = Prefixed(value: seq<byte>) | Fixed(value: seq<byte>)

  /** The length is cut to 32 bits, as Go's uint32(len(value)) and DataView.setUint32 do. */
  function Prefix(value: seq<byte>): (s: seq<byte>)
    ensures |s| == 4
  {
    BigEndian(|value| % TWO_POW_32, 4)
  }

  function Written(f: Field): seq<byte> {
    match f
    case Prefixed(v) => Prefix(v) + v
    case Fixed(v) => v
  }

  function Flatten(fs: seq<Field>): seq<byte> {
    if fs == [] then [] else Written(fs[0]) + Flatten(fs[1..])
  }

  /** Two lists of fields of one format: what is fixed has equal widths, what is prefixed fits its prefix. */
  ghost predicate SameFormat(a: seq<Field>, b: seq<Field>) {
    && |a| == |b|
    && forall i :: 0 <= i < |a| ==> SameFormatField(a[i], b[i])
  }

  ghost predicate SameFormatField(f: Field, g: Field) {
    match (f, g)
    case (Prefixed(v), Prefixed(w)) => |v| < TWO_POW_32 && |w| < TWO_POW_32
    case (Fixed(v), Fixed(w)) => |v| == |w|
    case _ => false
  }

  lemma Split<T>(a: seq<T>, b: seq<T>, s: seq<T>, t: seq<T>)
    requires |a| == |b| && a + s == b + t
    ensures a == b && s == t
  {
    assert (a + s)[..|a|] == a && (b + t)[..|a|] == b;
    assert (a + s)[|a|..] == s && (b + t)[|a|..] == t;
  }

  lemma PrefixDecides(v: seq<byte>, w: seq<byte>)
    requires |v| < TWO_POW_32 && |w| < TWO_POW_32 && Prefix(v) == Prefix(w)
    ensures |v| == |w|
  {
    LengthFits(|v|);
    LengthFits(|w|);
    BigEndianInjective(|v|, |w|, 4);
  }

  lemma LengthFits(n: nat)
    requires n < TWO_POW_32
    ensures n % TWO_POW_32 == n < Power256(4)
  {
    WidthBounds();
  }

  lemma Associative<T>(a: seq<T>, b: seq<T>, c: seq<T>)
    ensures (a + b) + c == a + (b + c)
  {
  }

  lemma FieldDecides(f: Field, g: Field, s: seq<byte>, t: seq<byte>)
    requires SameFormatField(f, g) && Written(f) + s == Written(g) + t
    ensures f == g && s == t
  {
    if f.Prefixed? {
      var v, w := f.value, g.value;
      Associative(Prefix(v), v, s);
      Associative(Prefix(w), w, t);
      Split(Prefix(v), Prefix(w), v + s, w + t);
      PrefixDecides(v, w);
      Split(v, w, s, t);
    } else {
      Split(f.value, g.value, s, t);
    }
  }

  /** The written bytes determine every field, whatever follows. */
  lemma {:induction false} FieldsDecided(a: seq<Field>, b: seq<Field>, s: seq<byte>, t: seq<byte>)
    requires SameFormat(a, b) && Flatten(a) + s == Flatten(b) + t
    ensures a == b && s == t
    decreases |a|
  {
    if a == [] {
      Split(Flatten(a), Flatten(b), s, t);
    } else {
      HeadDecides(a, b, s, t);
      FieldsDecided(a[1..], b[1..], s, t);
      assert a == [a[0]] + a[1..] && b == [b[0]] + b[1..];
    }
  }

  lemma {:induction false} HeadDecides(a: seq<Field>, b: seq<Field>, s: seq<byte>, t: seq<byte>)
    requires a != [] && SameFormat(a, b) && Flatten(a) + s == Flatten(b) + t
    ensures a[0] == b[0] && Flatten(a[1..]) + s == Flatten(b[1..]) + t
  {
    assert SameFormatField(a[0], b[0]);
    Associative(Written(a[0]), Flatten(a[1..]), s);
    Associative(Written(b[0]), Flatten(b[1..]), t);
    FieldDecides(a[0], b[0], Flatten(a[1..]) + s, Flatten(b[1..]) + t);
  }

  lemma {:induction false} FlattenIsInjective(a: seq<Field>, b: seq<Field>)
    requires SameFormat(a, b) && Flatten(a) == Flatten(b)
    ensures a == b
  {
    assert Flatten(a) + [] == Flatten(a) && Flatten(b) + [] == Flatten(b);
    FieldsDecided(a, b, [], []);
  }

  /** Encodings that start with different strings of fitting length differ. */
  lemma {:induction false} FirstStringSeparates(a: seq<Field>, b: seq<Field>)
    requires a != [] && b != [] && a[0].Prefixed? && b[0].Prefixed?
    requires |a[0].value| < TWO_POW_32 && |b[0].value| < TWO_POW_32 && a[0] != b[0]
    ensures Flatten(a) != Flatten(b)
  {
    if Flatten(a) == Flatten(b) {
      FieldDecides(a[0], b[0], Flatten(a[1..]), Flatten(b[1..]));
    }
  }

  lemma {:induction false} FlattenAppend(a: seq<Field>, b: seq<Field>)
    ensures Flatten(a + b) == Flatten(a) + Flatten(b)
  {
    if a == [] {
      assert a + b == b;
    } else {
      assert (a + b)[1..] == a[1..] + b;
      FlattenAppend(a[1..], b);
    }
  }

  lemma FlattenOne(f: Field)
    ensures Flatten([f]) == Written(f)
  {
    assert Flatten([f]) == Written(f) + Flatten([]);
  }

  type int64 = x: int | -0x8000_0000_0000_0000 <= x < 0x8000_0000_0000_0000

  function U64(value: uint64): (f: Field)
    ensures f.Fixed? && |f.value| == 8
  {
    Fixed(BigEndian(value, 8))
  }

  /** uint64(value): two's complement. */
  function I64(value: int64): (f: Field)
    ensures f.Fixed? && |f.value| == 8
  {
    U64(value % TWO_POW_64)
  }

  lemma WordsDecide(a: uint64, b: uint64)
    requires U64(a) == U64(b)
    ensures a == b
  {
    WidthBounds();
    BigEndianInjective(a, b, 8);
  }

  lemma SignedWordsDecide(a: int64, b: int64)
    requires I64(a) == I64(b)
    ensures a == b
  {
    WordsDecide(a % TWO_POW_64, b % TWO_POW_64);
  }

  /** A buffer that the builders append to. */
  class Buffer {
    var data: seq<byte>
    ghost var fields: seq<Field>

    ghost predicate Valid()
      reads this
    {
      data == Flatten(fields)
    }

    constructor ()
      ensures Valid() && fields == []
    {
      data, fields := [], [];
    }

    method WriteString(value: Text)
      requires Valid()
      modifies this
      ensures Valid() && fields == old(fields) + [Prefixed(value)]
    {
      FlattenAppend(fields, [Prefixed(value)]);
      FlattenOne(Prefixed(value));
      data := data + BigEndian(|value| % TWO_POW_32, 4);
      data := data + value;
      fields := fields + [Prefixed(value)];
    }

    method Write(value: seq<byte>)
      requires Valid()
      modifies this
      ensures Valid() && fields == old(fields) + [Fixed(value)]
    {
      FlattenAppend(fields, [Fixed(value)]);
      FlattenOne(Fixed(value));
      data := data + value;
      fields := fields + [Fixed(value)];
    }

    method WriteUint64(value: uint64)
      requires Valid()
      modifies this
      ensures Valid() && fields == old(fields) + [U64(value)]
    {
      Write(BigEndian(value, 8));
    }

    method WriteInt64(value: int64)
      requires Valid()
      modifies this
      ensures Valid() && fields == old(fields) + [I64(value)]
    {
      WriteUint64(value % TWO_POW_64);
    }
  }
}
