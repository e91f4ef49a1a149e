/** Go strings as byte strings, and the identifier checks. */
module Text {
  import opened Bytes

  type Text = seq<byte>

  /** The bytes of an ASCII literal. */
  function Ascii(s: string): (t: Text)
    ensures |t| == |s|
  {
    seq(|s|, i requires 0 <= i < |s| => (s[i] as int % 0x80) as byte)
  }

  predicate IsSpace(b: byte) {
    b == 32 || 9 <= b <= 13
  }

  function TrimLeft(s: Text): (t: Text)
    ensures |t| <= |s|
    ensures t != [] ==> !IsSpace(t[0])
    ensures s != [] && !IsSpace(s[0]) ==> t == s
  {
    if s != [] && IsSpace(s[0]) then TrimLeft(s[1..]) else s
  }

  function TrimRight(s: Text): (t: Text)
    ensures |t| <= |s| && t == s[..|t|]
    ensures t != [] ==> !IsSpace(t[|t| - 1])
    ensures s != [] && !IsSpace(s[|s| - 1]) ==> t == s
  {
    if s != [] && IsSpace(s[|s| - 1]) then TrimRight(s[..|s| - 1]) else s
  }

  /** strings.TrimSpace. */
  function Trim(s: Text): (t: Text)
    ensures |t| <= |s|
  {
    TrimRight(TrimLeft(s))
  }

  lemma TrimIsIdempotent(s: Text)
    ensures Trim(Trim(s)) == Trim(s)
  {
    var t := Trim(s);
    if t != [] {
      assert t[0] == TrimLeft(s)[0];
    }
  }

  predicate Blank(s: Text) {
    Trim(s) == []
  }

  /** The domain's validateIdentifier: only the trimmed value is checked. */
  predicate ValidIdentifier(s: Text) {
    !Blank(s) && |Trim(s)| <= 128
  }

  lemma BlankIsEmpty()
    ensures Blank([])
  {
  }

  predicate Continues(s: Text, i: nat, low: byte, high: byte) {
    i < |s| && low <= s[i] <= high
  }

  /** How many bytes the first code point takes, by section 4 of RFC 3629; 0 when there is none. */
  function CodePointLength(s: Text): (n: nat)
    ensures n <= |s|
  {
    if s == [] then 0
    else if s[0] < 0x80 then 1
    else if 0xC2 <= s[0] <= 0xDF then if Continues(s, 1, 0x80, 0xBF) then 2 else 0
    else if 0xE0 <= s[0] <= 0xEF then
      var low: byte, high: byte := if s[0] == 0xE0 then 0xA0 else 0x80, if s[0] == 0xED then 0x9F else 0xBF;
      if Continues(s, 1, low, high) && Continues(s, 2, 0x80, 0xBF) then 3 else 0
    else if 0xF0 <= s[0] <= 0xF4 then
      var low: byte, high: byte := if s[0] == 0xF0 then 0x90 else 0x80, if s[0] == 0xF4 then 0x8F else 0xBF;
      if Continues(s, 1, low, high) && Continues(s, 2, 0x80, 0xBF) && Continues(s, 3, 0x80, 0xBF) then 4 else 0
    else 0
  }

  /** utf8.ValidString. */
  predicate ValidUtf8(s: Text)
    decreases |s|
  {
    s == [] || (CodePointLength(s) > 0 && ValidUtf8(s[CodePointLength(s)..]))
  }
}
