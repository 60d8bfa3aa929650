/** The bytes behind the comparison: distinct texts have distinct UTF-8 encodings (RFC 3629, section 3). */
module Utf8 {
  import opened Json

  type Byte = b: int | 0 <= b < 0x100

  function EncodeChar(c: char): (r: seq<Byte>)
    ensures 1 <= |r| <= 4
  {
    var n := c as int;
    if n < 0x80 then [n]
    else if n < 0x800 then [0xC0 + n / 0x40, 0x80 + n % 0x40]
    else if n < 0x1_0000 then [0xE0 + n / 0x1000, 0x80 + n / 0x40 % 0x40, 0x80 + n % 0x40]
    else [0xF0 + n / 0x4_0000, 0x80 + n / 0x1000 % 0x40, 0x80 + n / 0x40 % 0x40, 0x80 + n % 0x40]
  }

  function Encode(s: string): seq<Byte> {
    if s == [] then [] else EncodeChar(s[0]) + Encode(s[1..])
  }

  /** The first byte tells how many belong to the character. */
  function Length(first: Byte): nat {
    if first < 0x80 then 1 else if first < 0xE0 then 2 else if first < 0xF0 then 3 else 4
  }

  /** Six more bits from a continuation byte. */
  function Join(high: int, next: int): int { 0x40 * high + (next - 0x80) }

  function DecodeChar(r: seq<Byte>): int
    requires 1 <= |r| && Length(r[0]) <= |r|
  {
    if r[0] < 0x80 then r[0]
    else if r[0] < 0xE0 then Join(r[0] as int - 0xC0, r[1])
    else if r[0] < 0xF0 then Join(Join(r[0] as int - 0xE0, r[1]), r[2])
    else Join(Join(Join(r[0] as int - 0xF0, r[1]), r[2]), r[3])
  }

  lemma CharReadsBack(c: char)
    ensures var r := EncodeChar(c); Length(r[0]) == |r| && DecodeChar(r) == c as int
  {
    var n := c as int;
    assert n / 0x40 / 0x40 == n / 0x1000 && n / 0x1000 / 0x40 == n / 0x4_0000;
  }

  lemma DecodeLooksAhead(a: seq<Byte>, b: seq<Byte>)
    requires 1 <= |a| && Length(a[0]) == |a|
    ensures DecodeChar(a + b) == DecodeChar(a)
  {}

  lemma {:induction false} EncodeIsInjective(a: string, b: string)
    requires Encode(a) == Encode(b)
    ensures a == b
  {
    if a != [] && b != [] {
      var x, y := EncodeChar(a[0]), EncodeChar(b[0]);
      CharReadsBack(a[0]);
      CharReadsBack(b[0]);
      var all := Encode(a);
      assert all[0] == x[0] == y[0];
      DecodeLooksAhead(x, Encode(a[1..]));
      DecodeLooksAhead(y, Encode(b[1..]));
      assert all[|x|..] == Encode(a[1..]) && all[|y|..] == Encode(b[1..]);
      EncodeIsInjective(a[1..], b[1..]);
      assert a == [a[0]] + a[1..] && b == [b[0]] + b[1..];
    }
  }

  /** bytes.Equal on the two marshalled maps, short of the check for two empty ones. */
  predicate BytesEqual(a: ValueMap, b: ValueMap) {
    if |Entries(a)| == 0 && |Entries(b)| == 0 then true else Encode(Marshal(a)) == Encode(Marshal(b))
  }

  /** The bytes agree exactly when the values mean the same. */
  lemma BytesDecide(a: ValueMap, b: ValueMap)
    ensures BytesEqual(a, b) <==> Meaning(Map(Entries(a))) == Meaning(Map(Entries(b)))
  {
    hide Marshal, Meaning;
    ValuesEqualDecides(a, b);
    if Encode(Marshal(a)) == Encode(Marshal(b)) { EncodeIsInjective(Marshal(a), Marshal(b)); }
  }
}
