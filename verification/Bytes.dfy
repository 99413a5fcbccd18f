/** Byte strings, big-endian integers, 128-bit identifiers and UTF-8 text. */
module Bytes {

  type Byte = b: int | 0 <= b < 256

  /** A byte string. */
  type Octets = seq<Byte>

  const TWO64: int := 0x1_0000_0000_0000_0000
  const TWO128: int := 0x1_0000_0000_0000_0000_0000_0000_0000_0000

  /** A UUID, as the number its sixteen big-endian bytes spell. */
  type Uuid = u: int | 0 <= u < TWO128

  function Pow256(width: nat): (p: int)
    ensures p >= 1
  {
    if width == 0 then 1 else 256 * Pow256(width - 1)
  }

  function Pow2(bits: nat): (p: nat)
    ensures p >= 1
  {
    if bits == 0 then 1 else 2 * Pow2(bits - 1)
  }

  /** The last `width` big-endian bytes of `value`. */
  function BigEndian(value: nat, width: nat): (b: Octets)
    ensures |b| == width
    decreases width
  {
    if width == 0 then [] else BigEndian(value / 256, width - 1) + [value % 256]
  }

  function FromBigEndian(b: Octets): (value: nat) {
    if b == [] then 0 else 256 * FromBigEndian(b[..|b| - 1]) + b[|b| - 1]
  }

  lemma {:induction false} BigEndianRoundTrip(value: nat, width: nat)
    requires value < Pow256(width)
    ensures FromBigEndian(BigEndian(value, width)) == value
    decreases width
  {
    if width > 0 {
      BigEndianRoundTrip(value / 256, width - 1);
      var b := BigEndian(value, width);
      assert b[..|b| - 1] == BigEndian(value / 256, width - 1);
    }
  }

  lemma {:induction false} FromBigEndianRoundTrip(b: Octets)
    ensures FromBigEndian(b) < Pow256(|b|)
    ensures BigEndian(FromBigEndian(b), |b|) == b
  {
    if b != [] {
      FromBigEndianRoundTrip(b[..|b| - 1]);
      assert FromBigEndian(b) / 256 == FromBigEndian(b[..|b| - 1]);
      assert b == b[..|b| - 1] + [b[|b| - 1]];
    }
  }

  lemma Pow256Eight()
    ensures Pow256(8) == TWO64
  {
    assert Pow256(4) == 0x1_0000_0000;
  }

  lemma Pow256Sixteen()
    ensures Pow256(16) == TWO128
  {
    Pow256Eight();
    assert Pow256(12) == TWO64 * 0x1_0000_0000;
  }

  /** The eight big-endian bytes of a 64-bit number determine it. */
  lemma BigEndian64Injective(x: nat, y: nat)
    requires x < TWO64 && y < TWO64
    ensures BigEndian(x, 8) == BigEndian(y, 8) ==> x == y
  {
    Pow256Eight();
    BigEndianRoundTrip(x, 8);
    BigEndianRoundTrip(y, 8);
  }

  /** `Uuid::as_bytes`. */
  function UuidBytes(u: Uuid): (b: Octets)
    ensures |b| == 16
  {
    BigEndian(u, 16)
  }

  /** `Uuid::from_bytes`. */
  function UuidFromBytes(b: Octets): (u: Uuid)
    requires |b| == 16
    ensures UuidBytes(u) == b
  {
    FromBigEndianRoundTrip(b);
    Pow256Sixteen();
    FromBigEndian(b)
  }

  lemma UuidBytesInjective(x: Uuid, y: Uuid)
    ensures UuidBytes(x) == UuidBytes(y) ==> x == y
  {
    Pow256Sixteen();
    BigEndianRoundTrip(x, 16);
    BigEndianRoundTrip(y, 16);
  }

  /** The UTF-8 bytes of one Unicode scalar value. */
  function Utf8Char(c: char): (b: Octets)
    ensures 1 <= |b| <= 4
  {
    var n := c as int;
    if n < 0x80 then [n]
    else if n < 0x800 then [0xC0 + n / 64, 0x80 + n % 64]
    else if n < 0x10000 then [0xE0 + n / 4096, 0x80 + n / 64 % 64, 0x80 + n % 64]
    else [0xF0 + n / 262144, 0x80 + n / 4096 % 64, 0x80 + n / 64 % 64, 0x80 + n % 64]
  }

  /** `str::as_bytes`. */
  function Utf8(s: string): (b: Octets)
    ensures |b| >= |s|
  {
    if s == [] then [] else Utf8Char(s[0]) + Utf8(s[1..])
  }

  /** The length of the encoding that a leading byte announces. */
  function Utf8Length(lead: Byte): (n: int)
    ensures 1 <= n <= 4
  {
    if lead < 0x80 then 1 else if lead < 0xE0 then 2 else if lead < 0xF0 then 3 else 4
  }

  /** The scalar value that well-formed UTF-8 bytes start with. */
  function LeadingScalar(b: Octets): (n: int)
    requires b != [] && Utf8Length(b[0]) <= |b|
  {
    match Utf8Length(b[0])
    case 1 => b[0]
    case 2 => (b[0] as int - 0xC0) * 64 + b[1] as int - 0x80
    case 3 => (b[0] as int - 0xE0) * 4096 + (b[1] as int - 0x80) * 64 + b[2] as int - 0x80
    case _ =>
      (b[0] as int - 0xF0) * 262144 + (b[1] as int - 0x80) * 4096 + (b[2] as int - 0x80) * 64 + b[3] as int - 0x80
  }

  lemma LeadingScalarOfChar(c: char, rest: Octets)
    ensures var b := Utf8Char(c) + rest;
            Utf8Length(b[0]) == |Utf8Char(c)| && LeadingScalar(b) == c as int
  {
    var n := c as int;
    assert n / 64 == n / 4096 * 64 + n / 64 % 64;
    assert n / 4096 == n / 262144 * 64 + n / 4096 % 64;
  }

  /** No character's encoding is the start of another's. */
  lemma Utf8CharPrefixFree(c: char, d: char, x: Octets, y: Octets)
    requires Utf8Char(c) + x == Utf8Char(d) + y
    ensures c == d && x == y
  {
    LeadingScalarOfChar(c, x);
    LeadingScalarOfChar(d, y);
    assert c as int == d as int;
    assert x == (Utf8Char(c) + x)[|Utf8Char(c)|..] && y == (Utf8Char(d) + y)[|Utf8Char(d)|..];
  }

  /** Different texts have different UTF-8 bytes. */
  lemma {:induction false} Utf8Injective(s: string, t: string)
    requires Utf8(s) == Utf8(t)
    ensures s == t
  {
    if s == [] || t == [] {
      assert |s| == 0 && |t| == 0;
    } else {
      Utf8CharPrefixFree(s[0], t[0], Utf8(s[1..]), Utf8(t[1..]));
      Utf8Injective(s[1..], t[1..]);
      assert s == [s[0]] + s[1..] && t == [t[0]] + t[1..];
    }
  }
}
