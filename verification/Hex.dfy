/** Hexadecimal text, as the `hex` crate writes and reads it. */
module Hex {
  import opened Wrappers
  import opened Bytes

  function Digit(v: int, ten: char): (c: char)
    requires 0 <= v < 16 && (ten == 'a' || ten == 'A')
  {
    if v < 10 then ('0' as int + v) as char else (ten as int + v - 10) as char
  }

  function Digits(b: Octets, ten: char): (s: string)
    requires ten == 'a' || ten == 'A'
    ensures |s| == 2 * |b|
  {
    if b == [] then [] else [Digit(b[0] / 16, ten), Digit(b[0] % 16, ten)] + Digits(b[1..], ten)
  }

  /** `hex::encode`. */
  function Encode(b: Octets): (s: string)
    ensures |s| == 2 * |b|
  {
    Digits(b, 'a')
  }

  /** `hex::encode_upper`. */
  function EncodeUpper(b: Octets): (s: string)
    ensures |s| == 2 * |b|
  {
    Digits(b, 'A')
  }

  function DigitValue(c: char): (v: Option<int>)
    ensures v.Some? ==> 0 <= v.value < 16
  {
    if '0' <= c <= '9' then Some(c as int - '0' as int)
    else if 'a' <= c <= 'f' then Some(c as int - 'a' as int + 10)
    else if 'A' <= c <= 'F' then Some(c as int - 'A' as int + 10)
    else None
  }

  /** `hex::decode`: either case is read, an odd length or any other character is refused. */
  function Decode(s: string): (r: Option<Octets>)
    ensures r.Some? ==> |s| == 2 * |r.value|
  {
    if s == [] then Some([])
    else if |s| == 1 then None
    else
      var hi, lo, rest := DigitValue(s[0]), DigitValue(s[1]), Decode(s[2..]);
      if hi.Some? && lo.Some? && rest.Some? then Some([16 * hi.value + lo.value] + rest.value) else None
  }

  lemma {:induction false} DecodeDigits(b: Octets, ten: char)
    requires ten == 'a' || ten == 'A'
    ensures Decode(Digits(b, ten)) == Some(b)
  {
    if b != [] {
      DecodeDigits(b[1..], ten);
      var s := Digits(b, ten);
      assert s[2..] == Digits(b[1..], ten) && s[0] == Digit(b[0] / 16, ten) && s[1] == Digit(b[0] % 16, ten);
      assert b == [b[0]] + b[1..];
    }
  }

  lemma EncodeInjective(a: Octets, b: Octets)
    ensures Encode(a) == Encode(b) ==> a == b
  {
    DecodeDigits(a, 'a');
    DecodeDigits(b, 'a');
  }
}
