/**
 * Base64 of sections 4 and 5 of RFC 4648: `STANDARD` (padded, with + and /) and `URL_SAFE_NO_PAD`
 * (unpadded, with - and _). The decoders are strict: padding must be exact and unused bits zero.
 */
module Base64 {
  import opened Wrappers
  import opened Bytes

  datatype Engine = STANDARD | URL_SAFE_NO_PAD

  type Sextet = v: int | 0 <= v < 64

  function Letter(e: Engine, v: Sextet): (c: char) {
    if v < 26 then ('A' as int + v) as char
    else if v < 52 then ('a' as int + v - 26) as char
    else if v < 62 then ('0' as int + v - 52) as char
    else if v == 62 then (if e.STANDARD? then '+' else '-')
    else (if e.STANDARD? then '/' else '_')
  }

  function Value(e: Engine, c: char): (v: Option<Sextet>) {
    if 'A' <= c <= 'Z' then Some(c as int - 'A' as int)
    else if 'a' <= c <= 'z' then Some(c as int - 'a' as int + 26)
    else if '0' <= c <= '9' then Some(c as int - '0' as int + 52)
    else if c == (if e.STANDARD? then '+' else '-') then Some(62)
    else if c == (if e.STANDARD? then '/' else '_') then Some(63)
    else None
  }

  lemma LetterValue(e: Engine, v: Sextet)
    ensures Value(e, Letter(e, v)) == Some(v) && Letter(e, v) != '=' && Letter(e, v) != '.'
  {
  }

  lemma ValueLetter(e: Engine, c: char)
    requires Value(e, c).Some?
    ensures Letter(e, Value(e, c).value) == c
  {
  }

  function Padding(e: Engine, n: nat): (s: string)
    requires n <= 2
  {
    if e.URL_SAFE_NO_PAD? then "" else if n == 0 then "" else if n == 1 then "=" else "=="
  }

  /** Three bytes as four sextets. */
  function Split(x: Byte, y: Byte, z: Byte): (q: seq<Sextet>)
    ensures |q| == 4
  {
    [x / 4, x % 4 * 16 + y / 16, y % 16 * 4 + z / 64, z % 64]
  }

  /** Four sextets as three bytes. */
  function Join(q: seq<Sextet>): (b: Octets)
    requires |q| == 4
    ensures |b| == 3
  {
    var a: int, b: int, c: int, d: int := q[0], q[1], q[2], q[3];
    [a * 4 + b / 16, b % 16 * 16 + c / 4, c % 4 * 64 + d]
  }

  lemma JoinSplit(x: Byte, y: Byte, z: Byte)
    ensures Join(Split(x, y, z)) == [x, y, z]
  {
  }

  lemma Unpack(high: int, low: int, base: int)
    requires (base == 4 || base == 16 || base == 64) && 0 <= low < base
    ensures (high * base + low) / base == high && (high * base + low) % base == low
  {
    if base == 4 {
      assert (high * 4 + low) / 4 == high;
    } else if base == 16 {
      assert (high * 16 + low) / 16 == high;
    } else {
      assert (high * 64 + low) / 64 == high;
    }
  }

  lemma SplitJoin(q: seq<Sextet>)
    requires |q| == 4
    ensures var b := Join(q); Split(b[0], b[1], b[2]) == q
  {
    var a: int, b: int, c: int, d: int := q[0], q[1], q[2], q[3];
    Unpack(a, b / 16, 4);
    Unpack(b % 16, c / 4, 16);
    Unpack(c % 4, d, 64);
    var r := Split(a * 4 + b / 16, b % 16 * 16 + c / 4, c % 4 * 64 + d);
    assert r == [a, b, c, d];
  }

  function Letters(e: Engine, q: seq<Sextet>): (s: string)
    ensures |s| == |q|
    ensures forall k :: 0 <= k < |q| ==> s[k] == Letter(e, q[k])
  {
    seq(|q|, k requires 0 <= k < |q| => Letter(e, q[k]))
  }

  function Encode(e: Engine, b: Octets): (s: string) {
    if b == [] then ""
    else if |b| == 1 then Letters(e, Split(b[0], 0, 0)[..2]) + Padding(e, 2)
    else if |b| == 2 then Letters(e, Split(b[0], b[1], 0)[..3]) + Padding(e, 1)
    else Letters(e, Split(b[0], b[1], b[2])) + Encode(e, b[3..])
  }

  function Values(e: Engine, s: string): (q: Option<seq<Sextet>>)
    ensures q.Some? <==> forall k :: 0 <= k < |s| ==> Value(e, s[k]).Some?
    ensures q.Some? ==> |q.value| == |s| && forall k :: 0 <= k < |s| ==> q.value[k] == Value(e, s[k]).value
  {
    if forall k :: 0 <= k < |s| ==> Value(e, s[k]).Some?
    then Some(seq(|s|, k requires 0 <= k < |s| && Value(e, s[k]).Some? => Value(e, s[k]).value)) else None
  }

  /** The last two or three letters, whose unused bits must be zero. */
  function DecodeTail(e: Engine, s: string): (r: Option<Octets>) {
    var q := Values(e, s);
    if q.None? then None
    else if |s| == 2 && q.value[1] % 16 == 0 then Some(Join(q.value + [0, 0])[..1])
    else if |s| == 3 && q.value[2] % 4 == 0 then Some(Join(q.value + [0])[..2])
    else None
  }

  function Decode(e: Engine, s: string): (r: Option<Octets>) {
    if s == "" then Some([])
    else if |s| < 4 then (if e.STANDARD? then None else DecodeTail(e, s))
    else if e.STANDARD? && |s| == 4 && s[3] == '=' then DecodeTail(e, if s[2] == '=' then s[..2] else s[..3])
    else
      var q, rest := Values(e, s[..4]), Decode(e, s[4..]);
      if q.Some? && rest.Some? then Some(Join(q.value) + rest.value) else None
  }

  lemma ValuesOfLetters(e: Engine, q: seq<Sextet>)
    ensures Values(e, Letters(e, q)) == Some(q)
  {
    var s := Letters(e, q);
    forall k | 0 <= k < |s| ensures Value(e, s[k]) == Some(q[k]) {
      LetterValue(e, q[k]);
    }
    assert Values(e, s).value == q;
  }

  lemma LettersOfValues(e: Engine, s: string)
    requires Values(e, s).Some?
    ensures Letters(e, Values(e, s).value) == s
  {
    forall k | 0 <= k < |s| ensures Letters(e, Values(e, s).value)[k] == s[k] {
      ValueLetter(e, s[k]);
    }
  }

  lemma TailRoundTrip(e: Engine, b: Octets)
    requires 1 <= |b| <= 2
    ensures var q := if |b| == 1 then Split(b[0], 0, 0)[..2] else Split(b[0], b[1], 0)[..3];
            DecodeTail(e, Letters(e, q)) == Some(b)
  {
    var y := if |b| == 1 then 0 else b[1];
    var full := Split(b[0], y, 0);
    var q := full[..|b| + 1];
    ValuesOfLetters(e, q);
    JoinSplit(b[0], y, 0);
    assert q + (if |b| == 1 then [0, 0] else [0]) == full;
    assert Join(full)[..|b|] == b;
  }

  lemma ShortRoundTrip(e: Engine, b: Octets)
    requires 1 <= |b| <= 2
    ensures Decode(e, Encode(e, b)) == Some(b)
  {
    var q := if |b| == 1 then Split(b[0], 0, 0)[..2] else Split(b[0], b[1], 0)[..3];
    var s := Encode(e, b);
    TailRoundTrip(e, b);
    assert s == Letters(e, q) + Padding(e, 3 - |b|);
    if e.STANDARD? {
      assert s[..|q|] == Letters(e, q);
      LetterValue(e, q[|q| - 1]);
    } else {
      assert s == Letters(e, q);
    }
  }

  lemma EncodeLong(e: Engine, b: Octets)
    requires |b| >= 3
    ensures Encode(e, b) == Letters(e, Split(b[0], b[1], b[2])) + Encode(e, b[3..])
  {
  }

  lemma QuadDecodes(e: Engine, q: seq<Sextet>, rest: string, tail: Octets, text: string, b: Octets)
    requires |q| == 4 && text == Letters(e, q) + rest && Decode(e, rest) == Some(tail) && b == Join(q) + tail
    ensures Decode(e, text) == Some(b)
  {
    ValuesOfLetters(e, q);
    LetterValue(e, q[3]);
    DecodeQuad(e, q, rest);
  }

  lemma LongRoundTrip(e: Engine, b: Octets)
    requires |b| >= 3 && Decode(e, Encode(e, b[3..])) == Some(b[3..])
    ensures Decode(e, Encode(e, b)) == Some(b)
  {
    EncodeLong(e, b);
    JoinSplit(b[0], b[1], b[2]);
    assert b == [b[0], b[1], b[2]] + b[3..];
    QuadDecodes(e, Split(b[0], b[1], b[2]), Encode(e, b[3..]), b[3..], Encode(e, b), b);
  }

  /** Decoding inverts encoding at every length. */
  lemma {:induction false} RoundTrip(e: Engine, b: Octets)
    ensures Decode(e, Encode(e, b)) == Some(b)
    decreases |b|
  {
    if b == [] {
    } else if |b| <= 2 {
      ShortRoundTrip(e, b);
    } else {
      RoundTrip(e, b[3..]);
      LongRoundTrip(e, b);
    }
  }

  lemma DecodeQuad(e: Engine, q: seq<Sextet>, rest: string)
    requires |q| == 4 && Letter(e, q[3]) != '=' && Values(e, Letters(e, q)) == Some(q) && Decode(e, rest).Some?
    ensures Decode(e, Letters(e, q) + rest) == Some(Join(q) + Decode(e, rest).value)
  {
    var s := Letters(e, q) + rest;
    assert s[..4] == Letters(e, q) && s[4..] == rest && s[3] == Letter(e, q[3]);
  }

  lemma TailCanonical(e: Engine, s: string)
    requires DecodeTail(e, s).Some?
    ensures var b := DecodeTail(e, s).value;
            |b| == |s| - 1 && 1 <= |b| <= 2
            && s == Letters(e, if |b| == 1 then Split(b[0], 0, 0)[..2] else Split(b[0], b[1], 0)[..3])
  {
    var q := Values(e, s).value;
    LettersOfValues(e, s);
    var full := if |s| == 2 then q + [0, 0] else q + [0];
    SplitJoin(full);
    assert full[..|s|] == q;
    assert Join(full)[2] == 0;
    assert |s| == 2 ==> Join(full)[1] == 0;
  }

  lemma LongCanonical(e: Engine, s: string, q: seq<Sextet>, rest: Octets)
    requires |s| >= 4 && Values(e, s[..4]) == Some(q) && Encode(e, rest) == s[4..]
    ensures |q| == 4 && Encode(e, Join(q) + rest) == s
  {
    LettersOfValues(e, s[..4]);
    SplitJoin(q);
    var b := Join(q) + rest;
    assert b[3..] == rest && b[0] == Join(q)[0] && b[1] == Join(q)[1] && b[2] == Join(q)[2];
    EncodeLong(e, b);
    assert s == s[..4] + s[4..];
  }

  /** Every text that decodes is the encoding of what it decodes to. */
  lemma {:induction false} DecodeIsCanonical(e: Engine, s: string)
    requires Decode(e, s).Some?
    ensures Encode(e, Decode(e, s).value) == s
    decreases |s|
  {
    if s == "" {
    } else if |s| < 4 {
      TailCanonical(e, s);
    } else if e.STANDARD? && |s| == 4 && s[3] == '=' {
      var t := if s[2] == '=' then s[..2] else s[..3];
      TailCanonical(e, t);
      assert s == t + Padding(e, 4 - |t|);
    } else {
      DecodeIsCanonical(e, s[4..]);
      LongCanonical(e, s, Values(e, s[..4]).value, Decode(e, s[4..]).value);
    }
  }

  /** The alphabets hold no full stop. */
  lemma {:induction false} NoDots(e: Engine, b: Octets)
    ensures '.' !in Encode(e, b)
    decreases |b|
  {
    if |b| >= 3 {
      LettersHoldNoDots(e, Split(b[0], b[1], b[2]));
      NoDots(e, b[3..]);
    } else if |b| == 2 {
      LettersHoldNoDots(e, Split(b[0], b[1], 0)[..3]);
    } else if |b| == 1 {
      LettersHoldNoDots(e, Split(b[0], 0, 0)[..2]);
    }
  }

  lemma LettersHoldNoDots(e: Engine, q: seq<Sextet>)
    ensures '.' !in Letters(e, q)
  {
    forall k | 0 <= k < |q| ensures Letters(e, q)[k] != '.' {
      LetterValue(e, q[k]);
    }
  }
}
