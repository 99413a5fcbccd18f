/** Recovery codes as people see them: upper-case hexadecimal in groups of eight, read back leniently. */
module RecoveryCode {
  import opened Wrappers
  import opened Bytes
  import opened Collections
  import Hex

  const CODE_BYTES: nat := 32

  /** Unicode White_Space. */
  predicate IsWhitespace(c: char) {
    var n := c as int;
    9 <= n <= 13 || n == 0x20 || n == 0x85 || n == 0xA0 || n == 0x1680 || 0x2000 <= n <= 0x200A
    || n == 0x2028 || n == 0x2029 || n == 0x202F || n == 0x205F || n == 0x3000
  }

  predicate IsFiller(c: char) {
    IsWhitespace(c) || c == '-'
  }

  function Kept(c: char): (r: string) {
    if IsFiller(c) then "" else [c]
  }

  /** The characters that count. */
  function Normalize(s: string): (r: string) {
    if s == "" then "" else Kept(s[0]) + Normalize(s[1..])
  }

  datatype Error = WrongLength | NotHexadecimal

  function Parse(input: string): (r: Result<Octets, Error>) {
    var normalized := Normalize(input);
    if |Utf8(normalized)| != CODE_BYTES * 2 then Err(WrongLength)
    else
      var bytes := Hex.Decode(normalized);
      if bytes.None? then Err(NotHexadecimal)
      else if |bytes.value| != CODE_BYTES then Err(WrongLength)
      else Ok(bytes.value)
  }

  /** `text` from position `at` on, with a dash before every eighth character but the first. */
  function Grouped(text: string, at: nat): (r: string)
    requires at <= |text|
    decreases |text| - at
  {
    if at == |text| then ""
    else (if at > 0 && at % 8 == 0 then "-" else "") + [text[at]] + Grouped(text, at + 1)
  }

  method FormatRecoveryCode(code: Octets) returns (grouped: string)
    ensures grouped == Grouped(Hex.EncodeUpper(code), 0)
  {
    var text := Hex.EncodeUpper(code);
    grouped := "";
    for at := 0 to |text|
      invariant grouped + Grouped(text, at) == Grouped(text, 0)
    {
      Unfold(text, at, grouped);
      if at > 0 && at % 8 == 0 {
        grouped := grouped + "-";
      }
      grouped := grouped + [text[at]];
    }
  }

  lemma Unfold(text: string, at: nat, said: string)
    requires at < |text|
    ensures said + Grouped(text, at)
            == (said + (if at > 0 && at % 8 == 0 then "-" else "")) + [text[at]] + Grouped(text, at + 1)
    ensures said + "" == said
  {
  }

  predicate Plain(s: string) {
    forall k :: 0 <= k < |s| ==> !IsFiller(s[k]) && s[k] as int < 128
  }

  lemma {:induction false} NormalizeGrouped(text: string, at: nat)
    requires at <= |text| && Plain(text)
    ensures Normalize(Grouped(text, at)) == text[at..]
    decreases |text| - at
  {
    if at < |text| {
      NormalizeGrouped(text, at + 1);
      NormalizeStep(if at > 0 && at % 8 == 0 then "-" else "", text[at], Grouped(text, at + 1));
      assert text[at..] == [text[at]] + text[at + 1..];
    }
  }

  lemma NormalizeStep(dash: string, c: char, rest: string)
    requires (dash == "" || dash == "-") && !IsFiller(c)
    ensures Normalize(dash + [c] + rest) == [c] + Normalize(rest)
  {
    var s := [c] + rest;
    assert s[1..] == rest;
    if dash == "-" {
      assert dash + [c] + rest == "-" + s;
      assert ("-" + s)[1..] == s;
      assert "" + Normalize(s) == Normalize(s);
    } else {
      assert dash + [c] + rest == s;
    }
  }

  lemma {:induction false} UpperDigitsArePlain(b: Octets)
    ensures Plain(Hex.EncodeUpper(b))
  {
    if b != [] {
      UpperDigitsArePlain(b[1..]);
      var s, rest := Hex.EncodeUpper(b), Hex.EncodeUpper(b[1..]);
      assert s == [Hex.Digit(b[0] / 16, 'A'), Hex.Digit(b[0] % 16, 'A')] + rest;
      DigitIsPlain(b[0] / 16);
      DigitIsPlain(b[0] % 16);
      forall k | 2 <= k < |s| ensures s[k] == rest[k - 2] {
      }
    }
  }

  lemma DigitIsPlain(v: int)
    requires 0 <= v < 16
    ensures !IsFiller(Hex.Digit(v, 'A')) && Hex.Digit(v, 'A') as int < 128
  {
  }

  lemma {:induction false} AsciiLength(s: string)
    requires forall k :: 0 <= k < |s| ==> s[k] as int < 128
    ensures |Utf8(s)| == |s|
  {
    if s != "" { AsciiLength(s[1..]); }
  }

  /** A code that is shown can be typed back. */
  lemma ParseFormatted(code: Octets)
    requires |code| == CODE_BYTES
    ensures Parse(Grouped(Hex.EncodeUpper(code), 0)) == Ok(code)
  {
    var text := Hex.EncodeUpper(code);
    UpperDigitsArePlain(code);
    NormalizeGrouped(text, 0);
    assert text[0..] == text;
    AsciiLength(text);
    Hex.DecodeDigits(code, 'A');
  }

  lemma {:induction false} DecodedIsAscii(s: string)
    requires Hex.Decode(s).Some?
    ensures forall k :: 0 <= k < |s| ==> s[k] as int < 128
    decreases |s|
  {
    if s != "" {
      DecodedIsAscii(s[2..]);
      assert forall k :: 2 <= k < |s| ==> s[k] == s[2..][k - 2];
    }
  }

  /** A text is a code exactly when, fillers aside, it is the hexadecimal of 32 bytes, in either case. */
  lemma ParsesIff(input: string, code: Octets)
    ensures Parse(input) == Ok(code) <==> Hex.Decode(Normalize(input)) == Some(code) && |code| == CODE_BYTES
  {
    var text := Normalize(input);
    if Hex.Decode(text).Some? {
      DecodedIsAscii(text);
      AsciiLength(text);
    }
  }

  lemma {:induction false} NormalizeConcat(a: string, b: string)
    ensures Normalize(a + b) == Normalize(a) + Normalize(b)
  {
    if a == "" {
      assert a + b == b;
    } else {
      NormalizeConcat(a[1..], b);
      assert (a + b)[1..] == a[1..] + b;
      Associates(Kept(a[0]), Normalize(a[1..]), Normalize(b));
    }
  }

  /** Dashes and white space may stand anywhere, or be left out. */
  lemma FillersDoNotMatter(a: string, filler: char, b: string)
    requires IsFiller(filler)
    ensures Parse(a + [filler] + b) == Parse(a + b)
  {
    NormalizeConcat(a, [filler] + b);
    NormalizeConcat(a, b);
    NormalizeFiller(filler, b);
    Associates(a, [filler], b);
  }

  lemma NormalizeFiller(filler: char, b: string)
    requires IsFiller(filler)
    ensures Normalize([filler] + b) == Normalize(b)
  {
    assert ([filler] + b)[1..] == b;
    assert "" + Normalize(b) == Normalize(b);
  }
}
