/** The run-length codec: count and byte pairs, greedy runs of at most 255. */
module RunLength {
  import opened Wrappers
  import opened Bytes
  import opened Collections

  function Repeat(b: Byte, n: nat): (r: Octets)
    ensures |r| == n && forall k :: 0 <= k < n ==> r[k] == b
  {
    seq(n, _ => b)
  }

  /** The bytes that a list of pairs stands for. */
  function Expand(c: Octets): (d: Octets)
    requires |c| % 2 == 0
  {
    if c == [] then [] else Repeat(c[1], c[0]) + Expand(c[2..])
  }

  /**
   * Pairs as a greedy encoder leaves them: no zero count, and equal neighbouring bytes only after
   * a full run.
   */
  ghost predicate Canonical(c: Octets) {
    c == [] || (|c| >= 2 && c[0] > 0 && (|c| >= 4 && c[3] == c[1] ==> c[0] == 255) && Canonical(c[2..]))
  }

  lemma {:induction false} CanonicalIsEven(c: Octets)
    requires Canonical(c)
    ensures |c| % 2 == 0
  {
    if c != [] { CanonicalIsEven(c[2..]); }
  }

  /** What the encoder still writes when its current run is `n` times `b` and `rest` is unread. */
  function Encode(b: Byte, n: Byte, rest: Octets): (c: Octets)
    decreases |rest|
  {
    if rest == [] then [n, b]
    else if rest[0] == b && n < 255 then Encode(b, n + 1, rest[1..])
    else [n, b] + Encode(rest[0], 1, rest[1..])
  }

  function Compress(data: Octets): (c: Octets) {
    if data == [] then [] else Encode(data[0], 1, data[1..])
  }

  lemma {:induction false} EncodeSound(b: Byte, n: Byte, rest: Octets)
    requires n > 0
    ensures var c := Encode(b, n, rest);
            && Canonical(c) && |c| >= 2 && |c| % 2 == 0 && c[1] == b
            && Expand(c) == Repeat(b, n) + rest
    decreases |rest|
  {
    var c := Encode(b, n, rest);
    if rest == [] {
      assert c[2..] == [];
    } else if rest[0] == b && n < 255 {
      EncodeSound(b, n + 1, rest[1..]);
      assert Repeat(b, n + 1) + rest[1..] == Repeat(b, n) + rest;
    } else {
      EncodeSound(rest[0], 1, rest[1..]);
      assert c[2..] == Encode(rest[0], 1, rest[1..]);
      assert Repeat(rest[0], 1) + rest[1..] == rest;
    }
  }

  /** Round trip, and the encoder's output is canonical. */
  lemma CompressSound(data: Octets)
    ensures Canonical(Compress(data)) && |Compress(data)| % 2 == 0
    ensures Expand(Compress(data)) == data
  {
    if data != [] {
      EncodeSound(data[0], 1, data[1..]);
      assert Repeat(data[0], 1) + data[1..] == data;
    }
  }

  /** When canonical pairs start with `b` more than the first count says, the first run is full. */
  lemma FirstRunIsMaximal(e: Octets)
    requires Canonical(e) && |e| % 2 == 0 && e != []
    ensures Expand(e) != [] && Expand(e)[0] == e[1]
    ensures e[0] < |Expand(e)| && Expand(e)[e[0]] == e[1] ==> e[0] == 255
  {
    assert Expand(e) == Repeat(e[1], e[0]) + Expand(e[2..]);
    if e[2..] != [] {
      assert e[2..][0] > 0;
      assert Expand(e[2..]) == Repeat(e[3], e[2]) + Expand(e[2..][2..]);
    }
  }

  /** A suffix of a run and what follows it lies in what follows, or begins inside the run. */
  lemma SuffixOfRun(b: Byte, n: nat, rest: Octets, t: Octets)
    requires |t| <= n + |rest| && t == (Repeat(b, n) + rest)[n + |rest| - |t|..]
    ensures |t| <= |rest| ==> t == rest[|rest| - |t|..]
    ensures |t| > |rest| ==> t[|t| - |rest|..] == rest && forall k :: 0 <= k < |t| - |rest| ==> t[k] == b
  {
  }

  /** No pairs for a byte string are fewer than canonical pairs for one of its suffixes. */
  lemma {:induction false} CanonicalIsShortest(c: Octets, e: Octets)
    requires |c| % 2 == 0 && |e| % 2 == 0 && Canonical(e)
    requires |Expand(e)| <= |Expand(c)| && Expand(e) == Expand(c)[|Expand(c)| - |Expand(e)|..]
    ensures |e| <= |c|
    decreases |c|
  {
    if e == [] { return; }
    FirstRunIsMaximal(e);
    var t, rest := Expand(e), Expand(c[2..]);
    SuffixOfRun(c[1], c[0], rest, t);
    if |t| <= |rest| {
      CanonicalIsShortest(c[2..], e);
    } else {
      var m := |t| - |rest|;
      assert e[0] >= m;
      var t' := Expand(e[2..]);
      assert t' == t[e[0]..] == t[m..][e[0] - m..];
      CanonicalIsShortest(c[2..], e[2..]);
    }
  }

  lemma {:induction false} CanonicalIsUnique(c: Octets, e: Octets)
    requires |c| % 2 == 0 && |e| % 2 == 0 && Canonical(c) && Canonical(e)
    requires Expand(c) == Expand(e)
    ensures c == e
    decreases |c|
  {
    if c == [] {
      if e != [] { FirstRunIsMaximal(e); }
    } else {
      FirstRunIsMaximal(c);
      assert e != [];
      FirstRunIsMaximal(e);
      assert c[0] == e[0];
      assert Expand(c[2..]) == Expand(c)[c[0]..] && Expand(e[2..]) == Expand(e)[e[0]..];
      CanonicalIsUnique(c[2..], e[2..]);
      assert c == c[..2] + c[2..] && e == e[..2] + e[2..];
    }
  }

  /** No shorter input decompresses to the same bytes. */
  lemma CompressIsOptimal(data: Octets, c: Octets)
    requires |c| % 2 == 0 && Expand(c) == data
    ensures |Compress(data)| <= |c|
  {
    CompressSound(data);
    CanonicalIsShortest(c, Compress(data));
  }

  /** Compressing what `c` decompresses to gives `c` back exactly when `c` is canonical. */
  lemma RecompressIffCanonical(c: Octets)
    requires |c| % 2 == 0
    ensures Compress(Expand(c)) == c <==> Canonical(c)
  {
    CompressSound(Expand(c));
    if Canonical(c) {
      CanonicalIsUnique(Compress(Expand(c)), c);
    }
  }

  method CompressData(data: Octets) returns (compressed: Octets)
    ensures compressed == Compress(data)
  {
    compressed := [];
    if |data| == 0 {
      return;
    }
    var currentByte, count: Byte := data[0], 1;
    for k := 1 to |data|
      invariant count > 0
      invariant compressed + Encode(currentByte, count, data[k..]) == Compress(data)
    {
      var b := data[k];
      EncodeStep(currentByte, count, b, data[k..]);
      assert data[k..][1..] == data[k + 1..];
      if b == currentByte && count < 255 {
        count := count + 1;
      } else {
        Associates(compressed, [count, currentByte], Encode(b, 1, data[k + 1..]));
        compressed := compressed + [count, currentByte];
        currentByte, count := b, 1;
      }
    }
    assert data[|data|..] == [];
    compressed := compressed + [count, currentByte];
  }

  lemma EncodeStep(b: Byte, n: Byte, first: Byte, rest: Octets)
    requires rest != [] && rest[0] == first
    ensures Encode(b, n, rest) ==
            if first == b && n < 255 then Encode(b, n + 1, rest[1..]) else [n, b] + Encode(first, 1, rest[1..])
  {
  }

  method DecompressData(compressed: Octets) returns (r: Result<Octets, string>)
    ensures r.Ok? <==> |compressed| % 2 == 0
    ensures r.Ok? ==> r.value == Expand(compressed)
  {
    if |compressed| % 2 != 0 {
      return Err("Invalid compressed data format");
    }
    var decompressed: Octets := [];
    var k := 0;
    while k < |compressed|
      invariant 0 <= k <= |compressed| && k % 2 == 0
      invariant decompressed + Expand(compressed[k..]) == Expand(compressed)
    {
      var count, b := compressed[k], compressed[k + 1];
      ghost var before := decompressed;
      for n := 0 to count
        invariant decompressed == before + Repeat(b, n)
      {
        decompressed := decompressed + [b];
      }
      assert compressed[k..][2..] == compressed[k + 2..];
      k := k + 2;
    }
    return Ok(decompressed);
  }
}
