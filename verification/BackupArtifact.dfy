/**
 * Saved-code backup artifacts. A random file key is split into two shares by XOR, one wrapped under
 * the recovery code and one under the password; epoch entries are sealed under a key derived from the
 * file key. Key derivation, the cipher and JSON are abstract.
 */
module BackupArtifact {
  import opened Wrappers
  import opened Bytes
  import opened Sealing
  import opened EpochIds
  import Base64
  import RecoveryCode

  const BACKUP_VERSION: nat := 1
  const MAX_ENTRIES: nat := 100_000
  const KEY_LEN: nat := 32
  const SALT_LEN: nat := 16

  const ENTRY_AAD: string := "hybridcipher/backup/entry"
  const K1_AAD: string := "hybridcipher/backup/k1"
  const K2_AAD: string := "hybridcipher/backup/k2"
  const EPOCH_KEY_LABEL: string := "hybridcipher-backup"

  type Key = k: Octets | |k| == KEY_LEN witness seq(KEY_LEN, i => 0)

  /** One epoch of one group; `createdAt` counts nanoseconds. */
  datatype Entry = Entry(
    groupId: Uuid,
    epochNumber: U64,
    epochUuid: Uuid,
    createdAt: int,
    isActive: bool,
    encryptionKeyB64: string)

  /** The library functions the artifact rests on. */
  datatype Library = Library(
    aead: Aead,
    argon2: (Octets, Octets) -> Key,
    hkdf: (Octets, Octets, string) -> Key,
    writeEntry: Entry -> Octets,
    readEntry: Octets -> Option<Entry>)
  {
    ghost predicate Correct() {
      aead.Correct() && forall e :: readEntry(writeEntry(e)) == Some(e)
    }
  }

  // ----- Shares

  /** Bitwise exclusive or of the lowest `bits` bits. */
  function XorBits(a: nat, b: nat, bits: nat): (r: nat)
    ensures r < Pow2(bits)
    decreases bits
  {
    if bits == 0 then 0 else (a + b) % 2 + 2 * XorBits(a / 2, b / 2, bits - 1)
  }

  lemma LowBit(a: nat, b: nat, high: nat, x: nat)
    requires x == (a + b) % 2 + 2 * high
    ensures x / 2 == high && (b + x) % 2 == a % 2
  {
  }

  lemma {:induction false} XorBitsCancels(a: nat, b: nat, bits: nat)
    requires a < Pow2(bits)
    ensures XorBits(b, XorBits(a, b, bits), bits) == a
    decreases bits
  {
    if bits > 0 {
      var x := XorBits(a, b, bits);
      XorBitsCancels(a / 2, b / 2, bits - 1);
      LowBit(a, b, XorBits(a / 2, b / 2, bits - 1), x);
    }
  }

  lemma EightBits()
    ensures Pow2(8) == 256
  {
    assert Pow2(4) == 16;
  }

  function XorByte(a: Byte, b: Byte): (r: Byte) {
    EightBits();
    XorBits(a, b, 8)
  }

  lemma XorByteCancels(a: Byte, b: Byte)
    ensures XorByte(b, XorByte(a, b)) == a
  {
    EightBits();
    XorBitsCancels(a, b, 8);
  }

  function At(s: Octets, k: nat): (b: Byte) {
    if k < |s| then s[k] else 0
  }

  /** The XOR of two byte strings, read as 32 bytes. */
  function Xor(a: Octets, b: Octets): (r: Key) {
    seq(KEY_LEN, k requires 0 <= k < KEY_LEN => XorByte(At(a, k), At(b, k)))
  }

  method XorInto(out: array<Byte>, lhs: Octets, rhs: Octets)
    requires out.Length == KEY_LEN
    modifies out
    ensures out[..] == Xor(lhs, rhs)
  {
    for k := 0 to KEY_LEN
      invariant forall j :: 0 <= j < k ==> out[j] == Xor(lhs, rhs)[j]
    {
      var l := if k < |lhs| then lhs[k] else 0;
      var r := if k < |rhs| then rhs[k] else 0;
      out[k] := XorByte(l, r);
    }
  }

  /** The two shares rebuild the key. */
  lemma SharesRebuildKey(key: Key, share: Key)
    ensures Xor(share, Xor(key, share)) == key
  {
    forall k | 0 <= k < KEY_LEN ensures Xor(share, Xor(key, share))[k] == key[k] {
      XorByteCancels(key[k], share[k]);
    }
  }

  // ----- Artifacts

  type Salt = s: Octets | |s| == SALT_LEN witness seq(SALT_LEN, i => 0)
  type Nonce = n: Octets | |n| == NONCE_LEN witness seq(NONCE_LEN, i => 0)

  datatype Artifact = Artifact(
    version: nat,
    k1Salt: string,
    k2Salt: string,
    hkdfSalt: string,
    k1Wrapped: ProtectedData,
    k2Wrapped: ProtectedData,
    entries: seq<ProtectedData>)

  datatype Error = SecretsRequired | BadSaltEncoding | BadSaltLength | CodeMismatch | PasswordMismatch | BadShares
                 | TooManyEntries | CorruptedEntry | MalformedEntry

  datatype Unlocked = Unlocked(fileKey: Octets, entryKey: Octets, code: Octets, entries: seq<Entry>)

  /** What the random source supplies for a new artifact. */
  datatype Random = Random(fileKey: Key, share: Key, k1Salt: Salt, k2Salt: Salt, hkdfSalt: Salt, k1Nonce: Nonce,
    k2Nonce: Nonce)

  function Encoded(b: Octets): (s: string) {
    Base64.Encode(Base64.STANDARD, b)
  }

  function Decoded(s: string): (b: Option<Octets>) {
    Base64.Decode(Base64.STANDARD, s)
  }

  lemma TextRoundTrip(b: Octets)
    ensures Decoded(Encoded(b)) == Some(b)
  {
    Base64.RoundTrip(Base64.STANDARD, b);
  }

  predicate Blank(s: string) {
    forall c <- s :: RecoveryCode.IsWhitespace(c)
  }

  /** `new`. */
  function New(lib: Library, password: string, code: Octets, random: Random): (r: Result<Artifact, Error>) {
    if Blank(password) || |code| != RecoveryCode.CODE_BYTES then Err(SecretsRequired)
    else
      var k1Root := lib.argon2(code, random.k1Salt);
      var k2Root := lib.argon2(Utf8(password), random.k2Salt);
      Ok(Artifact(BACKUP_VERSION, Encoded(random.k1Salt), Encoded(random.k2Salt), Encoded(random.hkdfSalt),
                  EncryptWithAd(lib.aead, random.share, k1Root, K1_AAD, random.k1Nonce),
                  EncryptWithAd(lib.aead, Xor(random.fileKey, random.share), k2Root, K2_AAD, random.k2Nonce), []))
  }

  function DeriveRootKey(lib: Library, secret: Octets, salt: Octets): (r: Result<Octets, Error>) {
    if |salt| != SALT_LEN then Err(BadSaltLength) else Ok(lib.argon2(secret, salt))
  }

  function UnwrapFileKey(lib: Library, a: Artifact, password: string, code: Octets): (r: Result<Octets, Error>) {
    var k1Salt, k2Salt := Decoded(a.k1Salt), Decoded(a.k2Salt);
    if k1Salt.None? || k2Salt.None? then Err(BadSaltEncoding)
    else
      var k1Root, k2Root := DeriveRootKey(lib, code, k1Salt.value), DeriveRootKey(lib, Utf8(password), k2Salt.value);
      if k1Root.Err? then k1Root
      else if k2Root.Err? then k2Root
      else
        var k1, k2 := DecryptWithAd(lib.aead, a.k1Wrapped, k1Root.value, K1_AAD),
          DecryptWithAd(lib.aead, a.k2Wrapped, k2Root.value, K2_AAD);
        if k1.None? then Err(CodeMismatch)
        else if k2.None? then Err(PasswordMismatch)
        else if |k1.value| != KEY_LEN || |k2.value| != KEY_LEN then Err(BadShares)
        else Ok(Xor(k1.value, k2.value))
  }

  function DeriveEpochKey(lib: Library, a: Artifact, fileKey: Octets): (r: Result<Octets, Error>) {
    var salt := Decoded(a.hkdfSalt);
    if salt.None? then Err(BadSaltEncoding)
    else if |salt.value| != SALT_LEN then Err(BadSaltLength)
    else Ok(lib.hkdf(salt.value, fileKey, EPOCH_KEY_LABEL))
  }

  /** The key that seals the entries, from both secrets. */
  function EntryKey(lib: Library, a: Artifact, password: string, code: Octets): (r: Result<Octets, Error>) {
    var fileKey := UnwrapFileKey(lib, a, password, code);
    if fileKey.Err? then fileKey else DeriveEpochKey(lib, a, fileKey.value)
  }

  function SealEntry(lib: Library, e: Entry, nonce: Nonce, key: Octets): (p: ProtectedData) {
    EncryptWithAd(lib.aead, lib.writeEntry(e), key, ENTRY_AAD, nonce)
  }

  function SealEntries(lib: Library, entries: seq<Entry>, nonces: seq<Nonce>, key: Octets): (sealed: seq<ProtectedData>)
    requires |nonces| == |entries|
    ensures |sealed| == |entries|
  {
    if entries == [] then []
    else [SealEntry(lib, entries[0], nonces[0], key)] + SealEntries(lib, entries[1..], nonces[1..], key)
  }

  function OpenEntry(lib: Library, p: ProtectedData, key: Octets): (r: Result<Entry, Error>) {
    var text := DecryptWithAd(lib.aead, p, key, ENTRY_AAD);
    if text.None? then Err(CorruptedEntry)
    else
      var e := lib.readEntry(text.value);
      if e.None? then Err(MalformedEntry) else Ok(e.value)
  }

  /** How one sealed entry is opened under a key. */
  type Opener = ProtectedData -> Result<Entry, Error>

  function OpenerFor(lib: Library, key: Octets): (open: Opener) {
    p => OpenEntry(lib, p, key)
  }

  function OpenEntries(open: Opener, sealed: seq<ProtectedData>): (r: Result<seq<Entry>, Error>)
    ensures r.Ok? ==> |r.value| == |sealed|
  {
    if sealed == [] then Ok([])
    else
      var first := open(sealed[0]);
      if first.Err? then Err(first.error) else Prefixed([first.value], OpenEntries(open, sealed[1..]))
  }

  function Prefixed(found: seq<Entry>, r: Result<seq<Entry>, Error>): (s: Result<seq<Entry>, Error>) {
    if r.Ok? then Ok(found + r.value) else r
  }

  /** `append_entries`. */
  function Append(lib: Library, a: Artifact, entries: seq<Entry>, nonces: seq<Nonce>, password: string,
                  code: Octets): (r: Result<Artifact, Error>)
    requires |nonces| == |entries|
  {
    if entries == [] then Ok(a)
    else
      var key := EntryKey(lib, a, password, code);
      if key.Err? then Err(key.error) else Ok(a.(entries := a.entries + SealEntries(lib, entries, nonces, key.value)))
  }

  /** `unlock`: every share and every entry is authenticated before anything is returned. */
  function Unlock(lib: Library, a: Artifact, password: string, code: Octets): (r: Result<Unlocked, Error>) {
    if |code| != RecoveryCode.CODE_BYTES || password == "" then Err(SecretsRequired)
    else
      var fileKey := UnwrapFileKey(lib, a, password, code);
      if fileKey.Err? then Err(fileKey.error)
      else
        var key := DeriveEpochKey(lib, a, fileKey.value);
        if key.Err? then Err(key.error)
        else if |a.entries| > MAX_ENTRIES then Err(TooManyEntries)
        else
          var entries := OpenEntries(OpenerFor(lib, key.value), a.entries);
          if entries.Err? then Err(entries.error) else Ok(Unlocked(fileKey.value, key.value, code, entries.value))
  }

  predicate HasSameEnvelope(a: Artifact, b: Artifact) {
    a.k1Salt == b.k1Salt && a.k2Salt == b.k2Salt && a.hkdfSalt == b.hkdfSalt && a.k1Wrapped == b.k1Wrapped
      && a.k2Wrapped == b.k2Wrapped
  }

  // ----- Unlocking what was appended

  /** The wrapped shares of a new artifact rebuild the file key. */
  lemma NewUnwraps(lib: Library, password: string, code: Octets, random: Random)
    requires lib.Correct() && New(lib, password, code, random).Ok?
    ensures UnwrapFileKey(lib, New(lib, password, code, random).value, password, code) == Ok(random.fileKey)
  {
    Base64.RoundTrip(Base64.STANDARD, random.k1Salt);
    Base64.RoundTrip(Base64.STANDARD, random.k2Salt);
    var k1Root := lib.argon2(code, random.k1Salt);
    var k2Root := lib.argon2(Utf8(password), random.k2Salt);
    var other := Xor(random.fileKey, random.share);
    SealedOpens(lib.aead, random.share, k1Root, K1_AAD, random.k1Nonce);
    SealedOpens(lib.aead, other, k2Root, K2_AAD, random.k2Nonce);
    SharesRebuildKey(random.fileKey, random.share);
  }

  lemma NewEntryKey(lib: Library, password: string, code: Octets, random: Random)
    requires lib.Correct() && New(lib, password, code, random).Ok?
    ensures EntryKey(lib, New(lib, password, code, random).value, password, code) ==
            Ok(lib.hkdf(random.hkdfSalt, random.fileKey, EPOCH_KEY_LABEL))
  {
    NewUnwraps(lib, password, code, random);
    Base64.RoundTrip(Base64.STANDARD, random.hkdfSalt);
  }

  /** The keys depend on the envelope alone. */
  lemma EnvelopeFixesKeys(lib: Library, a: Artifact, b: Artifact, password: string, code: Octets)
    requires HasSameEnvelope(a, b)
    ensures UnwrapFileKey(lib, a, password, code) == UnwrapFileKey(lib, b, password, code)
    ensures EntryKey(lib, a, password, code) == EntryKey(lib, b, password, code)
  {
  }

  lemma {:induction false} OpenSealed(lib: Library, entries: seq<Entry>, nonces: seq<Nonce>, key: Octets)
    requires lib.Correct() && |nonces| == |entries|
    ensures OpenEntries(OpenerFor(lib, key), SealEntries(lib, entries, nonces, key)) == Ok(entries)
    decreases |entries|
  {
    if entries != [] {
      OpenSealed(lib, entries[1..], nonces[1..], key);
      SealedOpens(lib.aead, lib.writeEntry(entries[0]), key, ENTRY_AAD, nonces[0]);
      var sealed := SealEntries(lib, entries, nonces, key);
      assert sealed[1..] == SealEntries(lib, entries[1..], nonces[1..], key);
      assert entries == [entries[0]] + entries[1..];
    }
  }

  lemma {:induction false} OpenConcat(open: Opener, a: seq<ProtectedData>, b: seq<ProtectedData>)
    requires OpenEntries(open, a).Ok? && OpenEntries(open, b).Ok?
    ensures OpenEntries(open, a + b) == Ok(OpenEntries(open, a).value + OpenEntries(open, b).value)
    decreases |a|
  {
    if a == [] {
      assert a + b == b;
      assert [] + OpenEntries(open, b).value == OpenEntries(open, b).value;
    } else {
      OpenConcat(open, a[1..], b);
      assert (a + b)[1..] == a[1..] + b;
      PrefixedStep([open(a[0]).value], OpenEntries(open, a[1..]).value, OpenEntries(open, b));
    }
  }

  /** One call of `append_entries`. */
  datatype Batch = Batch(entries: seq<Entry>, nonces: seq<Nonce>)

  ghost predicate WellFormed(batches: seq<Batch>) {
    forall b <- batches :: |b.nonces| == |b.entries|
  }

  function AppendAll(lib: Library, a: Artifact, batches: seq<Batch>, password: string,
                     code: Octets): (r: Result<Artifact, Error>)
    requires WellFormed(batches)
    decreases |batches|
  {
    if batches == [] then Ok(a)
    else
      var init, last := batches[..|batches| - 1], batches[|batches| - 1];
      var before := AppendAll(lib, a, init, password, code);
      if before.Err? then before else Append(lib, before.value, last.entries, last.nonces, password, code)
  }

  function AllEntries(batches: seq<Batch>): (entries: seq<Entry>)
    decreases |batches|
  {
    if batches == [] then [] else AllEntries(batches[..|batches| - 1]) + batches[|batches| - 1].entries
  }

  /** `a` has the envelope of `origin`, and under `key` its entries open to `entries`. */
  ghost predicate Holds(lib: Library, a: Artifact, origin: Artifact, key: Octets, entries: seq<Entry>) {
    HasSameEnvelope(a, origin) && OpenEntries(OpenerFor(lib, key), a.entries) == Ok(entries)
  }

  lemma AppendOpens(lib: Library, a: Artifact, batch: Batch, password: string, code: Octets, key: Octets,
                    origin: Artifact, entries: seq<Entry>)
    requires lib.Correct() && |batch.nonces| == |batch.entries|
    requires Holds(lib, a, origin, key, entries) && EntryKey(lib, origin, password, code) == Ok(key)
    ensures var r := Append(lib, a, batch.entries, batch.nonces, password, code);
            r.Ok? && Holds(lib, r.value, origin, key, entries + batch.entries)
  {
    EnvelopeFixesKeys(lib, a, origin, password, code);
    if batch.entries == [] {
      assert entries + batch.entries == entries;
    } else {
      OpenSealed(lib, batch.entries, batch.nonces, key);
      OpenConcat(OpenerFor(lib, key), a.entries, SealEntries(lib, batch.entries, batch.nonces, key));
    }
  }

  /** Appends under the right secrets succeed, keep the envelope and add exactly the given entries. */
  lemma {:induction false} AppendAllOpens(lib: Library, a: Artifact, batches: seq<Batch>, password: string,
                                          code: Octets, key: Octets)
    requires lib.Correct() && WellFormed(batches) && a.entries == []
    requires EntryKey(lib, a, password, code) == Ok(key)
    ensures var r := AppendAll(lib, a, batches, password, code);
            r.Ok? && Holds(lib, r.value, a, key, AllEntries(batches))
    decreases |batches|
  {
    if batches != [] {
      var init, last := batches[..|batches| - 1], batches[|batches| - 1];
      AppendAllOpens(lib, a, init, password, code, key);
      var before := AppendAll(lib, a, init, password, code);
      AppendOpens(lib, before.value, last, password, code, key, a, AllEntries(init));
      AppendAllStep(lib, a, batches, password, code);
    }
  }

  lemma AppendAllStep(lib: Library, a: Artifact, batches: seq<Batch>, password: string, code: Octets)
    requires WellFormed(batches) && batches != []
    requires AppendAll(lib, a, batches[..|batches| - 1], password, code).Ok?
    ensures var before := AppendAll(lib, a, batches[..|batches| - 1], password, code).value;
            var last := batches[|batches| - 1];
            AppendAll(lib, a, batches, password, code) == Append(lib, before, last.entries, last.nonces, password, code)
  {
  }

  /**
   * For every code, password and sequence of appends to a new artifact, unlocking returns the file
   * key and all appended entries in order, as long as there are at most 100,000 of them.
   */
  lemma UnlockReturnsAppended(lib: Library, password: string, code: Octets, random: Random, batches: seq<Batch>)
    requires lib.Correct() && WellFormed(batches)
    requires !Blank(password) && |code| == RecoveryCode.CODE_BYTES
    ensures var a := New(lib, password, code, random);
            && a.Ok?
            && var r := AppendAll(lib, a.value, batches, password, code);
            && r.Ok? && HasSameEnvelope(r.value, a.value)
            && Unlock(lib, r.value, password, code) ==
               if |AllEntries(batches)| > MAX_ENTRIES then Err(TooManyEntries)
               else Ok(Unlocked(random.fileKey, lib.hkdf(random.hkdfSalt, random.fileKey, EPOCH_KEY_LABEL), code,
                 AllEntries(batches)))
  {
    var a := New(lib, password, code, random).value;
    var key := lib.hkdf(random.hkdfSalt, random.fileKey, EPOCH_KEY_LABEL);
    NewUnwraps(lib, password, code, random);
    NewEntryKey(lib, password, code, random);
    AppendAllOpens(lib, a, batches, password, code, key);
    var r := AppendAll(lib, a, batches, password, code).value;
    EnvelopeFixesKeys(lib, r, a, password, code);
    UnlockOpened(lib, r, password, code, random.fileKey, key, AllEntries(batches));
  }

  lemma UnlockOpened(lib: Library, a: Artifact, password: string, code: Octets, fileKey: Octets, key: Octets,
                     entries: seq<Entry>)
    requires !Blank(password) && |code| == RecoveryCode.CODE_BYTES
    requires UnwrapFileKey(lib, a, password, code) == Ok(fileKey) && EntryKey(lib, a, password, code) == Ok(key)
    requires OpenEntries(OpenerFor(lib, key), a.entries) == Ok(entries)
    ensures Unlock(lib, a, password, code) ==
            if |entries| > MAX_ENTRIES then Err(TooManyEntries) else Ok(Unlocked(fileKey, key, code, entries))
  {
  }

  /** Entries of two artifacts with the same envelope can be put together and still unlock, in order. */
  lemma MergedArtifactUnlocks(lib: Library, a: Artifact, b: Artifact, password: string, code: Octets)
    requires HasSameEnvelope(a, b) && |a.entries| + |b.entries| <= MAX_ENTRIES
    ensures var x, y := Unlock(lib, a, password, code), Unlock(lib, b, password, code);
            x.Ok? && y.Ok? ==>
              Unlock(lib, a.(entries := a.entries + b.entries), password, code)
                == Ok(x.value.(entries := x.value.entries + y.value.entries))
  {
    if Unlock(lib, a, password, code).Ok? && Unlock(lib, b, password, code).Ok? {
      var merged := a.(entries := a.entries + b.entries);
      EnvelopeFixesKeys(lib, a, b, password, code);
      EnvelopeFixesKeys(lib, a, merged, password, code);
      var key := EntryKey(lib, a, password, code).value;
      OpenConcat(OpenerFor(lib, key), a.entries, b.entries);
    }
  }

  /** The object whose list of sealed entries grows. */
  class SealedBackup {
    const lib: Library
    const envelope: Artifact
    var entries: seq<ProtectedData>

    ghost function View(): (a: Artifact)
      reads this
    {
      envelope.(entries := entries)
    }

    constructor (lib: Library, a: Artifact)
      ensures View() == a && this.lib == lib
    {
      this.lib, envelope, entries := lib, a, a.entries;
    }

    method AppendEntriesWithEpochKey(list: seq<Entry>, nonces: seq<Nonce>, key: Octets)
      requires |nonces| == |list|
      modifies this
      ensures entries == old(entries) + SealEntries(lib, list, nonces, key)
    {
      for k := 0 to |list|
        invariant entries + SealEntries(lib, list[k..], nonces[k..], key)
                  == old(entries) + SealEntries(lib, list, nonces, key)
      {
        assert list[k..][1..] == list[k + 1..] && nonces[k..][1..] == nonces[k + 1..];
        var protected := SealEntry(lib, list[k], nonces[k], key);
        entries := entries + [protected];
      }
    }

    method AppendEntries(list: seq<Entry>, nonces: seq<Nonce>, password: string, code: Octets)
      returns (r: Result<(), Error>)
      requires |nonces| == |list|
      modifies this
      ensures var spec := Append(lib, old(View()), list, nonces, password, code);
              if spec.Ok? then r == Ok(()) && View() == spec.value else r == Err(spec.error) && View() == old(View())
      ensures HasSameEnvelope(View(), old(View()))
    {
      if |list| == 0 {
        return Ok(());
      }
      var key := EntryKey(lib, envelope.(entries := entries), password, code);
      if key.Err? {
        return Err(key.error);
      }
      AppendEntriesWithEpochKey(list, nonces, key.value);
      return Ok(());
    }

    method UnlockAll(password: string, code: Octets) returns (r: Result<Unlocked, Error>)
      ensures r == Unlock(lib, View(), password, code)
    {
      if |code| != RecoveryCode.CODE_BYTES || password == "" {
        return Err(SecretsRequired);
      }
      var a := envelope.(entries := entries);
      var fileKey := UnwrapFileKey(lib, a, password, code);
      if fileKey.Err? {
        return Err(fileKey.error);
      }
      var key := DeriveEpochKey(lib, a, fileKey.value);
      if key.Err? {
        return Err(key.error);
      }
      if |entries| > MAX_ENTRIES {
        return Err(TooManyEntries);
      }
      var found := OpenInOrder(key.value);
      if found.Err? {
        return Err(found.error);
      }
      return Ok(Unlocked(fileKey.value, key.value, code, found.value));
    }

    method OpenInOrder(key: Octets) returns (r: Result<seq<Entry>, Error>)
      ensures r == OpenEntries(OpenerFor(lib, key), entries)
    {
      var open := OpenerFor(lib, key);
      var found: seq<Entry> := [];
      assert entries[0..] == entries;
      for k := 0 to |entries|
        invariant Prefixed(found, OpenEntries(open, entries[k..])) == Prefixed([], OpenEntries(open, entries))
      {
        assert entries[k..][1..] == entries[k + 1..];
        var e := open(entries[k]);
        if e.Err? {
          return Err(e.error);
        }
        PrefixedStep(found, [e.value], OpenEntries(open, entries[k + 1..]));
        found := found + [e.value];
      }
      assert entries[|entries|..] == [] && found + [] == found;
      ghost var all := OpenEntries(open, entries);
      assert all.Ok? ==> [] + all.value == all.value;
      return Ok(found);
    }
  }

  lemma PrefixedStep(found: seq<Entry>, more: seq<Entry>, rest: Result<seq<Entry>, Error>)
    ensures Prefixed(found, Prefixed(more, rest)) == Prefixed(found + more, rest)
  {
    if rest.Ok? {
      assert found + (more + rest.value) == (found + more) + rest.value;
    }
  }
}
