/**
 * Code-only recovery kits of one vault: entries are checked, sealed under a key derived from the code,
 * and checked again on opening. The contents can be re-encoded for an account backup.
 */
module RecoveryKit {
  import opened Wrappers
  import opened Bytes
  import opened EpochIds
  import opened Sealing
  import opened Collections
  import opened OrderedMaps
  import Backup = BackupArtifact
  import Plans = RecoveryPlan
  import RecoveryCode

  const KIT_VERSION: nat := 1
  const KIT_KIND: string := "hybridcipher-local-recovery-kit"
  const MAX_KIT_ENTRIES: nat := 10_000
  const ENTRY_KEY_LABEL: string := "hybridcipher/local-kit/v1/entry-key"
  const ENTRY_AAD: string := "hybridcipher/local-kit/v1/entry"

  type Entry = Backup.Entry
  type Rules = Plans.Rules

  datatype KitEpoch = KitEpoch(number: U64, createdAt: int, isActive: bool, key: Octets)

  datatype Contents = Contents(groupId: Uuid, epochs: seq<KitEpoch>)

  datatype KitError = CodeRequired | NotAKit | UnsupportedVersion | NoKeys | TooManyEntries | InvalidSalt
                    | CodeMismatch | CorruptedEntry | MalformedEntry
                    | MixedVaults | WrongIdentifier | InvalidEncoding | InvalidKey | ConflictingKeys

  // ----- `validate_entries`

  function Fault(rules: Rules, e: Entry, group: Uuid): (f: Option<KitError>) {
    if e.groupId != group then Some(MixedVaults)
    else if e.epochNumber == 0 || e.epochUuid != rules.epochUuid(e.epochNumber, group) then Some(WrongIdentifier)
    else if rules.decodeKey(e.encryptionKeyB64).None? then Some(InvalidEncoding)
    else if !Plans.UsableKey(rules.decodeKey(e.encryptionKeyB64).value) then Some(InvalidKey)
    else None
  }

  function EpochOf(rules: Rules, e: Entry): (r: KitEpoch) {
    KitEpoch(e.epochNumber, e.createdAt, e.isActive, Plans.KeyOf(rules, e))
  }

  function NumberOf(e: Entry): (n: U64) {
    e.epochNumber
  }

  function Secret(e: KitEpoch): (key: Octets) {
    e.key
  }

  function Reader(rules: Rules): (read: Entry -> KitEpoch) {
    e => EpochOf(rules, e)
  }

  /** How the scan checks entries and inserts them by epoch number. */
  function Checks(rules: Rules, group: Uuid): (c: Check<Entry, U64, KitEpoch, Octets, KitError>) {
    Check(NumberOf, Reader(rules), Secret, e => Fault(rules, e, group), ConflictingKeys)
  }

  function Validated(rules: Rules, entries: seq<Entry>): (m: map<U64, KitEpoch>) {
    Inserted(NumberOf, Reader(rules), entries)
  }

  function FirstError(rules: Rules, entries: seq<Entry>, group: Uuid): (f: Option<KitError>) {
    ScanError(Checks(rules, group), entries)
  }

  function Number(n: U64): (r: int) {
    n
  }

  ghost function SortedNumbers(s: set<U64>): (q: seq<U64>)
    ensures Lists(q, s, Number) && forall n :: n in q <==> n in s
  {
    var q := Sorted(s, Number);
    assert forall n :: n in q <==> n in Elements(q);
    q
  }

  function EpochList(m: map<U64, KitEpoch>, numbers: seq<U64>): (r: seq<KitEpoch>)
    requires forall n <- numbers :: n in m
    ensures |r| == |numbers| && forall k :: 0 <= k < |numbers| ==> r[k] == m[numbers[k]]
  {
    seq(|numbers|, k requires 0 <= k < |numbers| => m[numbers[k]])
  }

  /** What `validate_entries` returns. */
  ghost function ContentsOf(rules: Rules, entries: seq<Entry>): (r: Result<Contents, KitError>) {
    if entries == [] then Err(NoKeys)
    else if |entries| > MAX_KIT_ENTRIES then Err(TooManyEntries)
    else
      var group := entries[0].groupId;
      var error := FirstError(rules, entries, group);
      if error.Some? then Err(error.value)
      else
        var m := Validated(rules, entries);
        Ok(Contents(group, EpochList(m, SortedNumbers(m.Keys))))
  }

  /** Every entry is sound and of the vault `group`, and no epoch number has two keys. */
  ghost predicate Sealable(rules: Rules, entries: seq<Entry>, group: Uuid) {
    && (forall e <- entries :: Fault(rules, e, group).None?)
    && (forall a <- entries, b <- entries :: a.epochNumber == b.epochNumber
                                            ==> Plans.KeyOf(rules, a) == Plans.KeyOf(rules, b))
  }

  lemma NoErrorIff(rules: Rules, entries: seq<Entry>, group: Uuid)
    ensures FirstError(rules, entries, group).None? <==> Sealable(rules, entries, group)
  {
    var c := Checks(rules, group);
    NoScanErrorIff(c, entries);
    assert forall e :: c.fault(e) == Fault(rules, e, group);
    assert forall e :: c.secret(c.value(e)) == Plans.KeyOf(rules, e) && c.key(e) == e.epochNumber;
  }

  /**
   * Entries make a kit exactly when there are some and at most 10,000, all belong to the first one's
   * vault and are sound, and no epoch number has two keys.
   */
  lemma ContentsExistIff(rules: Rules, entries: seq<Entry>)
    ensures ContentsOf(rules, entries).Ok? <==>
            0 < |entries| <= MAX_KIT_ENTRIES && Sealable(rules, entries, entries[0].groupId)
  {
    if entries != [] {
      NoErrorIff(rules, entries, entries[0].groupId);
    }
  }

  // ----- Re-encoding

  /** Contents a kit can have: ascending nonzero numbers, usable keys. */
  ghost predicate Sound(c: Contents) {
    && 0 < |c.epochs| <= MAX_KIT_ENTRIES
    && (forall i, j :: 0 <= i < j < |c.epochs| ==> c.epochs[i].number < c.epochs[j].number)
    && (forall e <- c.epochs :: e.number != 0 && Plans.UsableKey(e.key))
  }

  lemma ValidatedIsUsable(rules: Rules, entries: seq<Entry>, group: Uuid, n: U64)
    requires Sealable(rules, entries, group) && n in Validated(rules, entries)
    ensures var e := Validated(rules, entries)[n]; e.number == n != 0 && Plans.UsableKey(e.key)
  {
    var k := InsertedFrom(NumberOf, Reader(rules), entries, n);
    assert Fault(rules, entries[k], group).None?;
  }

  lemma ContentsAreSound(rules: Rules, entries: seq<Entry>)
    requires ContentsOf(rules, entries).Ok?
    ensures Sound(ContentsOf(rules, entries).value)
  {
    var group, m := entries[0].groupId, Validated(rules, entries);
    var q := SortedNumbers(m.Keys);
    var c := ContentsOf(rules, entries).value;
    NoErrorIff(rules, entries, group);
    InsertedSize(NumberOf, Reader(rules), entries);
    ListLength(q, m.Keys, Number);
    InsertedHolds(NumberOf, Reader(rules), entries, entries[0]);
    assert entries[0].epochNumber in q;
    forall i | 0 <= i < |q| ensures c.epochs[i].number == q[i] != 0 && Plans.UsableKey(c.epochs[i].key) {
      assert q[i] in q;
      ValidatedIsUsable(rules, entries, group, q[i]);
    }
    assert forall i, j :: 0 <= i < j < |q| ==> Number(q[i]) < Number(q[j]);
  }

  /** Epoch `i` of the contents is that of the first entry with its number. */
  ghost predicate FromFirstEntry(rules: Rules, entries: seq<Entry>, e: KitEpoch) {
    exists k :: 0 <= k < |entries| && IsFirst(NumberOf, entries, k) && e == EpochOf(rules, entries[k])
  }

  /** The contents are the entries: each epoch is a number's first entry, and every entry's number and key are there. */
  ghost predicate Carries(rules: Rules, entries: seq<Entry>, c: Contents) {
    && (forall e <- c.epochs :: FromFirstEntry(rules, entries, e))
    && (forall e <- entries :: e.groupId == c.groupId
                               && exists x <- c.epochs :: x.number == e.epochNumber && x.key == Plans.KeyOf(rules, e))
  }

  lemma ContentsAreTheEntries(rules: Rules, entries: seq<Entry>)
    requires ContentsOf(rules, entries).Ok?
    ensures Carries(rules, entries, ContentsOf(rules, entries).value)
  {
    var group, m := entries[0].groupId, Validated(rules, entries);
    var q, c := SortedNumbers(m.Keys), ContentsOf(rules, entries).value;
    NoErrorIff(rules, entries, group);
    forall x <- c.epochs ensures FromFirstEntry(rules, entries, x) {
      var i :| 0 <= i < |q| && c.epochs[i] == x;
      assert q[i] in q;
      var k := InsertedFrom(NumberOf, Reader(rules), entries, q[i]);
    }
    forall e <- entries
      ensures e.groupId == group && exists x <- c.epochs :: x.number == e.epochNumber && x.key == Plans.KeyOf(rules, e)
    {
      assert Fault(rules, e, group).None?;
      InsertedHolds(NumberOf, Reader(rules), entries, e);
      var k := InsertedFrom(NumberOf, Reader(rules), entries, e.epochNumber);
      assert entries[k] in entries && e.epochNumber in q;
      var i :| 0 <= i < |q| && q[i] == e.epochNumber;
      assert c.epochs[i] in c.epochs && c.epochs[i] == EpochOf(rules, entries[k]);
    }
  }

  /** One epoch as a backup entry. */
  function Reencode(rules: Rules, encode: Octets -> string, group: Uuid, e: KitEpoch): (r: Entry) {
    Backup.Entry(group, e.number, rules.epochUuid(e.number, group), e.createdAt, e.isActive, encode(e.key))
  }

  function ToBackupEntries(rules: Rules, encode: Octets -> string, c: Contents): (entries: seq<Entry>)
    ensures |entries| == |c.epochs|
    ensures forall k :: 0 <= k < |c.epochs| ==> entries[k] == Reencode(rules, encode, c.groupId, c.epochs[k])
  {
    seq(|c.epochs|, k requires 0 <= k < |c.epochs| => Reencode(rules, encode, c.groupId, c.epochs[k]))
  }

  /** Key texts read back. */
  ghost predicate Faithful(rules: Rules, encode: Octets -> string) {
    forall key: Octets :: rules.decodeKey(encode(key)) == Some(key)
  }

  lemma ProgramRulesFaithful(sha: Hash)
    ensures Faithful(Plans.ProgramRules(sha), b => Backup.Encoded(b))
  {
    forall key: Octets ensures Backup.Decoded(Backup.Encoded(key)) == Some(key) {
      Backup.TextRoundTrip(key);
    }
  }

  lemma ReencodedFault(rules: Rules, encode: Octets -> string, c: Contents, k: nat)
    requires Faithful(rules, encode) && Sound(c) && k < |c.epochs|
    ensures var e := ToBackupEntries(rules, encode, c)[k];
            && Fault(rules, e, c.groupId).None? && Plans.KeyOf(rules, e) == c.epochs[k].key
            && forall allowed: set<Uuid> :: c.groupId in allowed ==> Plans.Fault(rules, e, allowed).None?
  {
    assert c.epochs[k] in c.epochs;
    assert rules.decodeKey(encode(c.epochs[k].key)) == Some(c.epochs[k].key);
  }

  lemma ReencodedIsSealable(rules: Rules, encode: Octets -> string, c: Contents, allowed: set<Uuid>)
    requires Faithful(rules, encode) && Sound(c) && c.groupId in allowed
    ensures Sealable(rules, ToBackupEntries(rules, encode, c), c.groupId)
    ensures Plans.Sound(rules, ToBackupEntries(rules, encode, c), allowed)
  {
    var entries := ToBackupEntries(rules, encode, c);
    forall e <- entries ensures Fault(rules, e, c.groupId).None? && Plans.Fault(rules, e, allowed).None? {
      var k :| 0 <= k < |entries| && entries[k] == e;
      ReencodedFault(rules, encode, c, k);
    }
    forall a <- entries, b <- entries | a.epochNumber == b.epochNumber ensures a == b {
      var i :| 0 <= i < |entries| && entries[i] == a;
      var j :| 0 <= j < |entries| && entries[j] == b;
      assert c.epochs[i].number == c.epochs[j].number;
    }
  }

  function Numbers(c: Contents): (q: seq<U64>)
    ensures |q| == |c.epochs| && forall k :: 0 <= k < |q| ==> q[k] == c.epochs[k].number
  {
    seq(|c.epochs|, k requires 0 <= k < |c.epochs| => c.epochs[k].number)
  }

  lemma ReencodedValue(rules: Rules, encode: Octets -> string, c: Contents, k: nat)
    requires Faithful(rules, encode) && Sound(c) && k < |c.epochs|
    ensures var m := Validated(rules, ToBackupEntries(rules, encode, c));
            c.epochs[k].number in m && m[c.epochs[k].number] == c.epochs[k]
  {
    var entries := ToBackupEntries(rules, encode, c);
    forall j | 0 <= j < k ensures NumberOf(entries[j]) != NumberOf(entries[k]) {
      assert c.epochs[j].number < c.epochs[k].number;
    }
    InsertedFirst(NumberOf, Reader(rules), entries, k);
    ReencodedFault(rules, encode, c, k);
  }

  /** The re-encoded entries validate to a map that lists the same epochs. */
  lemma ReencodedMap(rules: Rules, encode: Octets -> string, c: Contents)
    requires Faithful(rules, encode) && Sound(c)
    ensures var m := Validated(rules, ToBackupEntries(rules, encode, c));
            && SortedNumbers(m.Keys) == Numbers(c)
            && forall k :: 0 <= k < |c.epochs| ==> c.epochs[k].number in m && m[c.epochs[k].number] == c.epochs[k]
  {
    var entries := ToBackupEntries(rules, encode, c);
    var m := Validated(rules, entries);
    forall k | 0 <= k < |c.epochs| ensures c.epochs[k].number in m && m[c.epochs[k].number] == c.epochs[k] {
      ReencodedValue(rules, encode, c, k);
    }
    var q := Numbers(c);
    forall n ensures n in Elements(q) <==> n in m.Keys {
      if n in m {
        var k := InsertedFrom(NumberOf, Reader(rules), entries, n);
        assert q[k] == n;
      }
    }
    ListIsUnique<U64>(SortedNumbers(m.Keys), q, m.Keys, Number);
  }

  /** Re-encoding contents and validating again gives back the same contents. */
  lemma ReencodingIsFixedPoint(rules: Rules, encode: Octets -> string, c: Contents)
    requires Faithful(rules, encode) && Sound(c)
    ensures ContentsOf(rules, ToBackupEntries(rules, encode, c)) == Ok(c)
  {
    var entries := ToBackupEntries(rules, encode, c);
    ReencodedIsSealable(rules, encode, c, {c.groupId});
    NoErrorIff(rules, entries, c.groupId);
    ReencodedMap(rules, encode, c);
    var m := Validated(rules, entries);
    assert EpochList(m, Numbers(c)) == c.epochs;
  }

  // ----- Upgrading to an account

  function PlannedEpoch(rules: Rules, group: Uuid, e: KitEpoch): (r: Plans.Epoch) {
    Plans.Epoch(e.number, rules.epochUuid(e.number, group), e.createdAt, e.key)
  }

  function PlannedEpochs(rules: Rules, c: Contents): (r: seq<Plans.Epoch>)
    ensures |r| == |c.epochs| && forall k :: 0 <= k < |r| ==> r[k] == PlannedEpoch(rules, c.groupId, c.epochs[k])
  {
    seq(|c.epochs|, k requires 0 <= k < |c.epochs| => PlannedEpoch(rules, c.groupId, c.epochs[k]))
  }

  function Identities(c: Contents): (q: seq<Plans.Identity>)
    ensures |q| == |c.epochs| && forall k :: 0 <= k < |q| ==> q[k] == Plans.Identity(c.groupId, c.epochs[k].number)
  {
    seq(|c.epochs|, k requires 0 <= k < |c.epochs| => Plans.Identity(c.groupId, c.epochs[k].number))
  }

  lemma ReencodedPlanValue(rules: Rules, encode: Octets -> string, c: Contents, k: nat)
    requires Faithful(rules, encode) && Sound(c) && k < |c.epochs|
    ensures var m := Plans.Validated(rules, ToBackupEntries(rules, encode, c));
            Identities(c)[k] in m && m[Identities(c)[k]] == PlannedEpoch(rules, c.groupId, c.epochs[k])
  {
    var entries := ToBackupEntries(rules, encode, c);
    forall j | 0 <= j < k ensures Plans.IdentityOf(entries[j]) != Plans.IdentityOf(entries[k]) {
      assert c.epochs[j].number < c.epochs[k].number;
    }
    InsertedFirst(Plans.IdentityOf, Plans.Reader(rules), entries, k);
    ReencodedFault(rules, encode, c, k);
  }

  lemma IdentitiesAscend(c: Contents)
    requires Sound(c)
    ensures Ascending(Identities(c), Plans.Rank)
  {
    var q := Identities(c);
    forall i, j | 0 <= i < j < |q| ensures Plans.Rank(q[i]) < Plans.Rank(q[j]) {
      Plans.RankIsLexicographic(q[i], q[j]);
    }
  }

  lemma ReencodedPlanKey(rules: Rules, encode: Octets -> string, c: Contents, id: Plans.Identity)
    requires Faithful(rules, encode) && Sound(c)
    ensures id in Identities(c) <==> id in Plans.Validated(rules, ToBackupEntries(rules, encode, c))
  {
    if id in Identities(c) {
      var k :| 0 <= k < |c.epochs| && Identities(c)[k] == id;
      ReencodedPlanValue(rules, encode, c, k);
    }
    if id in Plans.Validated(rules, ToBackupEntries(rules, encode, c)) {
      var k := InsertedFrom(Plans.IdentityOf, Plans.Reader(rules), ToBackupEntries(rules, encode, c), id);
      assert Identities(c)[k] == id;
    }
  }

  lemma ReencodedPlanKeys(rules: Rules, encode: Octets -> string, c: Contents)
    requires Faithful(rules, encode) && Sound(c)
    ensures var ids := Plans.Validated(rules, ToBackupEntries(rules, encode, c)).Keys;
            Plans.SortedIds(ids) == Identities(c) && Plans.IdsIn(ids, c.groupId) == ids
  {
    var ids, q := Plans.Validated(rules, ToBackupEntries(rules, encode, c)).Keys, Identities(c);
    forall id ensures id in Elements(q) <==> id in ids {
      ReencodedPlanKey(rules, encode, c, id);
    }
    IdentitiesAscend(c);
    ListIsUnique(Plans.SortedIds(ids), q, ids, Plans.Rank);
    assert forall id <- ids :: id in Elements(q) && id.group == c.groupId;
  }

  lemma ReencodedEpochs(rules: Rules, encode: Octets -> string, c: Contents)
    requires Faithful(rules, encode) && Sound(c)
    ensures Plans.EpochsOf(Plans.Validated(rules, ToBackupEntries(rules, encode, c)), c.groupId)
            == PlannedEpochs(rules, c)
  {
    var m := Plans.Validated(rules, ToBackupEntries(rules, encode, c));
    ReencodedPlanKeys(rules, encode, c);
    forall k | 0 <= k < |c.epochs| ensures m[Identities(c)[k]] == PlannedEpochs(rules, c)[k] {
      ReencodedPlanValue(rules, encode, c, k);
    }
  }

  /** The account's restore plan for the re-encoded contents restores the same numbers, dates and keys. */
  lemma UpgradeRestoresContents(rules: Rules, encode: Octets -> string, c: Contents, scope: Plans.Scope)
    requires Faithful(rules, encode) && Sound(c) && scope.groupId == c.groupId
    ensures var r := Plans.PlanOf(rules, ToBackupEntries(rules, encode, c), [scope], None);
            r.Ok? && r.value.groups == [Plans.PlannedGroup(scope, PlannedEpochs(rules, c))]
  {
    var entries := ToBackupEntries(rules, encode, c);
    assert scope in [scope] && c.groupId in Plans.GroupIds([scope]);
    ReencodedIsSealable(rules, encode, c, Plans.GroupIds([scope]));
    ReencodedEpochs(rules, encode, c);
    Plans.PlanOfOneGroup(rules, entries, scope);
  }

  // ----- Sealing

  datatype Kit = Kit(kind: string, version: nat, salt: string, entries: seq<ProtectedData>)

  function DeriveEntryKey(lib: Backup.Library, code: Octets, salt: Octets): (r: Result<Octets, KitError>) {
    if |salt| != Backup.SALT_LEN then Err(InvalidSalt) else Ok(lib.hkdf(salt, lib.argon2(code, salt), ENTRY_KEY_LABEL))
  }

  function SealEntries(lib: Backup.Library, entries: seq<Entry>, nonces: seq<Backup.Nonce>,
                       key: Octets): (sealed: seq<ProtectedData>)
    requires |nonces| == |entries|
    ensures |sealed| == |entries|
    ensures forall k :: 0 <= k < |entries| ==>
              sealed[k] == EncryptWithAd(lib.aead, lib.writeEntry(entries[k]), key, ENTRY_AAD, nonces[k])
  {
    seq(|entries|, k requires 0 <= k < |entries| =>
      EncryptWithAd(lib.aead, lib.writeEntry(entries[k]), key, ENTRY_AAD, nonces[k]))
  }

  /** What `create` returns, given the salt and nonces of the random source. */
  ghost function CreateOf(lib: Backup.Library, rules: Rules, code: Octets, entries: seq<Entry>, salt: Backup.Salt,
                          nonces: seq<Backup.Nonce>):
    (r: Result<Kit, KitError>)
    requires |nonces| == |entries|
  {
    if |code| != RecoveryCode.CODE_BYTES then Err(CodeRequired)
    else if ContentsOf(rules, entries).Err? then Err(ContentsOf(rules, entries).error)
    else Ok(Kit(KIT_KIND, KIT_VERSION, Backup.Encoded(salt),
      SealEntries(lib, entries, nonces, DeriveEntryKey(lib, code, salt).value)))
  }

  function CheckHeader(kit: Kit): (e: Option<KitError>) {
    if kit.kind != KIT_KIND then Some(NotAKit)
    else if kit.version != KIT_VERSION then Some(UnsupportedVersion)
    else if kit.entries == [] then Some(NoKeys)
    else if |kit.entries| > MAX_KIT_ENTRIES then Some(TooManyEntries)
    else None
  }

  /** How one sealed entry is opened; failing on the first one means the code is wrong. */
  function OpenEntry(lib: Backup.Library, p: ProtectedData, key: Octets, index: nat): (r: Result<Entry, KitError>) {
    var text := DecryptWithAd(lib.aead, p, key, ENTRY_AAD);
    if text.None? then Err(if index == 0 then CodeMismatch else CorruptedEntry)
    else
      var e := lib.readEntry(text.value);
      if e.None? then Err(MalformedEntry) else Ok(e.value)
  }

  type Opener = (ProtectedData, nat) -> Result<Entry, KitError>

  function OpenerFor(lib: Backup.Library, key: Octets): (open: Opener) {
    (p: ProtectedData, index: nat) => OpenEntry(lib, p, key, index)
  }

  /** The sealed entries opened in order, up to the first that fails. */
  function OpenAll(open: Opener, sealed: seq<ProtectedData>): (r: Result<seq<Entry>, KitError>)
    ensures r.Ok? ==> |r.value| == |sealed|
    decreases |sealed|
  {
    if sealed == [] then Ok([])
    else
      var before := OpenAll(open, sealed[..|sealed| - 1]);
      if before.Err? then before
      else
        var last := open(sealed[|sealed| - 1], |sealed| - 1);
        if last.Err? then Err(last.error) else Ok(before.value + [last.value])
  }

  /** What `open` returns. */
  ghost function OpenOf(lib: Backup.Library, rules: Rules, kit: Kit, code: Octets): (r: Result<Contents, KitError>) {
    if |code| != RecoveryCode.CODE_BYTES then Err(CodeRequired)
    else if CheckHeader(kit).Some? then Err(CheckHeader(kit).value)
    else
      var salt := Backup.Decoded(kit.salt);
      if salt.None? then Err(InvalidSalt)
      else
        var key := DeriveEntryKey(lib, code, salt.value);
        if key.Err? then Err(key.error)
        else
          var entries := OpenAll(OpenerFor(lib, key.value), kit.entries);
          if entries.Err? then Err(entries.error) else ContentsOf(rules, entries.value)
  }

  lemma {:induction false} OpenAllReads(open: Opener, sealed: seq<ProtectedData>, entries: seq<Entry>)
    requires |sealed| == |entries| && forall k :: 0 <= k < |sealed| ==> open(sealed[k], k) == Ok(entries[k])
    ensures OpenAll(open, sealed) == Ok(entries)
    decreases |sealed|
  {
    if sealed != [] {
      OpenAllReads(open, sealed[..|sealed| - 1], entries[..|entries| - 1]);
      assert entries == entries[..|entries| - 1] + [entries[|entries| - 1]];
    }
  }

  lemma SealedEntryOpens(lib: Backup.Library, e: Entry, nonce: Backup.Nonce, key: Octets, index: nat)
    requires lib.Correct()
    ensures OpenEntry(lib, EncryptWithAd(lib.aead, lib.writeEntry(e), key, ENTRY_AAD, nonce), key, index) == Ok(e)
  {
    SealedOpens(lib.aead, lib.writeEntry(e), key, ENTRY_AAD, nonce);
  }

  /** Opening a created kit with the same code returns what validating the sealed entries returns. */
  lemma OpenCreated(lib: Backup.Library, rules: Rules, code: Octets, entries: seq<Entry>, salt: Backup.Salt,
                    nonces: seq<Backup.Nonce>)
    requires lib.Correct() && |nonces| == |entries|
    requires CreateOf(lib, rules, code, entries, salt, nonces).Ok?
    ensures ContentsOf(rules, entries).Ok?
    ensures OpenOf(lib, rules, CreateOf(lib, rules, code, entries, salt, nonces).value, code)
            == ContentsOf(rules, entries)
  {
    var kit := CreateOf(lib, rules, code, entries, salt, nonces).value;
    var key := DeriveEntryKey(lib, code, salt).value;
    Backup.TextRoundTrip(salt);
    ContentsExistIff(rules, entries);
    var open := OpenerFor(lib, key);
    forall k | 0 <= k < |entries| ensures open(kit.entries[k], k) == Ok(entries[k]) {
      SealedEntryOpens(lib, entries[k], nonces[k], key, k);
    }
    OpenAllReads(open, kit.entries, entries);
  }

  /** In a vault the first entry of a number is the first of its identity. */
  lemma FirstOfVault(rules: Rules, entries: seq<Entry>, group: Uuid, k: nat)
    requires Sealable(rules, entries, group) && k < |entries|
    ensures IsFirst(NumberOf, entries, k) <==> IsFirst(Plans.IdentityOf, entries, k)
    ensures entries[k].groupId == group && entries[k].epochUuid == rules.epochUuid(entries[k].epochNumber, group)
  {
    forall j | 0 <= j <= k ensures Fault(rules, entries[j], group).None? {
      assert entries[j] in entries;
    }
  }

  lemma KitHoldsVault(rules: Rules, entries: seq<Entry>, k: nat)
    requires ContentsOf(rules, entries).Ok? && k < |entries| && IsFirst(NumberOf, entries, k)
    ensures EpochOf(rules, entries[k]) in ContentsOf(rules, entries).value.epochs
  {
    var m := Validated(rules, entries);
    var q := SortedNumbers(m.Keys);
    InsertedFirst(NumberOf, Reader(rules), entries, k);
    assert entries[k].epochNumber in q;
    var i :| 0 <= i < |q| && q[i] == entries[k].epochNumber;
    assert ContentsOf(rules, entries).value.epochs[i] == EpochOf(rules, entries[k]);
  }

  /** What the account's scan makes of a vault's epoch is the same before and after the kit. */
  lemma SameInAccount(rules: Rules, encode: Octets -> string, entries: seq<Entry>, c: Contents, k: nat)
    requires Faithful(rules, encode) && ContentsOf(rules, entries) == Ok(c) && Sound(c)
    requires Sealable(rules, entries, c.groupId) && k < |entries| && IsFirst(NumberOf, entries, k)
    ensures var m := Plans.Validated(rules, ToBackupEntries(rules, encode, c));
            Plans.IdentityOf(entries[k]) in m && m[Plans.IdentityOf(entries[k])] == Plans.EpochOf(rules, entries[k])
  {
    FirstOfVault(rules, entries, c.groupId, k);
    KitHoldsVault(rules, entries, k);
    var i :| 0 <= i < |c.epochs| && c.epochs[i] == EpochOf(rules, entries[k]);
    ReencodedPlanValue(rules, encode, c, i);
  }

  lemma KitKeepsIdentity(rules: Rules, encode: Octets -> string, entries: seq<Entry>, c: Contents, id: Plans.Identity)
    requires Faithful(rules, encode) && ContentsOf(rules, entries) == Ok(c) && Sound(c)
    requires Sealable(rules, entries, c.groupId) && id in Plans.Validated(rules, entries)
    ensures var m := Plans.Validated(rules, ToBackupEntries(rules, encode, c));
            id in m && m[id] == Plans.Validated(rules, entries)[id]
  {
    var k := InsertedFrom(Plans.IdentityOf, Plans.Reader(rules), entries, id);
    FirstOfVault(rules, entries, c.groupId, k);
    SameInAccount(rules, encode, entries, c, k);
  }

  lemma KitAddsNoIdentity(rules: Rules, encode: Octets -> string, entries: seq<Entry>, c: Contents, id: Plans.Identity)
    requires Faithful(rules, encode) && Sound(c) && Carries(rules, entries, c)
    requires id in Plans.Validated(rules, ToBackupEntries(rules, encode, c))
    ensures id in Plans.Validated(rules, entries)
  {
    var i := InsertedFrom(Plans.IdentityOf, Plans.Reader(rules), ToBackupEntries(rules, encode, c), id);
    assert c.epochs[i] in c.epochs;
    var k :| 0 <= k < |entries| && IsFirst(NumberOf, entries, k) && c.epochs[i] == EpochOf(rules, entries[k]);
    assert entries[k] in entries;
    InsertedHolds(Plans.IdentityOf, Plans.Reader(rules), entries, entries[k]);
  }

  /** The account reads the re-encoded contents as it would have read the entries themselves. */
  lemma KitKeepsMap(rules: Rules, encode: Octets -> string, entries: seq<Entry>, c: Contents)
    requires Faithful(rules, encode) && ContentsOf(rules, entries) == Ok(c)
    requires Sound(c) && Sealable(rules, entries, c.groupId) && Carries(rules, entries, c)
    ensures Plans.Validated(rules, ToBackupEntries(rules, encode, c)) == Plans.Validated(rules, entries)
  {
    var m, n := Plans.Validated(rules, ToBackupEntries(rules, encode, c)), Plans.Validated(rules, entries);
    forall id | id in n ensures id in m && m[id] == n[id] {
      KitKeepsIdentity(rules, encode, entries, c, id);
    }
    forall id | id in m ensures id in n {
      KitAddsNoIdentity(rules, encode, entries, c, id);
    }
    EqualMaps(m, n);
  }

  lemma VaultIsInScope(rules: Rules, entries: seq<Entry>, group: Uuid, allowed: set<Uuid>)
    requires Sealable(rules, entries, group) && group in allowed
    ensures Plans.Sound(rules, entries, allowed)
  {
    forall e <- entries ensures Plans.Fault(rules, e, allowed).None? {
      assert Fault(rules, e, group).None?;
    }
  }

  /**
   * A kit survives the whole way: created, opened, re-encoded and planned into the account, it gives the very
   * plan that the entries it was made from would have given, and its contents are those entries.
   */
  lemma KitToAccount(lib: Backup.Library, rules: Rules, encode: Octets -> string, code: Octets, entries: seq<Entry>,
                     salt: Backup.Salt, nonces: seq<Backup.Nonce>, scope: Plans.Scope)
    requires lib.Correct() && Faithful(rules, encode) && |nonces| == |entries|
    requires entries != [] && scope.groupId == entries[0].groupId
    ensures var kit := CreateOf(lib, rules, code, entries, salt, nonces);
            kit.Ok? ==>
              && var c := OpenOf(lib, rules, kit.value, code);
              && c.Ok? && c == ContentsOf(rules, entries) && Carries(rules, entries, c.value)
              && var r := Plans.PlanOf(rules, ToBackupEntries(rules, encode, c.value), [scope], None);
              && r.Ok? && r.value.groups == [Plans.PlannedGroup(scope, PlannedEpochs(rules, c.value))]
              && r == Plans.PlanOf(rules, entries, [scope], None)
  {
    if CreateOf(lib, rules, code, entries, salt, nonces).Ok? {
      OpenCreated(lib, rules, code, entries, salt, nonces);
      ContentsAreTheEntries(rules, entries);
      KitPlansAsEntries(rules, encode, entries, scope);
    }
  }

  lemma KitPlansAsEntries(rules: Rules, encode: Octets -> string, entries: seq<Entry>, scope: Plans.Scope)
    requires Faithful(rules, encode) && ContentsOf(rules, entries).Ok? && scope.groupId == entries[0].groupId
    ensures var c := ContentsOf(rules, entries).value;
            var r := Plans.PlanOf(rules, ToBackupEntries(rules, encode, c), [scope], None);
            && r.Ok? && r.value.groups == [Plans.PlannedGroup(scope, PlannedEpochs(rules, c))]
            && r == Plans.PlanOf(rules, entries, [scope], None)
  {
    var c, allowed := ContentsOf(rules, entries).value, Plans.GroupIds([scope]);
    assert scope in [scope] && scope.groupId in allowed;
    ContentsAreSound(rules, entries);
    ContentsAreTheEntries(rules, entries);
    NoErrorIff(rules, entries, scope.groupId);
    UpgradeRestoresContents(rules, encode, c, scope);
    ReencodedIsSealable(rules, encode, c, allowed);
    VaultIsInScope(rules, entries, scope.groupId, allowed);
    KitKeepsMap(rules, encode, entries, c);
    Plans.SameMapSamePlan(rules, ToBackupEntries(rules, encode, c), entries, [scope], None);
  }

  // ----- The program

  method ScanEntries(rules: Rules, entries: seq<Entry>, group: Uuid) returns (r: Result<map<U64, KitEpoch>, KitError>)
    ensures var error := FirstError(rules, entries, group);
            r == if error.Some? then Err(error.value) else Ok(Validated(rules, entries))
  {
    var epochs: map<U64, KitEpoch> := map[];
    for k := 0 to |entries|
      invariant epochs == Validated(rules, entries[..k]) && FirstError(rules, entries[..k], group).None?
    {
      var e := entries[k];
      ScanStep(Checks(rules, group), entries, k);
      if e.groupId != group {
        return Err(MixedVaults);
      }
      if e.epochNumber == 0 || e.epochUuid != rules.epochUuid(e.epochNumber, group) {
        return Err(WrongIdentifier);
      }
      var decoded := rules.decodeKey(e.encryptionKeyB64);
      if decoded.None? {
        return Err(InvalidEncoding);
      }
      if !Plans.UsableKey(decoded.value) {
        return Err(InvalidKey);
      }
      if e.epochNumber in epochs {
        if epochs[e.epochNumber].key != decoded.value {
          return Err(ConflictingKeys);
        }
      } else {
        epochs := epochs[e.epochNumber := KitEpoch(e.epochNumber, e.createdAt, e.isActive, decoded.value)];
      }
    }
    assert entries[..|entries|] == entries;
    return Ok(epochs);
  }

  method ValidateEntries(rules: Rules, entries: seq<Entry>) returns (r: Result<Contents, KitError>)
    ensures r == ContentsOf(rules, entries)
  {
    if |entries| == 0 {
      return Err(NoKeys);
    }
    var group := entries[0].groupId;
    if |entries| > MAX_KIT_ENTRIES {
      return Err(TooManyEntries);
    }
    var scanned := ScanEntries(rules, entries, group);
    if scanned.Err? {
      return Err(scanned.error);
    }
    var epochs := scanned.value;
    var numbers: seq<U64> := SortKeys<U64>(epochs.Keys, Number);
    ListIsUnique<U64>(numbers, SortedNumbers(epochs.Keys), epochs.Keys, Number);
    return Ok(Contents(group, EpochList(epochs, numbers)));
  }

  method CreateKit(lib: Backup.Library, rules: Rules, code: Octets, entries: seq<Entry>, salt: Backup.Salt,
                   nonces: seq<Backup.Nonce>)
    returns (r: Result<Kit, KitError>)
    requires |nonces| == |entries|
    ensures r == CreateOf(lib, rules, code, entries, salt, nonces)
  {
    if |code| != RecoveryCode.CODE_BYTES {
      return Err(CodeRequired);
    }
    var valid := ValidateEntries(rules, entries);
    if valid.Err? {
      return Err(valid.error);
    }
    var key := DeriveEntryKey(lib, code, salt);
    var sealed := SealInOrder(lib, entries, nonces, key.value);
    return Ok(Kit(KIT_KIND, KIT_VERSION, Backup.Encoded(salt), sealed));
  }

  method SealInOrder(lib: Backup.Library, entries: seq<Entry>, nonces: seq<Backup.Nonce>, key: Octets)
    returns (sealed: seq<ProtectedData>)
    requires |nonces| == |entries|
    ensures sealed == SealEntries(lib, entries, nonces, key)
  {
    sealed := [];
    for k := 0 to |entries|
      invariant sealed == SealEntries(lib, entries, nonces, key)[..k]
    {
      sealed := sealed + [EncryptWithAd(lib.aead, lib.writeEntry(entries[k]), key, ENTRY_AAD, nonces[k])];
    }
  }

  lemma {:induction false} OpenAllStops(open: Opener, sealed: seq<ProtectedData>, k: nat)
    requires k <= |sealed| && OpenAll(open, sealed[..k]).Err?
    ensures OpenAll(open, sealed) == OpenAll(open, sealed[..k])
    decreases |sealed|
  {
    if k == |sealed| {
      assert sealed[..k] == sealed;
    } else {
      var init := sealed[..|sealed| - 1];
      assert init[..k] == sealed[..k];
      OpenAllStops(open, init, k);
    }
  }

  method OpenKit(lib: Backup.Library, rules: Rules, kit: Kit, code: Octets) returns (r: Result<Contents, KitError>)
    ensures r == OpenOf(lib, rules, kit, code)
  {
    if |code| != RecoveryCode.CODE_BYTES {
      return Err(CodeRequired);
    }
    var header := CheckHeader(kit);
    if header.Some? {
      return Err(header.value);
    }
    var salt := Backup.Decoded(kit.salt);
    if salt.None? {
      return Err(InvalidSalt);
    }
    var key := DeriveEntryKey(lib, code, salt.value);
    if key.Err? {
      return Err(key.error);
    }
    var entries := OpenInOrder(OpenerFor(lib, key.value), kit.entries);
    if entries.Err? {
      return Err(entries.error);
    }
    r := ValidateEntries(rules, entries.value);
  }

  method OpenInOrder(open: Opener, sealed: seq<ProtectedData>) returns (r: Result<seq<Entry>, KitError>)
    ensures r == OpenAll(open, sealed)
  {
    var entries: seq<Entry> := [];
    for index := 0 to |sealed|
      invariant OpenAll(open, sealed[..index]) == Ok(entries)
    {
      ghost var upTo := sealed[..index + 1];
      assert upTo[..index] == sealed[..index];
      var e := open(sealed[index], index);
      if e.Err? {
        OpenAllStops(open, sealed, index + 1);
        return Err(e.error);
      }
      entries := entries + [e.value];
    }
    assert sealed[..|sealed|] == sealed;
    return Ok(entries);
  }
}
