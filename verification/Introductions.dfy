/** Signed introductions: what a device signs when it vouches for another device's key. */
module Introductions {
  import opened Wrappers
  import opened Bytes
  import Hex

  /**
   * An abstract Ed25519. `verifies(key, message, signature)` also refuses bytes that are not a
   * key or not a signature.
   */
  datatype SignatureScheme = SignatureScheme(
    publicKey: Octets -> Octets,
    sign: (Octets, Octets) -> Octets,
    verifies: (Octets, Octets, Octets) -> bool)
  {
    /** The one assumption about signatures: what a key signs, its public key verifies. */
    ghost predicate Correct() {
      forall secret: Octets, message: Octets ::
        verifies(publicKey(secret), message, sign(secret, message))
    }
  }

  /** `createdAt` counts nanoseconds. */
  datatype Introduction = Introduction(
    groupId: Uuid,
    identityKey: string,
    introducedBy: string,
    createdAt: int,
    signature: string)

  /** ASCII of `hybridcipher/welcome-signer-introduction/v1` and a line feed. */
  const DOMAIN: Octets := [
    104, 121, 98, 114, 105, 100, 99, 105, 112, 104, 101, 114, 47, 119, 101, 108, 99, 111, 109, 101, 45, 115,
    105, 103, 110, 101, 114, 45, 105, 110, 116, 114, 111, 100, 117, 99, 116, 105, 111, 110, 47, 118, 49, 10]

  function Field(text: string): (b: Octets)
    ensures |b| == 8 + |Utf8(text)|
  {
    BigEndian(|Utf8(text)|, 8) + Utf8(text)
  }

  /** The two's-complement bytes of the time in whole microseconds. */
  function Micros(nanos: int): (m: nat)
    ensures m < TWO64
  {
    (nanos / 1000) % TWO64
  }

  function SignedFields(i: Introduction): (b: Octets) {
    UuidBytes(i.groupId) + (Field(i.identityKey) + (Field(i.introducedBy) + BigEndian(Micros(i.createdAt), 8)))
  }

  function SigningPayload(i: Introduction): (b: Octets) {
    DOMAIN + SignedFields(i)
  }

  predicate IsAuthentic(scheme: SignatureScheme, i: Introduction) {
    var key, signature := Hex.Decode(i.introducedBy), Hex.Decode(i.signature);
    key.Some? && signature.Some? && scheme.verifies(key.value, SigningPayload(i), signature.value)
  }

  /** The introduction a device with secret key `introducer` signs for `key` at time `now`. */
  function Vouch(scheme: SignatureScheme, introducer: Octets, groupId: Uuid, key: Octets, now: int): (i: Introduction)
    ensures i.groupId == groupId && i.identityKey == Hex.Encode(key)
    ensures i.introducedBy == Hex.Encode(scheme.publicKey(introducer))
  {
    var unsigned := Introduction(groupId, Hex.Encode(key), Hex.Encode(scheme.publicKey(introducer)), now, "");
    unsigned.(signature := Hex.Encode(scheme.sign(introducer, SigningPayload(unsigned))))
  }

  /** What `new` signs is authentic. */
  lemma VouchIsAuthentic(scheme: SignatureScheme, introducer: Octets, groupId: Uuid, key: Octets, now: int)
    requires scheme.Correct()
    ensures IsAuthentic(scheme, Vouch(scheme, introducer, groupId, key, now))
  {
    var i := Vouch(scheme, introducer, groupId, key, now);
    assert SigningPayload(i) == SigningPayload(i.(signature := ""));
    Hex.DecodeDigits(scheme.publicKey(introducer), 'a');
    Hex.DecodeDigits(scheme.sign(introducer, SigningPayload(i)), 'a');
  }

  lemma Cut(a: Octets, b: Octets, x: Octets, y: Octets)
    requires |a| == |b| && a + x == b + y
    ensures a == b && x == y
  {
    assert a == (a + x)[..|a|] && b == (b + y)[..|b|];
    assert x == (a + x)[|a|..] && y == (b + y)[|b|..];
  }

  lemma CutPrefixed(m: Octets, n: Octets, a: Octets, b: Octets, x: Octets, y: Octets)
    requires |m| == |n| && (m == n ==> |a| == |b|) && (m + a) + x == (n + b) + y
    ensures a == b && x == y
  {
    assert (m + a) + x == m + (a + x) && (n + b) + y == n + (b + y);
    Cut(m, n, a + x, b + y);
    Cut(a, b, x, y);
  }

  /** A length-prefixed field can be cut off the front of a payload in one way only. */
  lemma FieldPrefixFree(s: string, t: string, x: Octets, y: Octets)
    requires |Utf8(s)| < TWO64 && |Utf8(t)| < TWO64
    requires Field(s) + x == Field(t) + y
    ensures s == t && x == y
  {
    BigEndian64Injective(|Utf8(s)|, |Utf8(t)|);
    CutPrefixed(BigEndian(|Utf8(s)|, 8), BigEndian(|Utf8(t)|, 8), Utf8(s), Utf8(t), x, y);
    Utf8Injective(s, t);
  }

  /**
   * The signed bytes pin every signed field: two introductions share a payload exactly when they
   * agree on the group, both keys and the time to the microsecond.
   */
  lemma PayloadDeterminesFields(i: Introduction, j: Introduction)
    requires |Utf8(i.identityKey)| < TWO64 && |Utf8(i.introducedBy)| < TWO64
    requires |Utf8(j.identityKey)| < TWO64 && |Utf8(j.introducedBy)| < TWO64
    ensures SigningPayload(i) == SigningPayload(j) <==>
            && i.groupId == j.groupId && i.identityKey == j.identityKey
            && i.introducedBy == j.introducedBy && Micros(i.createdAt) == Micros(j.createdAt)
  {
    if SigningPayload(i) == SigningPayload(j) {
      Cut(DOMAIN, DOMAIN, SignedFields(i), SignedFields(j));
      var ti := BigEndian(Micros(i.createdAt), 8);
      var tj := BigEndian(Micros(j.createdAt), 8);
      var ri := Field(i.introducedBy) + ti;
      var rj := Field(j.introducedBy) + tj;
      Cut(UuidBytes(i.groupId), UuidBytes(j.groupId), Field(i.identityKey) + ri, Field(j.identityKey) + rj);
      UuidBytesInjective(i.groupId, j.groupId);
      FieldPrefixFree(i.identityKey, j.identityKey, ri, rj);
      FieldPrefixFree(i.introducedBy, j.introducedBy, ti, tj);
      BigEndian64Injective(Micros(i.createdAt), Micros(j.createdAt));
    }
  }
}
