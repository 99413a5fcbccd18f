/** Epoch numbers as UUIDs: the number in the first eight bytes, a truncated hash of group and number in the rest. */
module EpochIds {
  import opened Wrappers
  import opened Bytes

  type Digest = d: Octets | |d| == 32 witness seq(32, i => 0)

  /** SHA-256, as far as this module looks at it: 32 bytes for every input. */
  type Hash = Octets -> Digest

  type U64 = n: int | 0 <= n < TWO64

  const CONTEXT_TAG: string := "epoch-map-v1"

  function Hashed(group: Octets, epoch: Octets): (b: Octets) {
    group + epoch + Utf8(CONTEXT_TAG)
  }

  function Truncated(d: Digest): (m: Octets)
    ensures |m| == 8
  {
    d[..8]
  }

  function Mac(sha: Hash, epoch: Octets, group: Octets): (m: Octets)
    ensures |m| == 8
  {
    Truncated(sha(Hashed(group, epoch)))
  }

  function U64ToUuid(sha: Hash, epoch: U64, group: Octets): (u: Uuid)
    ensures UuidBytes(u) == BigEndian(epoch, 8) + Mac(sha, BigEndian(epoch, 8), group)
  {
    UuidFromBytes(BigEndian(epoch, 8) + Mac(sha, BigEndian(epoch, 8), group))
  }

  function UuidToU64(sha: Hash, u: Uuid, group: Octets): (r: Option<U64>) {
    var head := UuidBytes(u)[..8];
    FromBigEndianRoundTrip(head);
    Pow256Eight();
    var epoch := FromBigEndian(head);
    if Mac(sha, BigEndian(epoch, 8), group) == UuidBytes(u)[8..16] then Some(epoch) else None
  }

  /** Reading a UUID yields a number exactly when that number maps to that UUID. */
  lemma ExactInverse(sha: Hash, u: Uuid, group: Octets, epoch: U64)
    ensures UuidToU64(sha, u, group) == Some(epoch) <==> U64ToUuid(sha, epoch, group) == u
  {
    var b := UuidBytes(u);
    var head := b[..8];
    FromBigEndianRoundTrip(head);
    Pow256Eight();
    BigEndianRoundTrip(epoch, 8);
    var mapped := U64ToUuid(sha, epoch, group);
    Halves(BigEndian(epoch, 8), Mac(sha, BigEndian(epoch, 8), group), b);
    UuidBytesInjective(mapped, u);
  }

  lemma Halves(x: Octets, y: Octets, b: Octets)
    requires |x| == 8 && |y| == 8 && |b| == 16
    ensures x + y == b <==> x == b[..8] && y == b[8..16]
  {
    if x == b[..8] && y == b[8..16] {
      assert b == b[..8] + b[8..16];
    }
    if x + y == b {
      assert (x + y)[..8] == x && (x + y)[8..16] == y;
    }
  }

  /** Different epochs of a group have different UUIDs. */
  lemma MappingIsInjective(sha: Hash, a: U64, b: U64, group: Octets)
    ensures U64ToUuid(sha, a, group) == U64ToUuid(sha, b, group) ==> a == b
  {
    var u := U64ToUuid(sha, a, group);
    ExactInverse(sha, u, group, a);
    ExactInverse(sha, u, group, b);
  }
}
