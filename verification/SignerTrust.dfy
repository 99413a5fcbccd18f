/**
 * One device's trusted Welcome signers for one group. The set starts from a seed and grows only
 * through signed introductions; `absorb` follows chains of them to a fixpoint.
 */
module SignerTrust {
  import opened Bytes
  import opened Collections
  import opened Introductions
  import Hex

  /** The state of a `GroupSignerTrust`, with the seed it started from. */
  datatype Trust = Trust(group: Uuid, seed: set<string>, trusted: set<string>, introductions: seq<Introduction>)

  /** Whether an introduction's signature checks out. */
  type Oracle = Introduction -> bool

  /** The keys that a list of introductions vouches for. */
  function Introduced(list: seq<Introduction>): (keys: set<string>) {
    set i | i in list :: i.identityKey
  }

  predicate Usable(authentic: Oracle, group: Uuid, i: Introduction) {
    i.groupId == group && authentic(i)
  }

  function UsableIn(authentic: Oracle, group: Uuid, list: seq<Introduction>): (r: set<Introduction>) {
    set i | i in list && Usable(authentic, group, i)
  }

  /** Every introduction is made by a key of `keys` or by one introduced earlier in the list. */
  ghost predicate Justified(keys: set<string>, list: seq<Introduction>) {
    forall k :: 0 <= k < |list| ==> list[k].introducedBy in keys + Introduced(list[..k])
  }

  /** What every run keeps. */
  ghost predicate Valid(authentic: Oracle, t: Trust) {
    && (forall i <- t.introductions :: Usable(authentic, t.group, i))
    && Distinct(t.introductions)
    && Justified(t.seed, t.introductions)
    && t.trusted == t.seed + Introduced(t.introductions)
  }

  // ----- Least fixpoints of introductions

  ghost predicate Closed(keys: set<string>, introductions: set<Introduction>) {
    forall i <- introductions :: i.introducedBy in keys ==> i.identityKey in keys
  }

  /** `keys` is the least set that contains `base` and follows every introduction given. */
  ghost predicate IsLeastClosure(base: set<string>, introductions: set<Introduction>, keys: set<string>) {
    && base <= keys
    && Closed(keys, introductions)
    && forall other :: base <= other && Closed(other, introductions) ==> keys <= other
  }

  lemma LeastClosureUnique(base: set<string>, introductions: set<Introduction>, a: set<string>, b: set<string>)
    requires IsLeastClosure(base, introductions, a) && IsLeastClosure(base, introductions, b)
    ensures a == b
  {
    assert a <= b && b <= a;
  }

  /** A chain of introductions that leads from a key of `base` to `key`. */
  ghost predicate IsChain(base: set<string>, introductions: set<Introduction>, chain: seq<Introduction>, key: string)
    decreases |chain|
  {
    if chain == [] then key in base
    else
      var last := chain[|chain| - 1];
      last in introductions && last.identityKey == key
        && IsChain(base, introductions, chain[..|chain| - 1], last.introducedBy)
  }

  ghost predicate Reachable(base: set<string>, introductions: set<Introduction>, key: string) {
    exists chain :: IsChain(base, introductions, chain, key)
  }

  lemma {:induction false} ChainStaysInside(base: set<string>, introductions: set<Introduction>,
                                            chain: seq<Introduction>, key: string, keys: set<string>)
    requires base <= keys && Closed(keys, introductions)
    requires IsChain(base, introductions, chain, key)
    ensures key in keys
    decreases |chain|
  {
    if chain != [] {
      ChainStaysInside(base, introductions, chain[..|chain| - 1], chain[|chain| - 1].introducedBy, keys);
    }
  }

  /** The least closure is exactly what chains reach. */
  lemma LeastClosureIsReachability(base: set<string>, introductions: set<Introduction>, keys: set<string>, key: string)
    requires IsLeastClosure(base, introductions, keys)
    ensures key in keys <==> Reachable(base, introductions, key)
  {
    forall chain | IsChain(base, introductions, chain, key) ensures key in keys {
      ChainStaysInside(base, introductions, chain, key, keys);
    }
    var reached := set k | k in keys && Reachable(base, introductions, k);
    forall k | k in base ensures k in reached {
      assert IsChain(base, introductions, [], k);
    }
    forall i <- introductions | i.introducedBy in reached ensures i.identityKey in reached {
      var chain :| IsChain(base, introductions, chain, i.introducedBy);
      assert (chain + [i])[..|chain|] == chain;
      assert IsChain(base, introductions, chain + [i], i.identityKey);
    }
    assert keys <= reached;
  }

  // ----- `absorb`

  predicate Accepts(authentic: Oracle, t: Trust, i: Introduction) {
    i.groupId == t.group && i.introducedBy in t.trusted && i !in t.introductions && authentic(i)
  }

  function Accept(t: Trust, i: Introduction): (r: Trust) {
    t.(trusted := t.trusted + {i.identityKey}, introductions := t.introductions + [i])
  }

  /** One pass over the list. */
  function Pass(authentic: Oracle, t: Trust, list: seq<Introduction>): (r: Trust)
    decreases |list|
  {
    if list == [] then t
    else Pass(authentic, if Accepts(authentic, t, list[0]) then Accept(t, list[0]) else t, list[1..])
  }

  lemma {:induction false} PassGrows(authentic: Oracle, t: Trust, list: seq<Introduction>)
    ensures var r := Pass(authentic, t, list);
            && r.group == t.group && r.seed == t.seed && t.trusted <= r.trusted
            && t.introductions <= r.introductions
            && (forall k :: |t.introductions| <= k < |r.introductions| ==>
                 var i := r.introductions[k];
                 i in list && i !in t.introductions && Usable(authentic, t.group, i))
            && (r.introductions == t.introductions ==> r == t && forall i <- list :: !Accepts(authentic, t, i))
    decreases |list|
  {
    if list != [] {
      PassGrows(authentic, if Accepts(authentic, t, list[0]) then Accept(t, list[0]) else t, list[1..]);
    }
  }

  /** How many of the supplied introductions are not stored yet: the measure of `absorb`'s loop. */
  ghost function Pending(t: Trust, list: seq<Introduction>): (n: nat) {
    |Elements(list) - Elements(t.introductions)|
  }

  lemma ProgressShrinksPending(authentic: Oracle, t: Trust, list: seq<Introduction>)
    ensures var r := Pass(authentic, t, list);
            r.introductions != t.introductions ==> Pending(r, list) < Pending(t, list)
  {
    PassGrows(authentic, t, list);
    var r := Pass(authentic, t, list);
    if r.introductions != t.introductions {
      var added := r.introductions[|t.introductions|];
      var before, after := Elements(list) - Elements(t.introductions), Elements(list) - Elements(r.introductions);
      assert added in before && added !in after;
      assert after <= before - {added};
      SubsetSize(after, before - {added});
    }
  }

  /** `absorb`: passes repeat until one accepts nothing. */
  function Absorb(authentic: Oracle, t: Trust, list: seq<Introduction>): (r: Trust)
    decreases Pending(t, list)
  {
    ProgressShrinksPending(authentic, t, list);
    var next := Pass(authentic, t, list);
    if next.introductions == t.introductions then t else Absorb(authentic, next, list)
  }

  lemma {:induction false} PassKeepsValid(authentic: Oracle, t: Trust, list: seq<Introduction>)
    requires Valid(authentic, t)
    ensures Valid(authentic, Pass(authentic, t, list))
    decreases |list|
  {
    if list != [] {
      if Accepts(authentic, t, list[0]) {
        AcceptKeepsValid(authentic, t, list[0]);
        PassKeepsValid(authentic, Accept(t, list[0]), list[1..]);
      } else {
        PassKeepsValid(authentic, t, list[1..]);
      }
    }
  }

  lemma AcceptKeepsValid(authentic: Oracle, t: Trust, i: Introduction)
    requires Valid(authentic, t) && Accepts(authentic, t, i)
    ensures Valid(authentic, Accept(t, i))
  {
    JustifiedAppend(t.seed, t.introductions, i);
    DistinctAppend(t.introductions, i);
    IntroducedAppend(t.introductions, i);
  }

  lemma JustifiedAppend(seed: set<string>, list: seq<Introduction>, i: Introduction)
    requires Justified(seed, list) && i.introducedBy in seed + Introduced(list)
    ensures Justified(seed, list + [i])
  {
    var more := list + [i];
    forall k | 0 <= k < |more| ensures more[k].introducedBy in seed + Introduced(more[..k]) {
      assert more[..k] == list[..k];
      assert k == |list| ==> list[..k] == list;
    }
  }

  lemma DistinctAppend<T>(s: seq<T>, x: T)
    requires Distinct(s) && x !in s
    ensures Distinct(s + [x])
  {
  }

  lemma IntroducedAppend(list: seq<Introduction>, i: Introduction)
    ensures Introduced(list + [i]) == Introduced(list) + {i.identityKey}
  {
    assert i in list + [i];
    forall k | k in Introduced(list) ensures k in Introduced(list + [i]) {
      var j :| j in list && j.identityKey == k;
      assert j in list + [i];
    }
  }

  /** A pass never leaves a closed set. */
  lemma {:induction false} PassStaysInside(authentic: Oracle, t: Trust, list: seq<Introduction>, keys: iset<string>)
    requires forall k <- t.trusted :: k in keys
    requires forall i <- list :: Usable(authentic, t.group, i) && i.introducedBy in keys ==> i.identityKey in keys
    ensures forall k <- Pass(authentic, t, list).trusted :: k in keys
    decreases |list|
  {
    if list != [] {
      var u := if Accepts(authentic, t, list[0]) then Accept(t, list[0]) else t;
      PassStaysInside(authentic, u, list[1..], keys);
    }
  }

  lemma {:induction false} AbsorbStaysInside(authentic: Oracle, t: Trust, list: seq<Introduction>, keys: iset<string>)
    requires forall k <- t.trusted :: k in keys
    requires forall i <- list :: Usable(authentic, t.group, i) && i.introducedBy in keys ==> i.identityKey in keys
    ensures forall k <- Absorb(authentic, t, list).trusted :: k in keys
    decreases Pending(t, list)
  {
    ProgressShrinksPending(authentic, t, list);
    PassStaysInside(authentic, t, list, keys);
    PassGrows(authentic, t, list);
    var next := Pass(authentic, t, list);
    if next.introductions != t.introductions {
      AbsorbStaysInside(authentic, next, list, keys);
    }
  }

  lemma {:induction false} AbsorbGrows(authentic: Oracle, t: Trust, list: seq<Introduction>)
    requires Valid(authentic, t)
    ensures var r := Absorb(authentic, t, list);
            && Valid(authentic, r)
            && r.group == t.group && r.seed == t.seed && t.trusted <= r.trusted
            && t.introductions <= r.introductions
            && (forall k :: |t.introductions| <= k < |r.introductions| ==> r.introductions[k] in list)
    decreases Pending(t, list)
  {
    ProgressShrinksPending(authentic, t, list);
    PassKeepsValid(authentic, t, list);
    PassGrows(authentic, t, list);
    var next := Pass(authentic, t, list);
    if next.introductions != t.introductions {
      AbsorbGrows(authentic, next, list);
    }
  }

  /** Nothing more of the list can be accepted. */
  lemma {:induction false} AbsorbExhausts(authentic: Oracle, t: Trust, list: seq<Introduction>)
    ensures forall i <- list :: !Accepts(authentic, Absorb(authentic, t, list), i)
    decreases Pending(t, list)
  {
    ProgressShrinksPending(authentic, t, list);
    var next := Pass(authentic, t, list);
    if next.introductions != t.introductions {
      AbsorbExhausts(authentic, next, list);
    } else {
      PassGrows(authentic, t, list);
    }
  }

  /** What `absorb` promises of the state before, the list supplied and the state after. */
  ghost predicate Absorbed(authentic: Oracle, t: Trust, list: seq<Introduction>, r: Trust) {
    var usable := UsableIn(authentic, t.group, list);
    && r.group == t.group && r.seed == t.seed
    && t.introductions <= r.introductions
    && IsLeastClosure(t.trusted, usable, r.trusted)
    && Elements(r.introductions) == Elements(t.introductions) + (set i | i in usable && i.introducedBy in r.trusted)
  }

  /**
   * On every list, `absorb` leaves the least set that contains the old one and follows the
   * authentic introductions for this group, and stores exactly the ones whose introducer is in it.
   */
  lemma AbsorbReachesLeastClosure(authentic: Oracle, t: Trust, list: seq<Introduction>)
    requires Valid(authentic, t)
    ensures Valid(authentic, Absorb(authentic, t, list))
    ensures Absorbed(authentic, t, list, Absorb(authentic, t, list))
  {
    AbsorbGrows(authentic, t, list);
    AbsorbExhausts(authentic, t, list);
    var r := Absorb(authentic, t, list);
    var usable := UsableIn(authentic, t.group, list);
    forall i <- usable | i.introducedBy in r.trusted ensures i in r.introductions && i.identityKey in r.trusted {
      assert !Accepts(authentic, r, i);
      assert i.identityKey in Introduced(r.introductions);
    }
    forall other | t.trusted <= other && Closed(other, usable) ensures r.trusted <= other {
      AbsorbStaysInside(authentic, t, list, iset k | k in other);
    }
    forall i | i in r.introductions && i !in t.introductions
      ensures i in usable && i.introducedBy in r.trusted
    {
      var k :| 0 <= k < |r.introductions| && r.introductions[k] == i;
      assert i in list;
      StoredIntroducersTrusted(authentic, r, k);
    }
  }

  lemma StoredIntroducersTrusted(authentic: Oracle, t: Trust, k: nat)
    requires Valid(authentic, t) && k < |t.introductions|
    ensures t.introductions[k].introducedBy in t.trusted && t.introductions[k].identityKey in t.trusted
  {
    assert t.introductions[k].introducedBy in t.seed + Introduced(t.introductions[..k]);
    assert Introduced(t.introductions[..k]) <= Introduced(t.introductions);
    assert t.introductions[k].identityKey in Introduced(t.introductions);
  }

  /** Neither the order nor the repetition of the supplied introductions matters. */
  lemma AbsorbIgnoresOrder(authentic: Oracle, t: Trust, list: seq<Introduction>, other: seq<Introduction>)
    requires Valid(authentic, t)
    requires Elements(list) == Elements(other)
    ensures Absorb(authentic, t, list).trusted == Absorb(authentic, t, other).trusted
    ensures Elements(Absorb(authentic, t, list).introductions) == Elements(Absorb(authentic, t, other).introductions)
  {
    AbsorbReachesLeastClosure(authentic, t, list);
    AbsorbReachesLeastClosure(authentic, t, other);
    forall i ensures i in list <==> i in other {
      assert i in Elements(list) <==> i in Elements(other);
    }
    assert UsableIn(authentic, t.group, list) == UsableIn(authentic, t.group, other);
    LeastClosureUnique(t.trusted, UsableIn(authentic, t.group, list),
      Absorb(authentic, t, list).trusted, Absorb(authentic, t, other).trusted);
  }

  // ----- `introduce`

  /** `introduce`, where `i` is the introduction the device would sign. */
  function Introduce(t: Trust, i: Introduction): (r: Trust) {
    if i.identityKey in t.trusted || i.introducedBy !in t.trusted then t else Accept(t, i)
  }

  /** An introduction a device makes is one that `absorb` would accept. */
  lemma IntroduceKeepsValid(authentic: Oracle, t: Trust, i: Introduction)
    requires Valid(authentic, t) && Usable(authentic, t.group, i)
    ensures Valid(authentic, Introduce(t, i))
  {
    if i.identityKey !in t.trusted && i.introducedBy in t.trusted {
      assert i !in t.introductions by {
        assert i.identityKey !in Introduced(t.introductions);
      }
      AcceptKeepsValid(authentic, t, i);
    }
  }

  lemma VouchIsUsable(scheme: SignatureScheme, authentic: Oracle, introducer: Octets, group: Uuid, key: Octets,
                      now: int)
    requires scheme.Correct()
    requires forall i :: authentic(i) <==> IsAuthentic(scheme, i)
    ensures Usable(authentic, group, Vouch(scheme, introducer, group, key, now))
  {
    VouchIsAuthentic(scheme, introducer, group, key, now);
  }

  // ----- Rebuilding and joining trust sets

  /** Trust exactly `keys`. */
  function Seeded(group: Uuid, keys: seq<Octets>): (t: Trust) {
    var seed := set k | k in keys :: Hex.Encode(k);
    Trust(group, seed, seed, [])
  }

  /**
   * A device that already trusts a peer's seed and absorbs the peer's list ends with the union of
   * both trusted sets and of both lists.
   */
  lemma AbsorbJoinsPeer(authentic: Oracle, t: Trust, peer: Trust)
    requires Valid(authentic, t) && Valid(authentic, peer)
    requires t.group == peer.group && peer.seed <= t.trusted
    ensures var r := Absorb(authentic, t, peer.introductions);
            && r.trusted == t.trusted + peer.trusted
            && Elements(r.introductions) == Elements(t.introductions) + Elements(peer.introductions)
  {
    AbsorbReachesLeastClosure(authentic, t, peer.introductions);
    var r := Absorb(authentic, t, peer.introductions);
    JustifiedListIsFollowed(peer.seed, peer.introductions, r.trusted);
    var both := t.trusted + peer.trusted;
    forall i <- UsableIn(authentic, t.group, peer.introductions) ensures i.identityKey in both {
      assert i.identityKey in Introduced(peer.introductions);
    }
    assert r.trusted <= both;
    forall i | i in peer.introductions ensures i.introducedBy in r.trusted {
      var k :| 0 <= k < |peer.introductions| && peer.introductions[k] == i;
      StoredIntroducersTrusted(authentic, peer, k);
    }
  }

  lemma {:induction false} JustifiedListIsFollowed(seed: set<string>, list: seq<Introduction>, keys: set<string>)
    requires Justified(seed, list) && seed <= keys
    requires forall i <- list :: i.introducedBy in keys ==> i.identityKey in keys
    ensures Introduced(list) <= keys
    decreases |list|
  {
    if list != [] {
      var init, last := list[..|list| - 1], list[|list| - 1];
      assert list == init + [last];
      forall k | 0 <= k < |init| ensures init[k].introducedBy in seed + Introduced(init[..k]) {
        assert init[..k] == list[..k] && init[k] == list[k];
      }
      JustifiedListIsFollowed(seed, init, keys);
      assert list[..|list| - 1] == init && last.introducedBy in seed + Introduced(init);
      IntroducedAppend(init, last);
    }
  }

  /** Replaying the stored list on the seed alone rebuilds the trusted set and the stored introductions. */
  lemma ReplayRebuildsTrust(authentic: Oracle, t: Trust)
    requires Valid(authentic, t)
    ensures var r := Absorb(authentic, Trust(t.group, t.seed, t.seed, []), t.introductions);
            r.trusted == t.trusted && Elements(r.introductions) == Elements(t.introductions)
  {
    AbsorbJoinsPeer(authentic, Trust(t.group, t.seed, t.seed, []), t);
  }

  /** Writing keys in hexadecimal confuses none. */
  lemma SeedIsExact(keys: seq<Octets>)
    ensures forall key: Octets :: Hex.Encode(key) in (set k | k in keys :: Hex.Encode(k)) <==> key in keys
  {
    forall key: Octets ensures Hex.Encode(key) in (set k | k in keys :: Hex.Encode(k)) <==> key in keys {
      forall k ensures Hex.Encode(k) == Hex.Encode(key) ==> k == key { Hex.EncodeInjective(k, key); }
    }
  }

  /** The object itself. */
  class GroupSignerTrust {
    const scheme: SignatureScheme
    const authentic: Oracle
    const groupId: Uuid
    ghost const seed: set<string>
    var trusted: set<string>
    var introductions: seq<Introduction>

    /** `authentic` is the signature check under `scheme`. */
    ghost predicate ChecksSignatures() {
      forall i :: authentic(i) <==> IsAuthentic(scheme, i)
    }

    ghost function View(): (t: Trust)
      reads this
    {
      Trust(groupId, seed, trusted, introductions)
    }

    constructor (scheme: SignatureScheme, groupId: Uuid, keys: seq<Octets>)
      ensures View() == Seeded(groupId, keys) && this.scheme == scheme
      ensures ChecksSignatures() && Valid(authentic, View())
      ensures forall key: Octets :: Hex.Encode(key) in trusted <==> key in keys
    {
      this.scheme, this.groupId, authentic := scheme, groupId, i => IsAuthentic(scheme, i);
      seed := set k | k in keys :: Hex.Encode(k);
      trusted := set k | k in keys :: Hex.Encode(k);
      introductions := [];
      SeedIsExact(keys);
    }

    predicate Trusts(key: Octets)
      reads this
    {
      Hex.Encode(key) in trusted
    }

    /** The inner loop of `absorb`. */
    method AcceptInOrder(list: seq<Introduction>) returns (progressed: bool)
      modifies this
      ensures View() == Pass(authentic, old(View()), list)
      ensures progressed <==> introductions != old(introductions)
    {
      progressed := false;
      var n := 0;
      while n < |list|
        invariant 0 <= n <= |list|
        invariant Pass(authentic, View(), list[n..]) == Pass(authentic, old(View()), list)
        invariant old(introductions) <= introductions
        invariant progressed <==> introductions != old(introductions)
      {
        var i := list[n];
        if i.groupId == groupId && i.introducedBy in trusted && i !in introductions && authentic(i) {
          trusted := trusted + {i.identityKey};
          introductions := introductions + [i];
          progressed := true;
        }
        assert list[n..][1..] == list[n + 1..];
        n := n + 1;
      }
    }

    method AbsorbIntroductions(list: seq<Introduction>) returns (changed: bool)
      requires Valid(authentic, View())
      modifies this
      ensures Valid(authentic, View())
      ensures View() == Absorb(authentic, old(View()), list)
      ensures Absorbed(authentic, old(View()), list, View())
      ensures changed <==> View() != old(View())
    {
      changed := false;
      AbsorbReachesLeastClosure(authentic, View(), list);
      while true
        invariant Absorb(authentic, View(), list) == Absorb(authentic, old(View()), list)
        invariant old(introductions) <= introductions
        invariant if changed then introductions != old(introductions) else View() == old(View())
        decreases Pending(View(), list)
      {
        ProgressShrinksPending(authentic, View(), list);
        PassGrows(authentic, View(), list);
        var progressed := AcceptInOrder(list);
        if !progressed {
          return;
        }
        changed := true;
      }
    }

    /** Keep the introduction `i` this device signed, unless its key is trusted or its introducer is not. */
    method KeepIntroduction(i: Introduction) returns (added: bool)
      requires Valid(authentic, View()) && Usable(authentic, groupId, i)
      modifies this
      ensures Valid(authentic, View())
      ensures View() == Introduce(old(View()), i)
      ensures added <==> View() != old(View())
    {
      IntroduceKeepsValid(authentic, View(), i);
      if i.identityKey in trusted || i.introducedBy !in trusted {
        return false;
      }
      trusted := trusted + {i.identityKey};
      introductions := introductions + [i];
      return true;
    }

    method IntroduceKey(introducer: Octets, key: Octets, now: int) returns (added: bool)
      requires scheme.Correct() && ChecksSignatures() && Valid(authentic, View())
      modifies this
      ensures Valid(authentic, View())
      ensures View() == Introduce(old(View()), Vouch(scheme, introducer, groupId, key, now))
      ensures added <==> View() != old(View())
    {
      VouchIsUsable(scheme, authentic, introducer, groupId, key, now);
      added := KeepIntroduction(Vouch(scheme, introducer, groupId, key, now));
    }
  }
}
