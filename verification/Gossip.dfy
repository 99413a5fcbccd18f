/**
 * Many devices of one group that send each other the introductions they know. A step delivers one
 * device's list to another, lets the server hand a device any list at all, or lets a device vouch
 * for a key.
 */
module Gossip {
  import opened Collections
  import opened Introductions
  import opened SignerTrust

  type Network = seq<Trust>

  datatype Step =
    | Deliver(src: nat, dst: nat)
    | Inject(dst: nat, list: seq<Introduction>)
    | VouchFor(dev: nat, i: Introduction)

  ghost predicate Enabled(authentic: Oracle, s: Network, step: Step) {
    match step
    case Deliver(src, dst) => src < |s| && dst < |s|
    case Inject(dst, _) => dst < |s|
    case VouchFor(dev, i) => dev < |s| && Usable(authentic, s[dev].group, i)
  }

  ghost function Apply(authentic: Oracle, s: Network, step: Step): (r: Network)
    requires Enabled(authentic, s, step)
    ensures |r| == |s|
  {
    match step
    case Deliver(src, dst) => s[dst := Absorb(authentic, s[dst], s[src].introductions)]
    case Inject(dst, list) => s[dst := Absorb(authentic, s[dst], list)]
    case VouchFor(dev, i) => s[dev := Introduce(s[dev], i)]
  }

  ghost predicate CanRun(authentic: Oracle, s: Network, steps: seq<Step>)
    decreases |steps|
  {
    steps == [] || (Enabled(authentic, s, steps[0]) && CanRun(authentic, Apply(authentic, s, steps[0]), steps[1..]))
  }

  ghost function Run(authentic: Oracle, s: Network, steps: seq<Step>): (r: Network)
    requires CanRun(authentic, s, steps)
    ensures |r| == |s|
    decreases |steps|
  {
    if steps == [] then s else Run(authentic, Apply(authentic, s, steps[0]), steps[1..])
  }

  ghost predicate AllValid(authentic: Oracle, s: Network) {
    forall t <- s :: Valid(authentic, t)
  }

  /** `r` is a later state of the device `t`: same group and seed, nothing forgotten. */
  ghost predicate Later(t: Trust, r: Trust) {
    r.group == t.group && r.seed == t.seed && t.trusted <= r.trusted && t.introductions <= r.introductions
  }

  lemma StepKeepsValid(authentic: Oracle, s: Network, step: Step)
    requires AllValid(authentic, s) && Enabled(authentic, s, step)
    ensures AllValid(authentic, Apply(authentic, s, step))
    ensures forall d :: 0 <= d < |s| ==> Later(s[d], Apply(authentic, s, step)[d])
  {
    match step
    case Deliver(src, dst) => AbsorbGrows(authentic, s[dst], s[src].introductions);
    case Inject(dst, list) => AbsorbGrows(authentic, s[dst], list);
    case VouchFor(dev, i) => IntroduceKeepsValid(authentic, s[dev], i);
  }

  /**
   * In every run, whatever lists the server supplies, each device's stored introductions stay
   * distinct, authentic, for its group and in justification order, and they rebuild its trusted set
   * from its seed; trust is never withdrawn.
   */
  lemma {:induction false} RunKeepsValid(authentic: Oracle, s: Network, steps: seq<Step>)
    requires AllValid(authentic, s) && CanRun(authentic, s, steps)
    ensures AllValid(authentic, Run(authentic, s, steps))
    ensures forall d :: 0 <= d < |s| ==> Later(s[d], Run(authentic, s, steps)[d])
    decreases |steps|
  {
    if steps != [] {
      StepKeepsValid(authentic, s, steps[0]);
      RunKeepsValid(authentic, Apply(authentic, s, steps[0]), steps[1..]);
    }
  }

  /**
   * A device never trusts a key outside any set that holds its seed and follows the authentic
   * introductions of its group, however many of those exist and whoever supplied the lists.
   */
  lemma TrustIsEarned(authentic: Oracle, s: Network, steps: seq<Step>, d: nat, keys: iset<string>)
    requires AllValid(authentic, s) && CanRun(authentic, s, steps) && d < |s|
    requires forall k <- s[d].seed :: k in keys
    requires forall i | Usable(authentic, s[d].group, i) && i.introducedBy in keys :: i.identityKey in keys
    ensures forall k <- Run(authentic, s, steps)[d].trusted :: k in keys
  {
    RunKeepsValid(authentic, s, steps);
    var t := Run(authentic, s, steps)[d];
    assert Later(s[d], t) && Valid(authentic, t);
    var inside := set k | k in t.trusted && k in keys;
    forall i <- t.introductions | i.introducedBy in inside ensures i.identityKey in inside {
      assert Usable(authentic, t.group, i);
      assert i.identityKey in Introduced(t.introductions);
    }
    JustifiedListIsFollowed(t.seed, t.introductions, inside);
  }

  // ----- Convergence

  /** Devices of one group, each of which trusts every other device's seed. */
  ghost predicate Mutual(s: Network) {
    forall a, b :: 0 <= a < |s| && 0 <= b < |s| ==> s[a].group == s[b].group && s[a].seed <= s[b].trusted
  }

  /** Every introduction that some device knows. */
  ghost function Pool(s: Network): (pool: set<Introduction>) {
    set d, i | 0 <= d < |s| && i in s[d].introductions :: i
  }

  /** How many introductions of the pool the devices still lack, over all devices. */
  ghost function Lacking(s: Network, pool: set<Introduction>): (n: nat) {
    if s == [] then 0 else |pool - Elements(s[0].introductions)| + Lacking(s[1..], pool)
  }

  lemma {:induction false} LackingUpdate(s: Network, pool: set<Introduction>, d: nat, t: Trust)
    requires d < |s|
    ensures Lacking(s[d := t], pool) + |pool - Elements(s[d].introductions)| ==
            Lacking(s, pool) + |pool - Elements(t.introductions)|
  {
    if d > 0 {
      LackingUpdate(s[1..], pool, d - 1, t);
      assert s[d := t][1..] == s[1..][d - 1 := t];
    } else {
      assert s[d := t][1..] == s[1..];
    }
  }

  lemma OneMore(n: nat, p: nat)
    ensures (n + 1) * p == p + n * p
  {
  }

  lemma {:induction false} LackingBound(s: Network, pool: set<Introduction>)
    ensures Lacking(s, pool) <= |s| * |pool|
  {
    if s != [] {
      LackingBound(s[1..], pool);
      SubsetSize(pool - Elements(s[0].introductions), pool);
      OneMore(|s[1..]|, |pool|);
    }
  }

  /** A delivery keeps the pool and makes the receiver know all that the sender knows. */
  lemma DeliveryMerges(authentic: Oracle, s: Network, src: nat, dst: nat)
    requires AllValid(authentic, s) && Mutual(s) && src < |s| && dst < |s|
    ensures var r := Apply(authentic, s, Deliver(src, dst));
            && AllValid(authentic, r) && Mutual(r) && Pool(r) == Pool(s)
            && r[dst].trusted == s[dst].trusted + s[src].trusted
            && Elements(r[dst].introductions) == Elements(s[dst].introductions) + Elements(s[src].introductions)
  {
    StepKeepsValid(authentic, s, Deliver(src, dst));
    AbsorbJoinsPeer(authentic, s[dst], s[src]);
    var r := Apply(authentic, s, Deliver(src, dst));
    assert forall d :: 0 <= d < |s| ==> Later(s[d], r[d]);
    forall i ensures i in Pool(r) <==> i in Pool(s) {
      assert i in r[dst].introductions <==> i in Elements(r[dst].introductions);
      assert i in s[dst].introductions <==> i in Elements(s[dst].introductions);
      assert i in s[src].introductions <==> i in Elements(s[src].introductions);
      assert forall d :: 0 <= d < |s| && d != dst ==> r[d] == s[d];
    }
  }

  /** A list that grew by something of the pool leaves less of the pool. */
  lemma LessIsLacking(pool: set<Introduction>, before: seq<Introduction>, after: seq<Introduction>)
    requires before <= after && Distinct(after) && before != after
    requires forall i :: i in after ==> i in before || i in pool
    ensures |pool - Elements(after)| < |pool - Elements(before)|
  {
    var i := after[|before|];
    assert forall k :: 0 <= k < |before| ==> after[k] == before[k];
    assert i in after && i !in before;
    var x, y := pool - Elements(before), pool - Elements(after);
    assert y <= x - {i};
    SubsetSize(y, x - {i});
  }

  /** A delivery that changes anything leaves strictly less to be learned. */
  lemma DeliveryProgress(authentic: Oracle, s: Network, src: nat, dst: nat)
    requires AllValid(authentic, s) && Mutual(s) && src < |s| && dst < |s|
    ensures var r := Apply(authentic, s, Deliver(src, dst));
            Lacking(r, Pool(s)) + (if r == s then 0 else 1) <= Lacking(s, Pool(s))
  {
    DeliveryMerges(authentic, s, src, dst);
    var r := Apply(authentic, s, Deliver(src, dst));
    if r != s {
      var t, u := s[dst], r[dst];
      AbsorbGrows(authentic, t, s[src].introductions);
      assert t.introductions != u.introductions by {
        assert u.introductions == t.introductions ==> u == t;
      }
      forall i | i in u.introductions ensures i in Pool(s) {
        assert i in Pool(r);
      }
      LessIsLacking(Pool(s), t.introductions, u.introductions);
      LackingUpdate(s, Pool(s), dst, u);
    }
  }

  /** Deliveries among `n` devices. */
  ghost predicate OnlyDeliveries(n: nat, steps: seq<Step>) {
    forall p <- steps :: p.Deliver? && p.src < n && p.dst < n
  }

  /** How many steps of a run change the network. */
  ghost function Changes(authentic: Oracle, s: Network, steps: seq<Step>): (n: nat)
    requires CanRun(authentic, s, steps)
    decreases |steps|
  {
    if steps == [] then 0
    else
      var r := Apply(authentic, s, steps[0]);
      (if r == s then 0 else 1) + Changes(authentic, r, steps[1..])
  }

  lemma {:induction false} DeliveriesRun(authentic: Oracle, s: Network, steps: seq<Step>)
    requires OnlyDeliveries(|s|, steps)
    ensures CanRun(authentic, s, steps)
    decreases |steps|
  {
    if steps != [] {
      DeliveriesRun(authentic, Apply(authentic, s, steps[0]), steps[1..]);
    }
  }

  /**
   * However long devices keep exchanging lists, and in whatever order, at most (devices) times
   * (introductions known) of those deliveries change anything.
   */
  lemma {:induction false} BoundedChanges(authentic: Oracle, s: Network, steps: seq<Step>)
    requires AllValid(authentic, s) && Mutual(s) && OnlyDeliveries(|s|, steps)
    ensures CanRun(authentic, s, steps)
    ensures Changes(authentic, s, steps) + Lacking(Run(authentic, s, steps), Pool(s)) <= Lacking(s, Pool(s))
    ensures Lacking(s, Pool(s)) <= |s| * |Pool(s)|
    decreases |steps|
  {
    DeliveriesRun(authentic, s, steps);
    LackingBound(s, Pool(s));
    if steps != [] {
      var r := Apply(authentic, s, steps[0]);
      DeliveryMerges(authentic, s, steps[0].src, steps[0].dst);
      DeliveryProgress(authentic, s, steps[0].src, steps[0].dst);
      BoundedChanges(authentic, r, steps[1..]);
    }
  }

  /** `path` leads along `links` from device `a` to device `b`. */
  ghost predicate Connects(links: iset<(nat, nat)>, path: seq<nat>, a: nat, b: nat) {
    |path| > 0 && path[0] == a && path[|path| - 1] == b
    && forall k :: 0 <= k < |path| - 1 ==> (path[k], path[k + 1]) in links
  }

  ghost predicate Linked(links: iset<(nat, nat)>, a: nat, b: nat) {
    exists path :: Connects(links, path, a, b)
  }

  ghost predicate Connected(links: iset<(nat, nat)>, n: nat) {
    forall a: nat, b: nat :: a < n && b < n ==> Linked(links, a, b)
  }

  /** No delivery along any link would change anything. */
  ghost predicate Quiet(authentic: Oracle, s: Network, links: iset<(nat, nat)>) {
    forall l <- links :: l.0 < |s| && l.1 < |s| && Apply(authentic, s, Deliver(l.0, l.1)) == s
  }

  ghost predicate Agree(s: Network) {
    forall a, b :: 0 <= a < |s| && 0 <= b < |s| ==>
      s[a].trusted == s[b].trusted && Elements(s[a].introductions) == Elements(s[b].introductions)
  }

  lemma {:induction false} QuietPath(authentic: Oracle, s: Network, links: iset<(nat, nat)>, path: seq<nat>, a: nat,
                                     b: nat)
    requires AllValid(authentic, s) && Mutual(s) && Quiet(authentic, s, links)
    requires a < |s| && b < |s| && Connects(links, path, a, b)
    ensures s[a].trusted <= s[b].trusted && Elements(s[a].introductions) <= Elements(s[b].introductions)
    decreases |path|
  {
    if |path| > 1 {
      var l := (path[0], path[1]);
      assert l in links;
      DeliveryMerges(authentic, s, l.0, l.1);
      QuietPath(authentic, s, links, path[1..], path[1], b);
    }
  }

  /** Once the links that connect all devices have fallen quiet, all devices trust the same keys. */
  lemma QuietMeansAgreement(authentic: Oracle, s: Network, links: iset<(nat, nat)>)
    requires AllValid(authentic, s) && Mutual(s) && Connected(links, |s|) && Quiet(authentic, s, links)
    ensures Agree(s)
  {
    forall a, b | 0 <= a < |s| && 0 <= b < |s|
      ensures s[a].trusted <= s[b].trusted && Elements(s[a].introductions) <= Elements(s[b].introductions)
    {
      assert Linked(links, a, b);
      var path :| Connects(links, path, a, b);
      QuietPath(authentic, s, links, path, a, b);
    }
  }

  /** A round of deliveries among `n` devices that uses every link. */
  ghost predicate IsRound(n: nat, links: iset<(nat, nat)>, steps: seq<Step>) {
    OnlyDeliveries(n, steps) && forall l <- links :: Deliver(l.0, l.1) in steps
  }

  ghost function Flat(rounds: seq<seq<Step>>): (steps: seq<Step>) {
    if rounds == [] then [] else rounds[0] + Flat(rounds[1..])
  }

  lemma {:induction false} RunAppend(authentic: Oracle, s: Network, a: seq<Step>, b: seq<Step>)
    requires CanRun(authentic, s, a) && CanRun(authentic, Run(authentic, s, a), b)
    ensures CanRun(authentic, s, a + b) && Run(authentic, s, a + b) == Run(authentic, Run(authentic, s, a), b)
    decreases |a|
  {
    if a == [] {
      assert a + b == b;
    } else {
      assert (a + b)[1..] == a[1..] + b;
      RunAppend(authentic, Apply(authentic, s, a[0]), a[1..], b);
    }
  }

  lemma DeliveryKeepsAgreement(authentic: Oracle, s: Network, src: nat, dst: nat)
    requires AllValid(authentic, s) && Mutual(s) && src < |s| && dst < |s| && Agree(s)
    ensures Agree(Apply(authentic, s, Deliver(src, dst)))
  {
    DeliveryMerges(authentic, s, src, dst);
    var r := Apply(authentic, s, Deliver(src, dst));
    forall d | 0 <= d < |s|
      ensures r[d].trusted == s[d].trusted && Elements(r[d].introductions) == Elements(s[d].introductions)
    {
      assert d != dst ==> r[d] == s[d];
    }
  }

  /** Deliveries keep what convergence rests on. */
  lemma {:induction false} ExchangeKeeps(authentic: Oracle, s: Network, steps: seq<Step>)
    requires AllValid(authentic, s) && Mutual(s) && OnlyDeliveries(|s|, steps)
    ensures CanRun(authentic, s, steps)
    ensures var r := Run(authentic, s, steps); AllValid(authentic, r) && Mutual(r) && Pool(r) == Pool(s)
    decreases |steps|
  {
    DeliveriesRun(authentic, s, steps);
    if steps != [] {
      DeliveryMerges(authentic, s, steps[0].src, steps[0].dst);
      ExchangeKeeps(authentic, Apply(authentic, s, steps[0]), steps[1..]);
    }
  }

  /** Devices that agree go on agreeing. */
  lemma {:induction false} ExchangeKeepsAgreement(authentic: Oracle, s: Network, steps: seq<Step>)
    requires AllValid(authentic, s) && Mutual(s) && OnlyDeliveries(|s|, steps) && Agree(s)
    requires CanRun(authentic, s, steps)
    ensures Agree(Run(authentic, s, steps))
    decreases |steps|
  {
    if steps != [] {
      DeliveryMerges(authentic, s, steps[0].src, steps[0].dst);
      DeliveryKeepsAgreement(authentic, s, steps[0].src, steps[0].dst);
      ExchangeKeepsAgreement(authentic, Apply(authentic, s, steps[0]), steps[1..]);
    }
  }

  /** A run of deliveries that changed nothing had nothing to deliver. */
  lemma {:induction false} UnchangingSteps(authentic: Oracle, s: Network, steps: seq<Step>)
    requires CanRun(authentic, s, steps) && Changes(authentic, s, steps) == 0
    ensures forall p <- steps :: Enabled(authentic, s, p) && Apply(authentic, s, p) == s
    decreases |steps|
  {
    if steps != [] {
      UnchangingSteps(authentic, s, steps[1..]);
      assert forall p <- steps :: p == steps[0] || p in steps[1..];
    }
  }

  lemma UnchangingRoundIsQuiet(authentic: Oracle, s: Network, links: iset<(nat, nat)>, steps: seq<Step>)
    requires IsRound(|s|, links, steps) && CanRun(authentic, s, steps) && Changes(authentic, s, steps) == 0
    ensures Quiet(authentic, s, links)
  {
    UnchangingSteps(authentic, s, steps);
    forall l <- links ensures l.0 < |s| && l.1 < |s| && Apply(authentic, s, Deliver(l.0, l.1)) == s {
      assert Deliver(l.0, l.1) in steps;
    }
  }

  /** The first of many rounds: it brings agreement, or leaves less to be learned. */
  lemma RoundProgress(authentic: Oracle, s: Network, links: iset<(nat, nat)>, steps: seq<Step>)
    requires AllValid(authentic, s) && Mutual(s) && Connected(links, |s|) && IsRound(|s|, links, steps)
    ensures CanRun(authentic, s, steps)
    ensures Agree(s) || Lacking(Run(authentic, s, steps), Pool(s)) < Lacking(s, Pool(s))
  {
    BoundedChanges(authentic, s, steps);
    if Changes(authentic, s, steps) == 0 {
      UnchangingRoundIsQuiet(authentic, s, links, steps);
      QuietMeansAgreement(authentic, s, links);
    }
  }

  lemma {:induction false} RoundsAgree(authentic: Oracle, s: Network, links: iset<(nat, nat)>, rounds: seq<seq<Step>>)
    requires AllValid(authentic, s) && Mutual(s) && Connected(links, |s|)
    requires forall round <- rounds :: IsRound(|s|, links, round)
    requires Agree(s) || Lacking(s, Pool(s)) < |rounds|
    ensures CanRun(authentic, s, Flat(rounds)) && Agree(Run(authentic, s, Flat(rounds)))
    decreases |rounds|
  {
    if rounds != [] {
      RoundProgress(authentic, s, links, rounds[0]);
      ExchangeKeeps(authentic, s, rounds[0]);
      if Agree(s) { ExchangeKeepsAgreement(authentic, s, rounds[0]); }
      var r := Run(authentic, s, rounds[0]);
      RoundsAgree(authentic, r, links, rounds[1..]);
      RunAppend(authentic, s, rounds[0], Flat(rounds[1..]));
    }
  }

  /**
   * Devices that keep exchanging lists along links that connect them come to agree, in whatever order
   * they do it: more rounds than (devices) times (introductions known), each using every link, suffice.
   */
  lemma FairExchangeAgrees(authentic: Oracle, s: Network, links: iset<(nat, nat)>, rounds: seq<seq<Step>>)
    requires AllValid(authentic, s) && Mutual(s) && Connected(links, |s|)
    requires forall round <- rounds :: IsRound(|s|, links, round)
    requires |s| * |Pool(s)| < |rounds|
    ensures CanRun(authentic, s, Flat(rounds)) && Agree(Run(authentic, s, Flat(rounds)))
  {
    LackingBound(s, Pool(s));
    RoundsAgree(authentic, s, links, rounds);
  }

  /** Where all trust each other's seeds, some exchange makes all devices agree. */
  lemma {:induction false} AgreementIsReachable(authentic: Oracle, s: Network) returns (steps: seq<Step>)
    requires AllValid(authentic, s) && Mutual(s)
    ensures OnlyDeliveries(|s|, steps) && CanRun(authentic, s, steps)
    ensures Agree(Run(authentic, s, steps))
    decreases Lacking(s, Pool(s))
  {
    var links := iset l: (nat, nat) | l.0 < |s| && l.1 < |s|;
    if Quiet(authentic, s, links) {
      forall a: nat, b: nat | a < |s| && b < |s| ensures Linked(links, a, b) {
        assert Connects(links, [a, b], a, b);
      }
      QuietMeansAgreement(authentic, s, links);
      steps := [];
    } else {
      var l :| l in links && Apply(authentic, s, Deliver(l.0, l.1)) != s;
      DeliveryMerges(authentic, s, l.0, l.1);
      DeliveryProgress(authentic, s, l.0, l.1);
      var rest := AgreementIsReachable(authentic, Apply(authentic, s, Deliver(l.0, l.1)));
      steps := [Deliver(l.0, l.1)] + rest;
      assert steps[1..] == rest;
    }
  }
}
