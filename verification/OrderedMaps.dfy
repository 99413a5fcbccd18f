/** What a `BTreeMap` adds to a map: keys come out in ascending order, and a first insertion can be made to win. */
module OrderedMaps {
  import opened Wrappers
  import opened Collections

  ghost predicate Injective<K(!new)>(rank: K -> int) {
    forall a, b :: rank(a) == rank(b) ==> a == b
  }

  ghost predicate Ascending<K>(q: seq<K>, rank: K -> int) {
    forall i, j :: 0 <= i < j < |q| ==> rank(q[i]) < rank(q[j])
  }

  lemma {:induction false} HasLargest<K>(s: set<K>, rank: K -> int) returns (m: K)
    requires s != {}
    ensures m in s && forall x <- s :: rank(x) <= rank(m)
  {
    var y :| y in s;
    if s == {y} {
      m := y;
    } else {
      var z := HasLargest(s - {y}, rank);
      m := if rank(y) <= rank(z) then z else y;
      assert s == (s - {y}) + {y};
    }
  }

  /** `q` lists exactly the keys of `s`, ascending. */
  ghost predicate Lists<K>(q: seq<K>, s: set<K>, rank: K -> int) {
    Ascending(q, rank) && Elements(q) == s
  }

  lemma {:induction false} ListExists<K>(s: set<K>, rank: K -> int) returns (q: seq<K>)
    requires forall a, b :: a in s && b in s && rank(a) == rank(b) ==> a == b
    ensures Lists(q, s, rank)
  {
    if s == {} {
      q := [];
    } else {
      var m := HasLargest(s, rank);
      var rest := ListExists(s - {m}, rank);
      q := rest + [m];
      ListAppend(rest, s - {m}, rank, m);
      assert (s - {m}) + {m} == s;
    }
  }

  lemma ListAppend<K>(q: seq<K>, s: set<K>, rank: K -> int, m: K)
    requires Lists(q, s, rank) && forall x <- s :: rank(x) < rank(m)
    ensures Lists(q + [m], s + {m}, rank)
  {
    assert Elements(q + [m]) == Elements(q) + {m};
    forall k | 0 <= k < |q| ensures rank(q[k]) < rank(m) {
      assert q[k] in Elements(q);
    }
  }

  /** The keys in ascending order. */
  ghost function Sorted<K(!new)>(s: set<K>, rank: K -> int): (q: seq<K>)
    requires Injective(rank)
    ensures Lists(q, s, rank)
  {
    assert exists q :: Lists(q, s, rank) by {
      var q := ListExists(s, rank);
    }
    var q :| Lists(q, s, rank);
    q
  }

  lemma OnlyEmptyHasNoElements<T>(s: seq<T>)
    ensures Elements(s) == {} <==> s == []
  {
    if s != [] {
      assert s[0] in Elements(s);
    }
  }

  /** There is one such listing. */
  lemma {:induction false} ListIsUnique<K>(p: seq<K>, q: seq<K>, s: set<K>, rank: K -> int)
    requires Lists(p, s, rank) && Lists(q, s, rank)
    ensures p == q
    decreases |p|
  {
    if p == [] || q == [] {
      OnlyEmptyHasNoElements(p);
      OnlyEmptyHasNoElements(q);
    } else {
      var a, b := p[|p| - 1], q[|q| - 1];
      LastIsLargest(p, s, rank);
      LastIsLargest(q, s, rank);
      assert a == b;
      ListInit(p, s, rank);
      ListInit(q, s, rank);
      ListIsUnique(p[..|p| - 1], q[..|q| - 1], s - {a}, rank);
      assert p == p[..|p| - 1] + [a] && q == q[..|q| - 1] + [b];
    }
  }

  lemma LastIsLargest<K>(p: seq<K>, s: set<K>, rank: K -> int)
    requires Lists(p, s, rank) && p != []
    ensures var last := p[|p| - 1]; last in s && forall x <- s :: x == last || rank(x) < rank(last)
  {
    var last := p[|p| - 1];
    assert last in Elements(p);
    forall x <- s ensures x == last || rank(x) < rank(last) {
      assert x in Elements(p);
      var k :| 0 <= k < |p| && p[k] == x;
    }
  }

  lemma ListInit<K>(p: seq<K>, s: set<K>, rank: K -> int)
    requires Lists(p, s, rank) && p != []
    ensures Lists(p[..|p| - 1], s - {p[|p| - 1]}, rank)
  {
    var init, last := p[..|p| - 1], p[|p| - 1];
    assert p == init + [last];
    assert last !in init;
    forall x ensures x in Elements(init) <==> x in s - {last} {
      assert x in Elements(p) <==> x in init || x == last;
    }
  }

  lemma {:induction false} ListLength<K>(q: seq<K>, s: set<K>, rank: K -> int)
    requires Lists(q, s, rank)
    ensures |q| == |s|
    decreases |q|
  {
    OnlyEmptyHasNoElements(q);
    if q != [] {
      ListInit(q, s, rank);
      LastIsLargest(q, s, rank);
      ListLength(q[..|q| - 1], s - {q[|q| - 1]}, rank);
    }
  }

  /** Walking a `BTreeMap`'s keys. */
  method SortKeys<K(==)>(s: set<K>, rank: K -> int) returns (q: seq<K>)
    requires forall a, b :: a in s && b in s && rank(a) == rank(b) ==> a == b
    ensures Lists(q, s, rank)
  {
    q := [];
    var left := s;
    assert s - left == {};
    while left != {}
      invariant left <= s
      invariant Lists(q, s - left, rank)
      invariant forall x, y :: x in s - left && y in left ==> rank(x) < rank(y)
      decreases left
    {
      assert exists m :: m in left && forall x <- left :: rank(m) <= rank(x) by {
        var m := HasLargest(left, k => -rank(k));
        assert forall x <- left :: rank(m) <= rank(x);
      }
      var m :| m in left && forall x <- left :: rank(m) <= rank(x);
      ListAppend(q, s - left, rank, m);
      assert (s - left) + {m} == s - (left - {m});
      q := q + [m];
      left := left - {m};
    }
    assert s - {} == s;
  }

  lemma EqualMaps<K, V>(m: map<K, V>, n: map<K, V>)
    requires forall k :: k in n ==> k in m && m[k] == n[k]
    requires forall k :: k in m ==> k in n
    ensures m == n
  {
  }

  // ----- First insertion wins

  /** The map after inserting the entries in order, where a key keeps its first value. */
  function Inserted<T, K(==), V>(key: T -> K, value: T -> V, entries: seq<T>): (m: map<K, V>)
    decreases |entries|
  {
    if entries == [] then map[]
    else
      var m, last := Inserted(key, value, entries[..|entries| - 1]), entries[|entries| - 1];
      if key(last) in m then m else m[key(last) := value(last)]
  }

  /** Entry `k` is the first with its key. */
  ghost predicate IsFirst<T, K>(key: T -> K, entries: seq<T>, k: nat)
    requires k < |entries|
  {
    forall j :: 0 <= j < k ==> key(entries[j]) != key(entries[k])
  }

  lemma {:induction false} InsertedHolds<T, K, V>(key: T -> K, value: T -> V, entries: seq<T>, e: T)
    requires e in entries
    ensures key(e) in Inserted(key, value, entries)
    decreases |entries|
  {
    var init := entries[..|entries| - 1];
    if e in init {
      InsertedHolds(key, value, init, e);
    } else {
      assert e == entries[|entries| - 1];
    }
  }

  /** Every value of the map is that of the first entry with its key. */
  lemma {:induction false} InsertedFrom<T, K, V>(key: T -> K, value: T -> V, entries: seq<T>, x: K) returns (k: nat)
    requires x in Inserted(key, value, entries)
    ensures k < |entries| && IsFirst(key, entries, k) && key(entries[k]) == x
    ensures Inserted(key, value, entries)[x] == value(entries[k])
    decreases |entries|
  {
    var init := entries[..|entries| - 1];
    if x in Inserted(key, value, init) {
      k := InsertedFrom(key, value, init, x);
      assert forall j :: 0 <= j <= k ==> init[j] == entries[j];
    } else {
      k := |entries| - 1;
      forall j | 0 <= j < k ensures key(entries[j]) != x {
        assert init[j] == entries[j];
        InsertedHolds(key, value, init, init[j]);
      }
    }
  }

  lemma InsertedFirst<T, K, V>(key: T -> K, value: T -> V, entries: seq<T>, k: nat)
    requires k < |entries| && IsFirst(key, entries, k)
    ensures key(entries[k]) in Inserted(key, value, entries)
    ensures Inserted(key, value, entries)[key(entries[k])] == value(entries[k])
  {
    InsertedHolds(key, value, entries, entries[k]);
    var j := InsertedFrom(key, value, entries, key(entries[k]));
    assert j == k;
  }

  lemma {:induction false} InsertedSize<T, K, V>(key: T -> K, value: T -> V, entries: seq<T>)
    ensures |Inserted(key, value, entries)| <= |entries|
    decreases |entries|
  {
    if entries != [] {
      var init, last := entries[..|entries| - 1], entries[|entries| - 1];
      InsertedSize(key, value, init);
      var m := Inserted(key, value, init);
      assert key(last) !in m ==> m[key(last) := value(last)].Keys == m.Keys + {key(last)};
    }
  }

  // ----- Checking while inserting

  /**
   * How entries are read into a map: key, value, the part two values of a key must share, and what is wrong by
   * itself.
   */
  datatype Check<!T, !K(==), !V, !S(==), !E> =
    Check(key: T -> K, value: T -> V, secret: V -> S, fault: T -> Option<E>, conflict: E)

  /** The error with which an entry stops the scan: its own fault, or a secret other than its key's first. */
  function EntryError<T, K(==), V, S(==), E>(c: Check<T, K, V, S, E>, m: map<K, V>, e: T): (r: Option<E>) {
    if c.fault(e).Some? then c.fault(e)
    else if c.key(e) in m && c.secret(m[c.key(e)]) != c.secret(c.value(e)) then Some(c.conflict)
    else None
  }

  /** The first error of a scan that inserts the entries in order. */
  function ScanError<T, K(==), V, S(==), E>(c: Check<T, K, V, S, E>, entries: seq<T>): (r: Option<E>)
    decreases |entries|
  {
    if entries == [] then None
    else
      var init, last := entries[..|entries| - 1], entries[|entries| - 1];
      var earlier := ScanError(c, init);
      if earlier.Some? then earlier else EntryError(c, Inserted(c.key, c.value, init), last)
  }

  /** A scan stops at its first error. */
  lemma {:induction false} ScanErrorStops<T, K, V, S, E>(c: Check<T, K, V, S, E>, entries: seq<T>, k: nat)
    requires k <= |entries| && ScanError(c, entries[..k]).Some?
    ensures ScanError(c, entries) == ScanError(c, entries[..k])
    decreases |entries|
  {
    if k == |entries| {
      assert entries[..k] == entries;
    } else {
      var init := entries[..|entries| - 1];
      assert init[..k] == entries[..k];
      ScanErrorStops(c, init, k);
    }
  }

  /** The scan goes on entry by entry, and stops for good at an error. */
  lemma ScanStep<T, K, V, S, E>(c: Check<T, K, V, S, E>, entries: seq<T>, k: nat)
    requires k < |entries| && ScanError(c, entries[..k]).None?
    ensures var m := Inserted(c.key, c.value, entries[..k]);
            var error := EntryError(c, m, entries[k]);
            && Inserted(c.key, c.value, entries[..k + 1]) ==
               (if c.key(entries[k]) in m then m else m[c.key(entries[k]) := c.value(entries[k])])
            && ScanError(c, entries[..k + 1]) == error
            && (error.Some? ==> ScanError(c, entries) == error)
  {
    assert entries[..k + 1][..k] == entries[..k];
    if ScanError(c, entries[..k + 1]).Some? {
      ScanErrorStops(c, entries, k + 1);
    }
  }

  ghost predicate Faultless<T, K, V, S, E>(c: Check<T, K, V, S, E>, entries: seq<T>) {
    forall e <- entries :: c.fault(e).None?
  }

  /** Two entries with one key carry the same secret. */
  ghost predicate Consistent<T, K, V, S, E>(c: Check<T, K, V, S, E>, entries: seq<T>) {
    forall a <- entries, b <- entries :: c.key(a) == c.key(b) ==> c.secret(c.value(a)) == c.secret(c.value(b))
  }

  /** In consistent entries every entry's secret is the one in the map. */
  lemma SecretHolds<T, K, V, S, E>(c: Check<T, K, V, S, E>, entries: seq<T>, e: T)
    requires e in entries && Consistent(c, entries)
    ensures var m := Inserted(c.key, c.value, entries);
            c.key(e) in m && c.secret(m[c.key(e)]) == c.secret(c.value(e))
  {
    InsertedHolds(c.key, c.value, entries, e);
    var k := InsertedFrom(c.key, c.value, entries, c.key(e));
    assert entries[k] in entries;
  }

  /** A scan finds no error exactly when no entry is at fault and no key has two secrets. */
  lemma {:induction false} NoScanErrorIff<T, K, V, S, E>(c: Check<T, K, V, S, E>, entries: seq<T>)
    ensures ScanError(c, entries).None? <==> Faultless(c, entries) && Consistent(c, entries)
    decreases |entries|
  {
    if entries != [] {
      var init, last := entries[..|entries| - 1], entries[|entries| - 1];
      NoScanErrorIff(c, init);
      assert entries == init + [last];
      LastIsConsistent(c, init, last);
    }
  }

  lemma LastIsConsistent<T, K, V, S, E>(c: Check<T, K, V, S, E>, init: seq<T>, last: T)
    ensures var m := Inserted(c.key, c.value, init);
            Consistent(c, init + [last]) <==>
            Consistent(c, init) && (c.key(last) in m ==> c.secret(m[c.key(last)]) == c.secret(c.value(last)))
  {
    var m, all := Inserted(c.key, c.value, init), init + [last];
    assert last in all && forall e <- init :: e in all;
    if c.key(last) in m {
      var k := InsertedFrom(c.key, c.value, init, c.key(last));
      assert init[k] in init;
    }
    if Consistent(c, init) && (c.key(last) in m ==> c.secret(m[c.key(last)]) == c.secret(c.value(last))) {
      forall e <- init | c.key(e) == c.key(last) ensures c.secret(c.value(e)) == c.secret(c.value(last)) {
        SecretHolds(c, init, e);
      }
    }
  }
}
