/**
 * The secure memory pool: blocks of power-of-two sizes under a byte budget, reused through one free
 * list per size. The statistics lock is held for the whole of a call, so each call is one step.
 */
module MemoryPool {
  import opened Wrappers
  import opened Collections
  import opened Bytes

  const TWO63: int := 0x8000_0000_0000_0000

  // ----- Rounding up

  ghost predicate IsPow2(n: int) {
    exists k: nat :: n == Pow2(k)
  }

  lemma {:induction false} Pow2Increases(j: nat, k: nat)
    requires j < k
    ensures 2 * Pow2(j) <= Pow2(k)
    decreases k
  {
    if j + 1 < k {
      Pow2Increases(j, k - 1);
    }
  }

  /** 2^63 is a power of two. */
  lemma TwoTo63() returns (e: nat)
    ensures Pow2(e) == TWO63
  {
    e := 63;
    assert Pow2(10) == 1024;
    assert Pow2(20) == 1024 * 1024;
    assert Pow2(30) == 1024 * 1024 * 1024;
    assert Pow2(40) == 1024 * 1024 * 1024 * 1024;
    assert Pow2(50) == 1024 * 1024 * 1024 * 1024 * 1024;
    assert Pow2(60) == 1024 * 1024 * 1024 * 1024 * 1024 * 1024;
  }

  /** `usize::is_power_of_two`. */
  predicate HasOneBit(n: nat) {
    n == 1 || (n > 1 && n % 2 == 0 && HasOneBit(n / 2))
  }

  lemma {:induction false} HasOneBitIff(n: nat)
    ensures HasOneBit(n) <==> IsPow2(n)
  {
    if n <= 1 {
      assert Pow2(0) == 1;
    } else {
      HasOneBitIff(n / 2);
      if HasOneBit(n) {
        var k: nat :| n / 2 == Pow2(k);
        assert n == Pow2(k + 1);
      }
      if IsPow2(n) {
        var k: nat :| n == Pow2(k);
        assert n / 2 == Pow2(k - 1);
      }
    }
  }

  /** The largest power of two that is at most `n`. */
  function Largest(n: nat): (p: nat)
    requires n >= 1
    ensures 1 <= p <= n < 2 * p
  {
    if n == 1 then 1 else 2 * Largest(n / 2)
  }

  lemma {:induction false} LargestIsPow2(n: nat)
    requires n >= 1
    ensures IsPow2(Largest(n))
  {
    if n == 1 {
      assert Pow2(0) == 1;
    } else {
      LargestIsPow2(n / 2);
      var k: nat :| Largest(n / 2) == Pow2(k);
      assert Largest(n) == Pow2(k + 1);
    }
  }

  lemma LargestIsLargest(n: nat, q: int)
    requires n >= 1 && IsPow2(q) && q <= n
    ensures q <= Largest(n)
  {
    LargestIsPow2(n);
    var k: nat :| Largest(n) == Pow2(k);
    if Largest(n) < q {
      NextPow2(k, q);
    }
  }

  /** The least power of two that covers `size`. */
  ghost predicate IsClassOf(size: int, p: int) {
    IsPow2(p) && size <= p && forall q :: IsPow2(q) && size <= q ==> p <= q
  }

  /** `result` after `k` left shifts of a 64-bit one. */
  function Shifted(k: nat): (r: nat) {
    if k == 0 then 1 else Shifted(k - 1) * 2 % TWO64
  }

  lemma {:induction false} ShiftedIsPow2(k: nat, e: nat)
    requires Pow2(e) == TWO63
    ensures Shifted(k) == if k <= e then Pow2(k) else 0
    decreases k
  {
    if 0 < k {
      ShiftedIsPow2(k - 1, e);
      if k <= e {
        Pow2Increases(k - 1, e);
      }
    }
  }

  /** The shifting loop ends exactly for sizes up to 2^63; beyond, the shifted one falls out at zero. */
  lemma RoundingEndsIff(size: nat)
    ensures (exists k: nat :: Shifted(k) >= size) <==> size <= TWO63
  {
    var e := TwoTo63();
    ShiftedIsPow2(e, e);
    forall k: nat ensures Shifted(k) <= TWO63 {
      ShiftedIsPow2(k, e);
      if k < e { Pow2Increases(k, e); }
    }
  }

  /** A power of two above `Pow2(k)` is at least twice it. */
  lemma NextPow2(k: nat, q: int)
    requires IsPow2(q) && Pow2(k) < q
    ensures 2 * Pow2(k) <= q
  {
    var j: nat :| q == Pow2(j);
    if j < k { Pow2Increases(j, k); } else if j > k { Pow2Increases(k, j); }
  }

  /** What the loop computes: the least power of two that covers `size`. */
  function RoundUp(size: nat): (p: nat)
    ensures p >= 1
  {
    if size <= 1 then 1 else 2 * RoundUp((size + 1) / 2)
  }

  lemma {:induction false} RoundUpIsPow2(size: nat)
    ensures IsPow2(RoundUp(size))
  {
    if size <= 1 {
      assert Pow2(0) == 1;
    } else {
      RoundUpIsPow2((size + 1) / 2);
      var k: nat :| RoundUp((size + 1) / 2) == Pow2(k);
      assert RoundUp(size) == Pow2(k + 1);
    }
  }

  lemma {:induction false} RoundUpBounds(size: nat)
    ensures size <= RoundUp(size) && (size > 1 ==> RoundUp(size) < 2 * size)
  {
    if size > 1 {
      RoundUpBounds((size + 1) / 2);
      if size == 3 {
        assert RoundUp(2) == 2 * RoundUp(1);
      }
    }
  }

  lemma RoundUpIsClass(size: nat)
    ensures IsClassOf(size, RoundUp(size))
  {
    RoundUpIsPow2(size);
    RoundUpBounds(size);
    forall q | IsPow2(q) && size <= q ensures RoundUp(size) <= q {
      var k: nat :| q == Pow2(k);
      var j: nat :| RoundUp(size) == Pow2(j);
      if k < j { Pow2Increases(k, j); }
      if j < k { Pow2Increases(j, k); }
    }
  }

  lemma ClassIsUnique(size: nat, p: nat)
    requires IsClassOf(size, p)
    ensures p == RoundUp(size)
  {
    RoundUpIsClass(size);
  }

  method RoundUpToPowerOf2(size: nat) returns (result: nat)
    requires size <= TWO63
    ensures IsClassOf(size, result) && result == RoundUp(size) <= TWO63
  {
    assert IsPow2(1) by { assert Pow2(0) == 1; }
    RoundUpIsClass(size);
    if size <= 1 {
      return 1;
    }
    ghost var e := TwoTo63();
    ghost var k: nat := 0;
    result := 1;
    while result < size
      invariant result == Pow2(k)
      invariant forall q :: IsPow2(q) && size <= q ==> result <= q
      decreases TWO64 - result
    {
      forall q | IsPow2(q) && size <= q ensures 2 * result <= q {
        NextPow2(k, q);
      }
      assert IsPow2(TWO63);
      result := result * 2 % TWO64;
      k := k + 1;
    }
    assert IsPow2(TWO63);
    ClassIsUnique(size, result);
  }

  // ----- Blocks

  /** A block; `id` tells blocks of one size apart. */
  datatype Buffer = Buffer(id: nat, size: nat)

  ghost function Size(s: set<Buffer>): (n: nat) {
    if s == {} then 0
    else
      var b :| b in s;
      b.size + Size(s - {b})
  }

  lemma {:induction false} SizeAdd(s: set<Buffer>, b: Buffer)
    requires b !in s
    ensures Size(s + {b}) == Size(s) + b.size
  {
    var t := s + {b};
    var x :| x in t && Size(t) == x.size + Size(t - {x});
    if x == b {
      assert t - {x} == s;
    } else {
      assert t - {x} == (s - {x}) + {b};
      SizeAdd(s - {x}, b);
      SizeAdd(s - {x}, x);
      assert (s - {x}) + {x} == s;
    }
  }

  lemma SizeRemove(s: set<Buffer>, b: Buffer)
    requires b in s
    ensures Size(s) == Size(s - {b}) + b.size
  {
    SizeAdd(s - {b}, b);
    assert (s - {b}) + {b} == s;
  }

  // ----- The pool

  /** The numbers are `usize` values. */
  datatype Config = Config(maxMemory: nat, minAllocation: nat, maxAllocation: nat, alignment: nat)
  {
    predicate Machine() {
      maxMemory < TWO64 && minAllocation < TWO64 && maxAllocation < TWO64 && alignment < TWO64
    }

    function Wanted(size: nat): (n: nat) {
      if size < minAllocation then minAllocation else size
    }

    /** `Layout::from_size_align` accepts a block of this size. */
    ghost predicate Layable(size: nat) {
      IsPow2(alignment) && size + alignment <= TWO63
    }

    /** A block size that some request can ask for. */
    ghost predicate IsClass(size: nat) {
      IsPow2(size) && minAllocation <= size <= maxAllocation && size <= TWO63
    }

    ghost predicate Admissible(size: nat) {
      IsClass(size) && size <= maxMemory
    }

    /** Every block the pool may have to make can be laid out. */
    ghost predicate AlwaysLayable() {
      forall size: nat :: Admissible(size) ==> Layable(size)
    }

    /** The budget and the largest block that can be asked for add up below 2^64. */
    predicate SumsFit() {
      maxAllocation == 0 || Largest(maxAllocation) < minAllocation || maxMemory + Largest(maxAllocation) < TWO64
    }
  }

  lemma FittingSums(config: Config, p: nat)
    requires config.SumsFit() && config.IsClass(p)
    ensures config.maxMemory + p < TWO64
  {
    LargestIsLargest(config.maxAllocation, p);
  }

  /** The largest class overflows the sum if any does. */
  lemma LargestClass(config: Config) returns (p: nat)
    requires config.Machine() && !config.SumsFit()
    ensures config.IsClass(p) && config.maxMemory + p >= TWO64
  {
    p := Largest(config.maxAllocation);
    LargestIsPow2(p);
    LargestIsPow2(config.maxAllocation);
    var e := TwoTo63();
    if p > TWO63 {
      NextPow2(e, p);
    }
  }

  datatype Error =
    | AllocationTooLarge(size: nat)
    | OutOfMemory(requested: nat, available: nat)
    | AllocationFailed(size: nat)

  datatype Stats = Stats(totalAllocations: nat, totalDeallocations: nat, cacheHits: nat, cacheMisses: nat,
                         peak: nat, current: nat)

  /**
   * A pool and the blocks it made: handed out or pooled. `lost` are bytes charged for blocks that could not
   * be laid out, `failures` counts those, `refusals` the answers that memory is out, and `wrapped` by how
   * much the total has fallen back.
   */
  datatype PoolState = PoolState(
    available: map<nat, seq<Buffer>>,
    totalAllocated: nat,
    stats: Stats,
    nextId: nat,
    outstanding: set<Buffer>,
    pooled: set<Buffer>,
    lost: nat,
    failures: nat,
    refusals: nat,
    wrapped: nat)

  /** A pool that nothing was asked of yet. */
  ghost predicate IsNew(s: PoolState) {
    && s.available == map[] && s.totalAllocated == 0 && s.stats == Stats(0, 0, 0, 0, 0, 0) && s.nextId == 0
    && s.outstanding == {} && s.pooled == {} && s.lost == 0 && s.failures == 0 && s.refusals == 0 && s.wrapped == 0
  }

  /** A 64-bit addition. */
  function Sum64(a: nat, b: nat): (n: nat)
    ensures n <= a + b
  {
    if a + b < TWO64 then a + b else a + b - TWO64
  }

  lemma Sum64IsModular(a: nat, b: nat)
    requires a < TWO64 && b < TWO64
    ensures Sum64(a, b) == (a + b) % TWO64
  {
  }

  /** No block is in two places, all have a size that can be asked for, and the free lists hold the pooled ones. */
  ghost predicate InOrder(config: Config, s: PoolState) {
    && s.outstanding !! s.pooled
    && (forall b <- s.outstanding + s.pooled :: IsProper(config, s.nextId, b))
    && ListsHold(s.available, s.pooled)
  }

  ghost predicate IsProper(config: Config, nextId: nat, b: Buffer) {
    b.id < nextId && config.Admissible(b.size)
  }

  /** The free lists hold exactly the pooled blocks, each once and under its own size. */
  ghost predicate ListsHold(available: map<nat, seq<Buffer>>, pooled: set<Buffer>) {
    && (forall b: Buffer :: b in pooled <==> Filed(available, b))
    && (forall k: nat :: k in available ==> IsListOf(available[k], k))
  }

  ghost predicate Filed(available: map<nat, seq<Buffer>>, b: Buffer) {
    b.size in available && b in available[b.size]
  }

  ghost predicate IsListOf(list: seq<Buffer>, size: nat) {
    Distinct(list) && forall b <- list :: b.size == size
  }

  /** The bytes charged and not given back to the system: in a caller's hands, in a free list, or lost. */
  ghost function Held(s: PoolState): (n: nat) {
    Size(s.outstanding) + Size(s.pooled) + s.lost
  }

  /**
   * What every run keeps on any machine: bytes are conserved up to what wrapped, the counted total is within the
   * budget, blocks are conserved, and every counted request was a hit, a miss or a refusal.
   */
  ghost predicate Balanced(config: Config, s: PoolState) {
    Tallies(config, s, Size(s.outstanding), Size(s.pooled))
  }

  /** The same, with `out` bytes handed out and `free` bytes pooled. */
  ghost predicate Tallies(config: Config, s: PoolState, out: nat, free: nat) {
    && out + free + s.lost == s.totalAllocated + s.wrapped && s.totalAllocated <= config.maxMemory
    && s.stats.current <= out + s.lost && s.stats.current <= s.stats.peak < TWO64
    && s.stats.totalAllocations == s.stats.cacheHits + s.stats.cacheMisses + s.refusals
    && s.nextId == |s.outstanding| + |s.pooled| && s.stats.cacheMisses == s.nextId + s.failures
    && |s.outstanding| + s.stats.totalDeallocations == s.stats.cacheHits + s.nextId
  }

  /** The budget holds for the bytes themselves: they are what is counted. */
  ghost predicate WithinBudget(config: Config, s: PoolState) {
    Held(s) == s.totalAllocated <= config.maxMemory && s.stats.peak <= config.maxMemory
  }

  /** By how much the total falls back when `p` bytes are charged. */
  function Overflow(s: PoolState, p: nat): (n: nat) {
    if s.totalAllocated + p < TWO64 then 0 else TWO64
  }

  function FreeList(available: map<nat, seq<Buffer>>, size: nat): (list: seq<Buffer>) {
    if size in available then available[size] else []
  }

  /** The first block of a free list goes out. */
  ghost function Take(s: PoolState, size: nat): (r: PoolState)
    requires FreeList(s.available, size) != []
  {
    var list := FreeList(s.available, size);
    s.(available := s.available[size := list[1..]], outstanding := s.outstanding + {list[0]},
       pooled := s.pooled - {list[0]}, stats := s.stats.(totalAllocations := s.stats.totalAllocations + 1,
                                                       cacheHits := s.stats.cacheHits + 1))
  }

  lemma TakeKeepsLists(available: map<nat, seq<Buffer>>, pooled: set<Buffer>, size: nat)
    requires ListsHold(available, pooled) && FreeList(available, size) != []
    ensures var first := available[size][0];
            && first.size == size && first in pooled
            && ListsHold(available[size := available[size][1..]], pooled - {first})
  {
    var list := available[size];
    var first, rest := list[0], list[1..];
    assert first in list && list == [first] + rest && first !in rest;
    var lists := available[size := rest];
    forall b: Buffer ensures b in pooled - {first} <==> Filed(lists, b) {
      assert b in pooled <==> Filed(available, b);
      assert b.size == size ==> (b in list <==> b == first || b in rest);
    }
    assert Distinct(rest);
    forall b <- rest ensures b.size == size { assert b in list; }
  }

  lemma TakeKeepsOrder(config: Config, s: PoolState, size: nat)
    requires InOrder(config, s) && FreeList(s.available, size) != []
    ensures InOrder(config, Take(s, size))
    ensures var b := s.available[size][0]; b.size == size && b in s.pooled && b !in s.outstanding
    ensures var r := Take(s, size);
            Size(r.outstanding) == Size(s.outstanding) + size && Size(r.pooled) + size == Size(s.pooled)
  {
    var first := s.available[size][0];
    TakeKeepsLists(s.available, s.pooled, size);
    SizeRemove(s.pooled, first);
    SizeAdd(s.outstanding, first);
    assert (s.outstanding + {first}) + (s.pooled - {first}) == s.outstanding + s.pooled;
  }

  function Saturating(n: int): (r: nat) {
    if n < 0 then 0 else n
  }

  /** A block comes back to the end of its free list. */
  ghost function GiveBack(s: PoolState, b: Buffer): (r: PoolState) {
    s.(available := s.available[b.size := FreeList(s.available, b.size) + [b]], outstanding := s.outstanding - {b},
       pooled := s.pooled + {b},
       stats := s.stats.(totalDeallocations := s.stats.totalDeallocations + 1,
                         current := Saturating(s.stats.current - b.size)))
  }

  lemma GiveBackKeepsLists(available: map<nat, seq<Buffer>>, pooled: set<Buffer>, b: Buffer)
    requires ListsHold(available, pooled) && b !in pooled
    ensures ListsHold(available[b.size := FreeList(available, b.size) + [b]], pooled + {b})
  {
    var list := FreeList(available, b.size);
    assert b !in list;
    var lists := available[b.size := list + [b]];
    forall c: Buffer ensures c in pooled + {b} <==> Filed(lists, c) {
      assert c in pooled <==> Filed(available, c);
      assert c.size == b.size ==> (c in pooled <==> c in list);
    }
  }

  lemma GiveBackKeepsOrder(config: Config, s: PoolState, b: Buffer)
    requires InOrder(config, s) && b in s.outstanding
    ensures InOrder(config, GiveBack(s, b))
    ensures var r := GiveBack(s, b);
            Size(r.outstanding) + b.size == Size(s.outstanding) && Size(r.pooled) == Size(s.pooled) + b.size
  {
    GiveBackKeepsLists(s.available, s.pooled, b);
    SizeRemove(s.outstanding, b);
    SizeAdd(s.pooled, b);
    assert (s.outstanding - {b}) + (s.pooled + {b}) == s.outstanding + s.pooled;
  }

  /** `p` bytes are charged; the additions wrap around. */
  function Charged(s: PoolState, p: nat): (r: PoolState) {
    var usage := Sum64(s.stats.current, p);
    s.(totalAllocated := Sum64(s.totalAllocated, p), wrapped := s.wrapped + Overflow(s, p),
       stats := s.stats.(totalAllocations := s.stats.totalAllocations + 1,
                         cacheMisses := s.stats.cacheMisses + 1, current := usage,
                         peak := if usage > s.stats.peak then usage else s.stats.peak))
  }

  /** A new block goes out, already charged. */
  ghost function Make(s: PoolState, size: nat): (r: PoolState) {
    s.(outstanding := s.outstanding + {Buffer(s.nextId, size)}, nextId := s.nextId + 1)
  }

  /** A block that cannot be laid out was charged all the same. */
  ghost function Lose(s: PoolState, size: nat): (r: PoolState) {
    s.(lost := s.lost + size, failures := s.failures + 1)
  }

  lemma MakeKeepsOrder(config: Config, s: PoolState, size: nat)
    requires InOrder(config, s) && config.Admissible(size)
    ensures InOrder(config, Make(s, size)) && Buffer(s.nextId, size) !in s.outstanding + s.pooled
    ensures Size(Make(s, size).outstanding) == Size(s.outstanding) + size
  {
    var b, r := Buffer(s.nextId, size), Make(s, size);
    forall c <- s.outstanding + s.pooled ensures c != b {
      assert IsProper(config, s.nextId, c);
    }
    assert b !in s.outstanding + s.pooled;
    assert b !in s.outstanding && b !in s.pooled;
    SizeAdd(s.outstanding, b);
    forall c <- r.outstanding + r.pooled ensures IsProper(config, r.nextId, c) {
      assert c != b ==> c in s.outstanding + s.pooled && IsProper(config, s.nextId, c);
    }
  }

  /** What a request is answered, and the pool after it. */
  datatype Outcome = Outcome(reply: Result<Buffer, Error>, state: PoolState)

  ghost function Refuse(s: PoolState): (r: PoolState) {
    s.(refusals := s.refusals + 1, stats := s.stats.(totalAllocations := s.stats.totalAllocations + 1))
  }

  /** A request that no free list serves, for blocks of `p` bytes. */
  ghost function Fresh(config: Config, p: nat, s: PoolState): (o: Outcome) {
    if Sum64(s.totalAllocated, p) > config.maxMemory then
      Outcome(Err(OutOfMemory(p, Saturating(config.maxMemory - s.totalAllocated))), Refuse(s))
    else if config.Layable(p) then Outcome(Ok(Buffer(s.nextId, p)), Make(Charged(s, p), p))
    else Outcome(Err(AllocationFailed(p)), Lose(Charged(s, p), p))
  }

  /** A request whose blocks have `p` bytes. */
  ghost function Answer(config: Config, p: nat, s: PoolState): (o: Outcome) {
    var list := FreeList(s.available, p);
    if p > config.maxAllocation then Outcome(Err(AllocationTooLarge(p)), s)
    else if list != [] then Outcome(Ok(list[0]), Take(s, p))
    else Fresh(config, p, s)
  }

  /** Even where the sum wraps around, a block that is charged fits the budget by itself. */
  lemma ChargedBlockFits(total: nat, p: nat, budget: nat)
    requires total <= budget < TWO64 && p <= TWO63 && Sum64(total, p) <= budget
    ensures p <= budget
  {
  }

  lemma FreshKeepsOrder(config: Config, p: nat, s: PoolState)
    requires config.Machine() && InOrder(config, s) && s.totalAllocated <= config.maxMemory && config.IsClass(p)
    ensures InOrder(config, Fresh(config, p, s).state)
    ensures Sum64(s.totalAllocated, p) <= config.maxMemory ==> config.Admissible(p)
  {
    if Sum64(s.totalAllocated, p) <= config.maxMemory {
      ChargedBlockFits(s.totalAllocated, p, config.maxMemory);
      MakeKeepsOrder(config, Charged(s, p), p);
    }
  }

  lemma ChargedTallies(config: Config, p: nat, s: PoolState, out: nat, free: nat)
    requires config.Machine() && Tallies(config, s, out, free) && p <= TWO63
    requires Sum64(s.totalAllocated, p) <= config.maxMemory && Buffer(s.nextId, p) !in s.outstanding
    ensures Tallies(config, Make(Charged(s, p), p), out + p, free)
    ensures Tallies(config, Lose(Charged(s, p), p), out, free)
  {
  }

  lemma RefuseTallies(config: Config, s: PoolState, out: nat, free: nat)
    requires Tallies(config, s, out, free)
    ensures Tallies(config, Refuse(s), out, free)
  {
  }

  lemma MadeKeepsBalance(config: Config, p: nat, s: PoolState)
    requires config.Machine() && InOrder(config, s) && Balanced(config, s) && config.Admissible(p)
    requires Sum64(s.totalAllocated, p) <= config.maxMemory
    ensures Balanced(config, Make(Charged(s, p), p)) && Balanced(config, Lose(Charged(s, p), p))
  {
    MakeKeepsOrder(config, Charged(s, p), p);
    ChargedTallies(config, p, s, Size(s.outstanding), Size(s.pooled));
  }

  lemma FreshKeepsBalance(config: Config, p: nat, s: PoolState)
    requires config.Machine() && InOrder(config, s) && Balanced(config, s) && config.IsClass(p)
    ensures Balanced(config, Fresh(config, p, s).state)
  {
    FreshKeepsOrder(config, p, s);
    if Sum64(s.totalAllocated, p) <= config.maxMemory {
      MadeKeepsBalance(config, p, s);
    } else {
      RefuseTallies(config, s, Size(s.outstanding), Size(s.pooled));
    }
  }

  lemma TakeTallies(config: Config, p: nat, s: PoolState, out: nat, free: nat)
    requires Tallies(config, s, out, free) && FreeList(s.available, p) != [] && p <= free
    requires var b := FreeList(s.available, p)[0]; b in s.pooled && b !in s.outstanding
    ensures Tallies(config, Take(s, p), out + p, free - p)
  {
  }

  lemma TakeKeepsBalance(config: Config, p: nat, s: PoolState)
    requires InOrder(config, s) && Balanced(config, s) && FreeList(s.available, p) != []
    ensures Balanced(config, Take(s, p))
  {
    TakeKeepsOrder(config, s, p);
    TakeTallies(config, p, s, Size(s.outstanding), Size(s.pooled));
  }

  lemma GiveBackTallies(config: Config, s: PoolState, b: Buffer, out: nat, free: nat)
    requires Tallies(config, s, out, free) && b.size <= out && b in s.outstanding && b !in s.pooled
    ensures Tallies(config, GiveBack(s, b), out - b.size, free + b.size)
  {
  }

  /** Any answer keeps the free lists in order and the counters balanced, also where sums wrap around. */
  lemma AnswersKeepBalance(config: Config, p: nat, s: PoolState)
    requires config.Machine() && InOrder(config, s) && Balanced(config, s)
    requires p <= config.maxAllocation ==> config.IsClass(p)
    ensures InOrder(config, Answer(config, p, s).state) && Balanced(config, Answer(config, p, s).state)
  {
    if p <= config.maxAllocation {
      if FreeList(s.available, p) != [] {
        TakeKeepsOrder(config, s, p);
        TakeKeepsBalance(config, p, s);
      } else {
        FreshKeepsOrder(config, p, s);
        FreshKeepsBalance(config, p, s);
      }
    }
  }

  lemma ReleaseKeepsBalance(config: Config, s: PoolState, b: Buffer)
    requires InOrder(config, s) && Balanced(config, s) && b in s.outstanding
    ensures InOrder(config, GiveBack(s, b)) && Balanced(config, GiveBack(s, b))
  {
    GiveBackKeepsOrder(config, s, b);
    GiveBackTallies(config, s, b, Size(s.outstanding), Size(s.pooled));
  }

  // ----- Runs

  /** A caller asks for a block, or gives back one of its own. */
  datatype Request = Ask(size: nat) | Return(block: Buffer)

  /** A request above 2^63 never comes back from rounding, so it changes nothing; only held blocks can be returned. */
  ghost function Step(config: Config, s: PoolState, q: Request): (r: PoolState) {
    match q
    case Ask(size) =>
      if config.Wanted(size) > TWO63 then s else Answer(config, RoundUp(config.Wanted(size)), s).state
    case Return(b) => if b in s.outstanding then GiveBack(s, b) else s
  }

  ghost function After(config: Config, start: PoolState, run: seq<Request>): (s: PoolState)
    decreases |run|
  {
    if run == [] then start else Step(config, After(config, start, run[..|run| - 1]), run[|run| - 1])
  }

  lemma AfterLast(config: Config, start: PoolState, run: seq<Request>, q: Request)
    ensures After(config, start, run + [q]) == Step(config, After(config, start, run), q)
  {
    assert (run + [q])[..|run|] == run;
  }

  lemma RoundedIsClass(config: Config, size: nat)
    requires config.Wanted(size) <= TWO63
    ensures var p := RoundUp(config.Wanted(size)); p <= config.maxAllocation ==> config.IsClass(p)
  {
    RoundUpIsClass(config.Wanted(size));
    var e := TwoTo63();
    assert IsPow2(TWO63);
  }

  lemma StepKeepsBalance(config: Config, s: PoolState, q: Request)
    requires config.Machine() && InOrder(config, s) && Balanced(config, s)
    ensures InOrder(config, Step(config, s, q)) && Balanced(config, Step(config, s, q))
  {
    match q
    case Ask(size) =>
      if config.Wanted(size) <= TWO63 {
        RoundedIsClass(config, size);
        AnswersKeepBalance(config, RoundUp(config.Wanted(size)), s);
      }
    case Return(b) =>
      if b in s.outstanding { ReleaseKeepsBalance(config, s, b); }
  }

  lemma NewIsBalanced(config: Config, s: PoolState)
    requires IsNew(s)
    ensures InOrder(config, s) && Balanced(config, s) && Unwrapped(config, s)
  {
  }

  /** Order and balance, in every run of every pool. */
  lemma {:induction false} RunsKeepBalance(config: Config, start: PoolState, run: seq<Request>)
    requires config.Machine() && IsNew(start)
    ensures InOrder(config, After(config, start, run)) && Balanced(config, After(config, start, run))
    decreases |run|
  {
    if run == [] {
      NewIsBalanced(config, start);
    } else {
      RunsKeepBalance(config, start, run[..|run| - 1]);
      StepKeepsBalance(config, After(config, start, run[..|run| - 1]), run[|run| - 1]);
    }
  }

  lemma StepWraps(config: Config, s: PoolState, q: Request)
    ensures Step(config, s, q).wrapped == s.wrapped || Step(config, s, q).wrapped == s.wrapped + TWO64
  {
  }

  lemma OneLap(n: nat)
    requires n % TWO64 == 0
    ensures (n + TWO64) % TWO64 == 0
  {
  }

  lemma WholeLaps(total: nat, laps: nat, held: nat)
    requires total < TWO64 && laps % TWO64 == 0 && held == total + laps
    ensures total == held % TWO64
  {
  }

  lemma {:induction false} RunsWrapWhole(config: Config, start: PoolState, run: seq<Request>)
    requires IsNew(start)
    ensures After(config, start, run).wrapped % TWO64 == 0
    decreases |run|
  {
    if run != [] {
      RunsWrapWhole(config, start, run[..|run| - 1]);
      StepWraps(config, After(config, start, run[..|run| - 1]), run[|run| - 1]);
      OneLap(After(config, start, run[..|run| - 1]).wrapped);
    }
  }

  lemma BalancedTotal(config: Config, s: PoolState)
    requires config.Machine() && Balanced(config, s)
    ensures Held(s) == s.totalAllocated + s.wrapped && s.totalAllocated < TWO64
  {
  }

  /** In every run of every pool, the total on the books is what is handed out, pooled or lost, modulo 2^64. */
  lemma ConservedModulo(config: Config, start: PoolState, run: seq<Request>)
    requires config.Machine() && IsNew(start)
    ensures var s := After(config, start, run); s.totalAllocated == Held(s) % TWO64
  {
    var s := After(config, start, run);
    RunsKeepBalance(config, start, run);
    RunsWrapWhole(config, start, run);
    BalancedTotal(config, s);
    WholeLaps(s.totalAllocated, s.wrapped, Held(s));
  }

  /** Nothing wrapped around so far. */
  predicate Unwrapped(config: Config, s: PoolState) {
    s.wrapped == 0 && s.stats.peak <= config.maxMemory
  }

  lemma FreshStaysUnwrapped(config: Config, p: nat, s: PoolState, out: nat, free: nat)
    requires config.SumsFit() && config.IsClass(p) && Tallies(config, s, out, free) && Unwrapped(config, s)
    ensures Unwrapped(config, Fresh(config, p, s).state)
  {
    FittingSums(config, p);
    assert Sum64(s.totalAllocated, p) == s.totalAllocated + p;
  }

  lemma StepStaysUnwrapped(config: Config, s: PoolState, q: Request, out: nat, free: nat)
    requires config.SumsFit() && Tallies(config, s, out, free) && Unwrapped(config, s)
    ensures Unwrapped(config, Step(config, s, q))
  {
    if q.Ask? && config.Wanted(q.size) <= TWO63 {
      var p := RoundUp(config.Wanted(q.size));
      RoundedIsClass(config, q.size);
      if p <= config.maxAllocation { FreshStaysUnwrapped(config, p, s, out, free); }
    }
  }

  lemma {:induction false} RunsKeepBudget(config: Config, start: PoolState, run: seq<Request>)
    requires config.Machine() && IsNew(start) && config.SumsFit()
    ensures Unwrapped(config, After(config, start, run)) && WithinBudget(config, After(config, start, run))
    decreases |run|
  {
    RunsKeepBalance(config, start, run);
    if run != [] {
      var before := After(config, start, run[..|run| - 1]);
      RunsKeepBalance(config, start, run[..|run| - 1]);
      RunsKeepBudget(config, start, run[..|run| - 1]);
      StepStaysUnwrapped(config, before, run[|run| - 1], Size(before.outstanding), Size(before.pooled));
    }
  }

  function Asks(p: nat, n: nat): (run: seq<Request>)
    ensures |run| == n
  {
    if n == 0 then [] else Asks(p, n - 1) + [Ask(p)]
  }

  /** After `n` requests for blocks of `p` bytes, `counted` bytes are on the books and `n * p` were charged. */
  ghost predicate Filled(s: PoolState, p: nat, n: nat, counted: nat) {
    s.available == map[] && s.pooled == {} && s.totalAllocated == counted && Held(s) == n * p
  }

  lemma AskFills(config: Config, s: PoolState, p: nat, n: nat, counted: nat)
    requires config.Machine() && InOrder(config, s) && config.IsClass(p) && Filled(s, p, n, counted)
    requires counted <= config.maxMemory && Sum64(counted, p) <= config.maxMemory
    ensures Filled(Step(config, s, Ask(p)), p, n + 1, Sum64(counted, p))
  {
    ClassIsUnique(p, p);
    assert config.Wanted(p) == p;
    FreshKeepsOrder(config, p, s);
    MakeKeepsOrder(config, Charged(s, p), p);
    assert Step(config, s, Ask(p)) == Fresh(config, p, s).state;
  }

  lemma {:induction false} Pow2Product(j: nat, k: nat)
    ensures Pow2(j) * Pow2(k) == Pow2(j + k)
    decreases j
  {
    if j > 0 {
      Pow2Product(j - 1, k);
      assert Pow2(j) * Pow2(k) == 2 * (Pow2(j - 1) * Pow2(k));
    }
  }

  /** A power of two up to 2^63 divides 2^64. */
  lemma DividesTwo64(p: nat) returns (n: nat)
    requires IsPow2(p) && p <= TWO63
    ensures n >= 1 && n * p == TWO64
  {
    var e := TwoTo63();
    var k: nat :| p == Pow2(k);
    if k > e { Pow2Increases(e, k); }
    n := Pow2(e + 1 - k);
    Pow2Product(e + 1 - k, k);
  }

  lemma MultipleBelow(k: nat, n: nat, p: nat)
    requires k < n
    ensures k * p + p <= n * p && (k + 1) * p == k * p + p
  {
    assert (n - k - 1) * p >= 0;
    assert n * p == k * p + p + (n - k - 1) * p;
  }

  lemma {:induction false} AsksFill(config: Config, start: PoolState, p: nat, k: nat, n: nat)
    requires config.Machine() && IsNew(start) && config.IsClass(p) && config.maxMemory + p >= TWO64
    requires n * p == TWO64 && k < n
    ensures Filled(After(config, start, Asks(p, k)), p, k, k * p)
    decreases k
  {
    if k > 0 {
      var before := After(config, start, Asks(p, k - 1));
      AsksFill(config, start, p, k - 1, n);
      RunsKeepBalance(config, start, Asks(p, k - 1));
      MultipleBelow(k - 1, n, p);
      MultipleBelow(k, n, p);
      AskFills(config, before, p, k - 1, (k - 1) * p);
      AfterLast(config, start, Asks(p, k - 1), Ask(p));
    }
  }

  /**
   * Where the sum can reach 2^64 some run reaches it: after 2^64 / p requests for the largest block, 2^64
   * bytes have been charged and the books are back at zero.
   */
  lemma OverflowingRun(config: Config, start: PoolState) returns (p: nat, n: nat)
    requires config.Machine() && IsNew(start) && !config.SumsFit()
    ensures config.IsClass(p) && n * p == TWO64
    ensures var s := After(config, start, Asks(p, n)); s.totalAllocated == 0 && Held(s) == TWO64 > config.maxMemory
  {
    p := LargestClass(config);
    n := DividesTwo64(p);
    var before := After(config, start, Asks(p, n - 1));
    AsksFill(config, start, p, n - 1, n);
    RunsKeepBalance(config, start, Asks(p, n - 1));
    MultipleBelow(n - 1, n, p);
    AskFills(config, before, p, n - 1, (n - 1) * p);
    AfterLast(config, start, Asks(p, n - 1), Ask(p));
  }

  /**
   * The budget holds for the bytes themselves, in every run of a new pool, exactly when the budget and the
   * largest block that can be asked for add up below 2^64.
   */
  lemma BudgetHoldsIff(config: Config, start: PoolState)
    requires config.Machine() && IsNew(start)
    ensures (forall run: seq<Request> :: WithinBudget(config, After(config, start, run))) <==> config.SumsFit()
  {
    if config.SumsFit() {
      forall run: seq<Request> ensures WithinBudget(config, After(config, start, run)) {
        RunsKeepBudget(config, start, run);
      }
    } else {
      var p, n := OverflowingRun(config, start);
      assert !WithinBudget(config, After(config, start, Asks(p, n)));
    }
  }

  /** With an unlimited budget and blocks of 2^63 bytes, the second request wraps the total around to zero. */
  lemma UnlimitedBudgetWraps(config: Config, start: PoolState)
    requires config.Machine() && IsNew(start)
    requires config.maxMemory == TWO64 - 1 && config.minAllocation <= TWO63 <= config.maxAllocation
    ensures var s := After(config, start, [Ask(TWO63)] + [Ask(TWO63)]); s.totalAllocated == 0 && Held(s) == TWO64
  {
    var e := TwoTo63();
    assert config.IsClass(TWO63);
    var one := [Ask(TWO63)];
    NewIsBalanced(config, start);
    AskFills(config, start, TWO63, 0, 0);
    assert [] + one == one;
    AfterLast(config, start, [], Ask(TWO63));
    RunsKeepBalance(config, start, one);
    AskFills(config, After(config, start, one), TWO63, 1, TWO63);
    AfterLast(config, start, one, Ask(TWO63));
  }

  lemma FreshKeepsLosses(config: Config, p: nat, s: PoolState)
    requires config.Machine() && InOrder(config, s) && s.totalAllocated <= config.maxMemory && config.IsClass(p)
    requires config.AlwaysLayable()
    ensures Fresh(config, p, s).state.lost == s.lost
  {
    FreshKeepsOrder(config, p, s);
  }

  lemma {:induction false} RunsLoseNothing(config: Config, start: PoolState, run: seq<Request>)
    requires config.Machine() && IsNew(start) && config.AlwaysLayable()
    ensures After(config, start, run).lost == 0
    decreases |run|
  {
    if run != [] {
      var before, q := After(config, start, run[..|run| - 1]), run[|run| - 1];
      RunsKeepBalance(config, start, run[..|run| - 1]);
      RunsLoseNothing(config, start, run[..|run| - 1]);
      if q.Ask? && config.Wanted(q.size) <= TWO63 {
        var p := RoundUp(config.Wanted(q.size));
        RoundedIsClass(config, q.size);
        if p <= config.maxAllocation { FreshKeepsLosses(config, p, before); }
      }
    }
  }

  /** The first request for a block that cannot be laid out is charged although no block exists. */
  lemma LossOtherwise(config: Config, start: PoolState, size: nat)
    requires config.Machine() && IsNew(start) && config.Admissible(size) && !config.Layable(size)
    ensures var s := After(config, start, [] + [Ask(size)]);
            s.outstanding == {} && s.pooled == {} && s.lost == s.totalAllocated == size > 0
  {
    ClassIsUnique(size, size);
    AfterLast(config, start, [], Ask(size));
    assert config.Wanted(size) == size;
  }

  /** No run of a new pool loses bytes exactly when every block the pool may have to make can be laid out. */
  lemma NothingLostIff(config: Config, start: PoolState)
    requires config.Machine() && IsNew(start)
    ensures (forall run: seq<Request> :: After(config, start, run).lost == 0) <==> config.AlwaysLayable()
  {
    if config.AlwaysLayable() {
      forall run: seq<Request> ensures After(config, start, run).lost == 0 {
        RunsLoseNothing(config, start, run);
      }
    } else {
      var size: nat :| config.Admissible(size) && !config.Layable(size);
      LossOtherwise(config, start, size);
    }
  }

  /** The pool before the request at hand was counted. */
  ghost function Uncounted(s: PoolState): (r: PoolState)
    requires s.stats.totalAllocations > 0
  {
    s.(stats := s.stats.(totalAllocations := s.stats.totalAllocations - 1))
  }

  class Pool {
    const config: Config
    var available: map<nat, seq<Buffer>>
    var totalAllocated: nat
    var stats: Stats
    /** The identity of the next block made. */
    var nextId: nat

    ghost var outstanding: set<Buffer>
    ghost var pooled: set<Buffer>
    ghost var lost: nat
    ghost var failures: nat
    ghost var refusals: nat
    ghost var wrapped: nat

    ghost function View(): (s: PoolState)
      reads this
    {
      PoolState(available, totalAllocated, stats, nextId, outstanding, pooled, lost, failures, refusals, wrapped)
    }

    ghost predicate Valid()
      reads this
    {
      && config.Machine() && InOrder(config, View()) && Balanced(config, View())
      && (config.SumsFit() ==> Unwrapped(config, View()))
    }

    constructor (config: Config)
      requires config.Machine()
      ensures Valid() && this.config == config && IsNew(View())
    {
      this.config := config;
      available, totalAllocated, stats, nextId := map[], 0, Stats(0, 0, 0, 0, 0, 0), 0;
      outstanding, pooled, lost, failures, refusals, wrapped := {}, {}, 0, 0, 0, 0;
      new;
      Begin();
    }

    /** What a new pool is valid by. */
    lemma Begin()
      requires config.Machine() && IsNew(View())
      ensures Valid()
    {
      NewIsBalanced(config, View());
    }

    /** Take the first block of the free list for `size`, if there is one. */
    method TryReuse(size: nat) returns (b: Option<Buffer>)
      modifies this`available, this`outstanding, this`pooled
      ensures var list := FreeList(old(available), size);
              if list == [] then b.None? && View() == old(View())
              else b == Some(list[0]) && View() == Take(old(View()), size).(stats := stats)
    {
      if size !in available || |available[size]| == 0 {
        return None;
      }
      var list := available[size];
      available := available[size := list[1..]];
      outstanding, pooled := outstanding + {list[0]}, pooled - {list[0]};
      return Some(list[0]);
    }

    /** `SecureBuffer::new` for a block already charged. */
    method NewBuffer(size: nat) returns (r: Result<Buffer, Error>)
      modifies this`outstanding, this`nextId, this`lost, this`failures
      ensures if config.Layable(size) then r == Ok(Buffer(old(nextId), size)) && View() == Make(old(View()), size)
              else r == Err(AllocationFailed(size)) && View() == Lose(old(View()), size)
    {
      HasOneBitIff(config.alignment);
      if HasOneBit(config.alignment) && size + config.alignment <= TWO63 {
        outstanding := outstanding + {Buffer(nextId, size)};
        nextId := nextId + 1;
        return Ok(Buffer(nextId - 1, size));
      }
      lost, failures := lost + size, failures + 1;
      return Err(AllocationFailed(size));
    }

    method Allocate(size: nat) returns (r: Result<Buffer, Error>)
      requires Valid() && config.Wanted(size) <= TWO63
      modifies this
      ensures Valid() && View() == Step(config, old(View()), Ask(size))
      ensures r == Answer(config, RoundUp(config.Wanted(size)), old(View())).reply
    {
      StepKeepsBalance(config, View(), Ask(size));
      if config.SumsFit() {
        StepStaysUnwrapped(config, View(), Ask(size), Size(outstanding), Size(pooled));
      }
      var poolSize := RoundUpToPowerOf2(if size < config.minAllocation then config.minAllocation else size);
      if poolSize > config.maxAllocation {
        return Err(AllocationTooLarge(poolSize));
      }
      r := AllocateRounded(poolSize);
    }

    /** `allocate` once the size is rounded up and not too large. */
    method AllocateRounded(poolSize: nat) returns (r: Result<Buffer, Error>)
      requires poolSize <= config.maxAllocation
      modifies this
      ensures Outcome(r, View()) == Answer(config, poolSize, old(View()))
    {
      stats := stats.(totalAllocations := stats.totalAllocations + 1);
      var reused := TryReuse(poolSize);
      if reused.Some? {
        stats := stats.(cacheHits := stats.cacheHits + 1);
        return Ok(reused.value);
      }
      r := AllocateNew(poolSize);
    }

    /** A request that is counted already and that no free list serves. */
    method AllocateNew(poolSize: nat) returns (r: Result<Buffer, Error>)
      requires stats.totalAllocations > 0
      modifies this
      ensures Outcome(r, View()) == Fresh(config, poolSize, Uncounted(old(View())))
    {
      if Sum64(totalAllocated, poolSize) > config.maxMemory {
        refusals := refusals + 1;
        return Err(OutOfMemory(poolSize, Saturating(config.maxMemory - totalAllocated)));
      }
      Charge(poolSize);
      r := NewBuffer(poolSize);
    }

    method Charge(poolSize: nat)
      requires stats.totalAllocations > 0
      modifies this`totalAllocated, this`stats, this`wrapped
      ensures View() == Charged(Uncounted(old(View())), poolSize)
    {
      wrapped := wrapped + Overflow(View(), poolSize);
      totalAllocated := Sum64(totalAllocated, poolSize);
      stats := stats.(cacheMisses := stats.cacheMisses + 1, current := Sum64(stats.current, poolSize));
      if stats.current > stats.peak {
        stats := stats.(peak := stats.current);
      }
    }

    method Deallocate(buffer: Buffer)
      requires Valid() && buffer in outstanding
      modifies this
      ensures Valid() && View() == Step(config, old(View()), Return(buffer))
    {
      StepKeepsBalance(config, View(), Return(buffer));
      if config.SumsFit() {
        StepStaysUnwrapped(config, View(), Return(buffer), Size(outstanding), Size(pooled));
      }
      PushBack(buffer);
    }

    /** Count the deallocation and append the block to its free list. */
    method PushBack(buffer: Buffer)
      modifies this`stats, this`available, this`outstanding, this`pooled
      ensures View() == GiveBack(old(View()), buffer)
    {
      stats := stats.(totalDeallocations := stats.totalDeallocations + 1,
                      current := Saturating(stats.current - buffer.size));
      available := available[buffer.size := FreeList(available, buffer.size) + [buffer]];
      outstanding, pooled := outstanding - {buffer}, pooled + {buffer};
    }
  }

  /** With a power-of-two alignment, losses are impossible while no block is larger than 2^63 less the alignment. */
  lemma AlignedPoolsNeverLose(config: Config)
    requires IsPow2(config.alignment) && config.maxAllocation + config.alignment <= TWO63
    ensures config.AlwaysLayable()
  {
  }
}
