/** What the 64-bit memory counter of a bucket counts, and when it can be trusted. */
module LruMemory {
  import opened Wire
  import opened Messages
  import opened LruCache
  import Seqs

  function SumUsed(list: seq<Node>): int {
    if list == [] then 0 else Used(list[0]) + SumUsed(list[1..])
  }

  // The integer the counter stands for: new nodes are never charged their fixed overhead.
  function Balance(s: State): int {
    SumUsed(s.list) - OVERHEAD * s.created
  }

  predicate Accounted(s: State) {
    s.memory == Wrap64(Balance(s))
  }

  lemma WrapAdd(x: int, y: int)
    ensures Wrap64(Wrap64(x) + y) == Wrap64(x + y)
  {
  }

  lemma {:induction false} SumUsedConcat(a: seq<Node>, b: seq<Node>)
    ensures SumUsed(a + b) == SumUsed(a) + SumUsed(b)
    decreases |a|
  {
    hide Used;
    if a == [] {
      assert a + b == b;
    } else {
      SumUsedConcat(a[1..], b);
      assert (a + b)[1..] == a[1..] + b;
    }
  }

  lemma SumUsedOne(d: Node)
    ensures SumUsed([d]) == Used(d)
  {
    var none: seq<Node> := [];
    assert [d][1..] == none;
  }

  lemma SumUsedSwap(a: seq<Node>, b: seq<Node>, c: seq<Node>)
    ensures SumUsed(a + b + c) == SumUsed(a + c + b)
  {
    hide SumUsed;
    SumUsedConcat(a + b, c);
    SumUsedConcat(a, b);
    SumUsedConcat(a + c, b);
    SumUsedConcat(a, c);
  }

  lemma SumUsedMove(list: seq<Node>, p: nat)
    requires p < |list|
    ensures SumUsed(MoveToBack(list, p)) == SumUsed(list)
  {
    hide SumUsed;
    Seqs.Pieces(list, p);
    SumUsedSwap(list[..p], list[p + 1..], [list[p]]);
    assert MoveToBack(list, p) == list[..p] + list[p + 1..] + [list[p]];
  }

  lemma SumUsedLast(list: seq<Node>, d: Node)
    requires list != []
    ensures SumUsed(list[|list| - 1 := d]) == SumUsed(list) - Used(list[|list| - 1]) + Used(d)
  {
    hide SumUsed, Used;
    var n := |list| - 1;
    SumUsedConcat(list[..n], [list[n]]);
    SumUsedConcat(list[..n], [d]);
    assert list == list[..n] + [list[n]];
    assert list[n := d] == list[..n] + [d];
    SumUsedOne(d);
    SumUsedOne(list[n]);
  }

  lemma FindOrInsertBalance(s: State, k: Bytes)
    requires FindOrInsert(s, k).Some?
    ensures Balance(FindOrInsert(s, k).value) == Balance(s)
    ensures FindOrInsert(s, k).value.memory == s.memory
  {
    if k in s.index {
      hide SumUsed;
      SumUsedMove(s.list, Position(s.list, s.index[k]));
    } else {
      hide SumUsed;
      var d := Node(s.created, [], [], 0, 0);
      SumUsedConcat(s.list, [d]);
      SumUsedOne(d);
    }
  }

  lemma FillBalance(s: State, k: Bytes, kv: KeyValue)
    requires s.list != []
    ensures var s' := Fill(s, k, kv);
      && Balance(s') == Balance(s) - Used(s.list[|s.list| - 1]) + Used(s'.list[|s.list| - 1])
      && s'.memory == Wrap64(s.memory - Used(s.list[|s.list| - 1]) + Used(s'.list[|s.list| - 1]))
  {
    hide SumUsed, Used, Wrap64;
    var s' := Fill(s, k, kv);
    var last := |s.list| - 1;
    SumUsedLast(s.list, s'.list[last]);
    WrapAdd(s.memory - Used(s.list[last]), Used(s'.list[last]));
  }

  lemma EvictFirstBalance(s: State)
    requires s.list != []
    ensures Balance(EvictFirst(s)) == Balance(s) - Used(s.list[0])
    ensures Accounted(s) ==> Accounted(EvictFirst(s))
  {
    hide Used, Wrap64;
    WrapAdd(Balance(s), -Used(s.list[0]));
  }

  lemma {:induction false} EvictAccounted(s: State, n: nat)
    requires Accounted(s) && n <= |s.list|
    ensures Accounted(Evict(s, n))
    decreases n
  {
    hide Accounted, EvictFirst;
    if n > 0 {
      EvictFirstBalance(s);
      EvictAccounted(EvictFirst(s), n - 1);
    }
  }

  lemma StepAccounted(s: State, params: Params, op: Op)
    requires Accounted(s) && Step(s, params, op).Some?
    ensures Accounted(Step(s, params, op).value)
  {
    hide Evict, Evicted, Step, FindOrInsert, Fill, Wrap64, Used, SumUsed;
    var s1 := Evict(s, Evicted(s, params, op));
    EvictedThenStep(s, params, op);
    EvictAccounted(s, Evicted(s, params, op));
    FindOrInsertBalance(s1, op.k);
    if op.Put? {
      var s2 := FindOrInsert(s1, op.k).value;
      FillBalance(s2, op.k, op.kv);
      var s3 := Fill(s2, op.k, op.kv);
      var last := |s2.list| - 1;
      WrapAdd(Balance(s2), Used(s3.list[last]) - Used(s2.list[last]));
    }
  }

  /**
   In every run, whatever is evicted, the counter is the sum of what the live nodes use minus
   twelve bytes for each node ever created, modulo 2^64; it is that number itself exactly when
   the number fits.
   */
  lemma {:induction false} MemoryOfRun(params: Params, ops: seq<Op>)
    requires Run(params, ops).Some?
    ensures Accounted(Run(params, ops).value)
    ensures Run(params, ops).value.memory == Balance(Run(params, ops).value)
       <==> 0 <= Balance(Run(params, ops).value) < TWO_64
    decreases |ops|
  {
    if ops == [] {
      assert Accounted(EmptyBucket);
    } else {
      hide Step, Accounted;
      MemoryOfRun(params, ops[..|ops| - 1]);
      StepAccounted(Run(params, ops[..|ops| - 1]).value, params, ops[|ops| - 1]);
    }
    FitsIff(Run(params, ops).value);
  }

  lemma FitsIff(s: State)
    requires Accounted(s)
    ensures s.memory == Balance(s) <==> 0 <= Balance(s) < TWO_64
  {
    hide SumUsed;
  }

  // ---------------------------------------------------------------- when the counter is exact

  predicate Exact(s: State) {
    s.memory == Balance(s) && s.memory < TWO_64
  }

  lemma {:induction false} EvictBalance(s: State, n: nat)
    requires n <= |s.list|
    ensures Balance(Evict(s, n)) == Balance(s) - SumUsed(s.list[..n])
    decreases n
  {
    if n > 0 {
      hide Used, Balance, EvictFirst;
      var s' := EvictFirst(s);
      EvictFirstBalance(s);
      EvictBalance(s', n - 1);
      EvictFirstList(s);
      assert s.list[..n][1..] == s'.list[..n - 1];
    }
  }

  lemma EvictFirstList(s: State)
    requires s.list != []
    ensures EvictFirst(s).list == s.list[1..]
  {
  }

  /** Evicting n nodes keeps an exact counter exact exactly when it covers what they are charged. */
  lemma EvictionExactIff(s: State, n: nat)
    requires Exact(s) && n <= |s.list|
    ensures Exact(Evict(s, n)) <==> 0 <= s.memory - SumUsed(s.list[..n]) < TWO_64
  {
    hide SumUsed, Evict;
    assert Accounted(s);
    EvictAccounted(s, n);
    EvictBalance(s, n);
    FitsIff(Evict(s, n));
  }

  // The counter when m nodes are gone.
  function Left(s: State, m: nat): nat
    requires m <= |s.list|
  {
    Wrap64(s.memory - SumUsed(s.list[..m]))
  }

  lemma LeftNext(s: State, m: nat)
    requires s.list != [] && m < |s.list|
    ensures |EvictFirst(s).list| == |s.list| - 1 && Left(EvictFirst(s), m) == Left(s, m + 1)
  {
    hide Used;
    var s' := EvictFirst(s);
    assert s.list[..m + 1][1..] == s'.list[..m];
    WrapAdd(s.memory - Used(s.list[0]), -SumUsed(s'.list[..m]));
  }

  /** The loop takes the fewest nodes that bring the counter below the target, or all of them. */
  lemma {:induction false} EvictCountMeans(s: State, target: nat)
    ensures var n := EvictCount(s, target);
      && (s.list != [] ==> n > 0)
      && (forall m :: 0 < m < n ==> Left(s, m) >= target)
      && (n < |s.list| ==> Left(s, n) < target)
    decreases |s.list|
  {
    if s.list != [] {
      hide Left;
      var s', n := EvictFirst(s), EvictCount(s, target);
      LeftNext(s, 0);
      assert Left(s', 0) == s'.memory by {
        NothingGone(s');
      }
      if s'.memory >= target {
        EvictCountMeans(s', target);
        forall m | 0 < m < n
          ensures Left(s, m) >= target
        {
          LeftNext(s, m - 1);
        }
        if n < |s.list| { LeftNext(s, n - 1); }
      }
    }
  }

  lemma NothingGone(s: State)
    requires s.memory < TWO_64
    ensures Left(s, 0) == s.memory
  {
    assert s.list[..0] == [];
  }

  // What the entry that a Put overwrites is charged, once n nodes are gone.
  function Overwritten(s: State, n: nat, k: Bytes): int
    requires n <= |s.list|
  {
    if k in s.index && (forall i :: 0 <= i < n ==> s.list[i].key != k) then
      var p := Position(s.list[n..], s.index[k]);
      if p < |s.list| - n then Used(s.list[n..][p]) else 0
    else OVERHEAD
  }

  lemma FoundUsed(s: State, n: nat, k: Bytes)
    requires n <= |s.list| && FindOrInsert(Evict(s, n), k).Some?
    ensures var found := FindOrInsert(Evict(s, n), k).value;
      Used(found.list[|found.list| - 1]) == Overwritten(s, n, k)
  {
    hide Evict, Narrow32;
    EvictShape(s, n);
    assert Narrow32(OVERHEAD) == OVERHEAD;
  }

  /** Whether the counter has room for an operation, told from the state before it. */
  predicate Room(s: State, params: Params, op: Op) {
    op.Put? ==>
      var n := Evicted(s, params, op);
      var written := Narrow32(|op.k| + |op.kv.Val()| + OVERHEAD);
      0 <= s.memory - SumUsed(s.list[..n]) - Overwritten(s, n, op.k) + written < TWO_64
  }

  lemma PutBalance(s: State, params: Params, op: Op)
    requires op.Put? && Step(s, params, op).Some?
    ensures var n := Evicted(s, params, op);
      Balance(Step(s, params, op).value) ==
        Balance(s) - SumUsed(s.list[..n]) - Overwritten(s, n, op.k) + Narrow32(|op.k| + |op.kv.Val()| + OVERHEAD)
  {
    hide SumUsed, Evict, Evicted, Step, FindOrInsert, Overwritten, Balance, Narrow32, Wrap64;
    var n := Evicted(s, params, op);
    EvictedThenStep(s, params, op);
    EvictBalance(s, n);
    FindOrInsertBalance(Evict(s, n), op.k);
    FoundUsed(s, n, op.k);
    var found := FindOrInsert(Evict(s, n), op.k).value;
    FillBalance(found, op.k, op.kv);
    assert Used(Fill(found, op.k, op.kv).list[|found.list| - 1]) == Narrow32(|op.k| + |op.kv.Val()| + OVERHEAD);
  }

  /** An operation keeps an exact counter exact exactly when there is room for it. */
  lemma StepExactIff(s: State, params: Params, op: Op)
    requires Exact(s) && Step(s, params, op).Some?
    ensures Exact(Step(s, params, op).value) <==> Room(s, params, op)
  {
    hide SumUsed, Evicted, Step, Overwritten, Narrow32;
    assert Accounted(s);
    StepAccounted(s, params, op);
    FitsIff(Step(s, params, op).value);
    if op.Put? {
      PutBalance(s, params, op);
    } else {
      GetBalance(s, params, op);
    }
  }

  lemma GetBalance(s: State, params: Params, op: Op)
    requires op.Get? && Step(s, params, op).Some?
    ensures Balance(Step(s, params, op).value) == Balance(s)
  {
    FindOrInsertBalance(s, op.k);
  }

  predicate AlwaysExact(params: Params, ops: seq<Op>)
    requires Run(params, ops).Some?
  {
    Exact(Run(params, ops).value) && (ops == [] || AlwaysExact(params, ops[..|ops| - 1]))
  }

  predicate AlwaysRoom(params: Params, ops: seq<Op>)
    requires Run(params, ops).Some?
  {
    ops == [] ||
    (AlwaysRoom(params, ops[..|ops| - 1])
     && Room(Run(params, ops[..|ops| - 1]).value, params, ops[|ops| - 1]))
  }

  /** In a run the counter is exact throughout exactly when there was room for every operation. */
  lemma {:induction false} RunExactIff(params: Params, ops: seq<Op>)
    requires Run(params, ops).Some?
    ensures AlwaysExact(params, ops) <==> AlwaysRoom(params, ops)
    decreases |ops|
  {
    if ops == [] {
      assert Exact(EmptyBucket);
    } else {
      hide Step, Exact, Room;
      var before := ops[..|ops| - 1];
      RunExactIff(params, before);
      if AlwaysExact(params, before) {
        StepExactIff(Run(params, before).value, params, ops[|ops| - 1]);
      }
    }
  }

  // ---------------------------------------------------------------- when the counter does not wrap

  // Entries are at most `largest` bytes; an eviction asks for more than that.
  predicate Sensible(params: Params, largest: nat) {
    && largest <= params.decreaseBy
    && largest + OVERHEAD < TWO_31
    && 2 * params.decreaseBy + OVERHEAD <= params.threshold
    && params.threshold + largest < TWO_64
  }

  /** Any capacity gives sensible limits for entries up to the eviction step, which is 100 KiB or more. */
  lemma ConstructorIsSensible(capacity: nat, largest: nat)
    requires capacity < TWO_64
    ensures Sensible(MakeParams(capacity), largest) <==>
      largest <= MakeParams(capacity).decreaseBy && largest + OVERHEAD < TWO_31
    ensures MakeParams(capacity).decreaseBy >= 100 * 1024
  {
  }

  /**
   64 buckets within the bound of `MemoryStaysBounded` hold at most the capacity, or 640 MiB if that
   is more, plus one entry each; and the limits are not much lower than that.
   */
  lemma BucketsHoldCapacity(capacity: nat, largest: nat)
    ensures 64 * (MakeParams(capacity).threshold + largest) <=
      (if capacity < 640 * 1024 * 1024 then 640 * 1024 * 1024 else capacity) + 64 * largest
    ensures capacity < 64 * (MakeParams(capacity).threshold + 1)
    ensures MakeParams(capacity).threshold >= 10 * 1024 * 1024
    ensures MakeParams(capacity).threshold < 100 * (MakeParams(capacity).decreaseBy + 1)
    ensures MakeParams(capacity).decreaseBy == 100 * 1024
         || 100 * MakeParams(capacity).decreaseBy <= MakeParams(capacity).threshold
  {
  }

  /** A write evicts exactly when the counter is above the threshold and there is something to evict. */
  lemma TrimsIff(s: State, params: Params)
    ensures |Trim(s, params).list| < |s.list| <==> s.memory > params.threshold && s.list != []
  {
    hide EvictFirst;
    EvictShape(s, EvictCount(s, Wrap64(s.memory - params.decreaseBy)));
    hide Evict;
  }

  predicate Bounded(s: State, params: Params, largest: nat) {
    && s.memory == Balance(s)
    && s.memory <= params.threshold + largest
    && SmallNodes(s.list, largest)
  }

  predicate SmallNodes(list: seq<Node>, largest: nat) {
    forall i :: 0 <= i < |list| ==> Size(list[i]) <= largest
  }

  // The entry written is no larger than `largest` and no smaller than the one it replaces.
  predicate Fits(s: State, params: Params, largest: nat, op: Op) {
    op.Put? ==>
      && |op.k| + |op.kv.Val()| <= largest
      && var found := FindOrInsert(Trim(s, params), op.k);
         found.Some? ==> Size(found.value.list[|found.value.list| - 1]) <= |op.k| + |op.kv.Val()|
  }

  predicate FittingRun(params: Params, largest: nat, ops: seq<Op>) {
    ops == [] ||
    var before := Run(params, ops[..|ops| - 1]);
    && FittingRun(params, largest, ops[..|ops| - 1])
    && (before.Some? ==> Fits(before.value, params, largest, ops[|ops| - 1]))
  }

  lemma {:induction false} SumUsedBound(list: seq<Node>, largest: nat)
    requires SmallNodes(list, largest) && largest + OVERHEAD < TWO_31
    ensures SumUsed(list) >= 0
    ensures list == [] ==> SumUsed(list) == 0
    decreases |list|
  {
    if list != [] {
      SumUsedBound(list[1..], largest);
    }
  }

  lemma EvictFirstExact(s: State, largest: nat)
    requires s.list != [] && SmallNodes(s.list, largest) && largest + OVERHEAD < TWO_31
    requires s.memory == Balance(s) && largest + OVERHEAD <= s.memory < TWO_64
    ensures var s' := EvictFirst(s);
      && SmallNodes(s'.list, largest)
      && s'.memory == Balance(s')
      && s.memory - largest - OVERHEAD <= s'.memory < s.memory
  {
    EvictFirstBalance(s);
    hide SumUsed;
  }

  /** The eviction loop leaves through its break, short of emptying the list. */
  lemma {:induction false} EvictStops(s: State, target: nat, largest: nat)
    requires SmallNodes(s.list, largest) && largest + OVERHEAD < TWO_31
    requires s.memory == Balance(s) && largest + OVERHEAD < target <= s.memory < TWO_64
    ensures var s' := Evict(s, EvictCount(s, target));
      && SmallNodes(s'.list, largest)
      && s'.memory == Balance(s')
      && s'.memory < target
    decreases |s.list|
  {
    hide EvictFirst, Balance, SmallNodes;
    NotEmpty(s, largest);
    EvictFirstExact(s, largest);
    var s' := EvictFirst(s);
    if s'.memory >= target {
      EvictStops(s', target, largest);
    } else {
      assert Evict(s, 1) == Evict(s', 0) == s';
    }
  }

  lemma NotEmpty(s: State, largest: nat)
    requires SmallNodes(s.list, largest) && largest + OVERHEAD < TWO_31
    requires s.memory == Balance(s) && s.memory > 0
    ensures s.list != []
  {
    SumUsedBound(s.list, largest);
  }

  lemma TrimBounded(s: State, params: Params, largest: nat)
    requires Sensible(params, largest) && Bounded(s, params, largest)
    ensures var s' := Trim(s, params);
      && SmallNodes(s'.list, largest) && s'.memory == Balance(s') && s'.memory <= params.threshold
    ensures s.memory > params.threshold ==> DeleteStale(s, params.decreaseBy).memory < s.memory - params.decreaseBy
  {
    hide Evict, EvictCount, Balance, SmallNodes;
    if s.memory > params.threshold {
      var target := s.memory - params.decreaseBy;
      assert Wrap64(target) == target;
      EvictStops(s, target, largest);
    }
  }

  lemma FoundSmall(s: State, k: Bytes, largest: nat)
    requires SmallNodes(s.list, largest) && FindOrInsert(s, k).Some?
    ensures SmallNodes(FindOrInsert(s, k).value.list, largest)
  {
  }

  lemma FillBounded(s: State, params: Params, largest: nat, k: Bytes, kv: KeyValue)
    requires Sensible(params, largest)
    requires s.list != [] && SmallNodes(s.list, largest) && s.memory == Balance(s) && s.memory <= params.threshold
    requires Size(s.list[|s.list| - 1]) <= |k| + |kv.Val()| <= largest
    ensures Bounded(Fill(s, k, kv), params, largest)
  {
    FillBalance(s, k, kv);
    hide SumUsed;
  }

  lemma StepBounded(s: State, params: Params, largest: nat, op: Op)
    requires Sensible(params, largest) && Bounded(s, params, largest)
    requires Fits(s, params, largest, op) && Step(s, params, op).Some?
    ensures Bounded(Step(s, params, op).value, params, largest)
  {
    hide Trim, FindOrInsert, Fill, Balance, Sensible, SmallNodes;
    var s1 := if op.Put? then Trim(s, params) else s;
    TrimBounded(s, params, largest);
    FoundSmall(s1, op.k, largest);
    FindOrInsertBalance(s1, op.k);
    if op.Put? {
      FillBounded(FindOrInsert(s1, op.k).value, params, largest, op.k, op.kv);
    }
  }

  /**
   If no entry exceeds `largest` and no replacement shrinks an entry, the counter never wraps and
   stays within the threshold plus one entry, and every eviction ends through its break.
   */
  lemma {:induction false} MemoryStaysBounded(params: Params, largest: nat, ops: seq<Op>)
    requires Sensible(params, largest) && FittingRun(params, largest, ops) && Run(params, ops).Some?
    ensures var s := Run(params, ops).value;
      && s.memory == Balance(s) <= params.threshold + largest
      && (s.memory > params.threshold ==>
           DeleteStale(s, params.decreaseBy).memory < s.memory - params.decreaseBy)
    ensures Bounded(Run(params, ops).value, params, largest)
    decreases |ops|
  {
    if ops != [] {
      hide Step, Bounded, Fits, DeleteStale;
      MemoryStaysBounded(params, largest, ops[..|ops| - 1]);
      StepBounded(Run(params, ops[..|ops| - 1]).value, params, largest, ops[|ops| - 1]);
    }
    BoundedMeans(Run(params, ops).value, params, largest);
  }

  lemma BoundedMeans(s: State, params: Params, largest: nat)
    requires Sensible(params, largest) && Bounded(s, params, largest)
    ensures s.memory == Balance(s) <= params.threshold + largest
    ensures s.memory > params.threshold ==> DeleteStale(s, params.decreaseBy).memory < s.memory - params.decreaseBy
  {
    TrimBounded(s, params, largest);
  }
}
