/**
 One bucket of the LRU cache: the access list (stalest entry first), the index from key to list
 node, and the memory counter, an unsigned 64-bit number.  A list node keeps its identity when it
 moves, so the index stores identities.  An index entry whose node was erased is a dangling
 iterator: following it is undefined, and the operations below return None there.
 */
module LruCache {
  import opened Wire
  import opened Messages
  import Seqs

  datatype Node = Node(id: nat, key: Bytes, value: Bytes, flags: int, cas: int)

  // `created` counts the nodes ever made; it numbers the next one.
  datatype State = State(list: seq<Node>, index: map<Bytes, nat>, memory: nat, created: nat)

  const EmptyBucket := State([], map[], 0, 0)
  // sizeof(uint32_t) + sizeof(uint64_t)
  const OVERHEAD := 12

  datatype Params = Params(threshold: nat, decreaseBy: nat)

  function Max(a: nat, b: nat): nat { if a < b then b else a }

  // The constructor's limits; one per cent is taken exactly.
  function MakeParams(capacity: nat): Params {
    var threshold := Max(capacity / 64, 10 * 1024 * 1024);
    Params(threshold, Max(threshold / 100, 100 * 1024))
  }

  function Wrap64(x: int): (r: nat)
    ensures r < TWO_64
    ensures 0 <= x < TWO_64 ==> r == x
  {
    x % 0x1_0000_0000_0000_0000
  }

  function Size(d: Node): nat { |d.key| + |d.value| }

  function Used(d: Node): int { Narrow32(Size(d) + OVERHEAD) }

  // ---------------------------------------------------------------- operations

  // The place of the node with identity `id`, or the length of the list.
  function Position(list: seq<Node>, id: nat): (p: nat)
    ensures p <= |list|
    ensures p < |list| ==> list[p].id == id
    ensures forall j :: 0 <= j < p ==> list[j].id != id
  {
    if list == [] || list[0].id == id then 0 else 1 + Position(list[1..], id)
  }

  function MoveToBack<T>(xs: seq<T>, p: nat): (ys: seq<T>)
    requires p < |xs|
    ensures |ys| == |xs|
    ensures forall j :: 0 <= j < |xs| ==> ys[j] == xs[Source(|xs|, p, j)]
  {
    xs[..p] + xs[p + 1..] + [xs[p]]
  }

  // Where the entry now at place j stood before the entry at p moved to the back.
  function Source(n: nat, p: nat, j: nat): (i: nat)
    requires p < n && j < n
    ensures i < n
  {
    if j < p then j else if j == n - 1 then p else j + 1
  }

  // Where the entry at place i stands after the entry at p moved to the back.
  function Moved(n: nat, p: nat, i: nat): (j: nat)
    requires p < n && i < n
    ensures j < n && Source(n, p, j) == i
  {
    if i < p then i else if i == p then n - 1 else i - 1
  }

  // Afterwards the node of `k` is the last of the list.
  function FindOrInsert(s: State, k: Bytes): (r: Option<State>)
    ensures r.Some? ==> r.value.list != []
  {
    if k in s.index then
      var p := Position(s.list, s.index[k]);
      if p == |s.list| then None else Some(s.(list := MoveToBack(s.list, p)))
    else
      Some(State(s.list + [Node(s.created, [], [], 0, 0)], s.index[k := s.created], s.memory, s.created + 1))
  }

  // Eviction of the first node erases the index entry of its stored key.
  function EvictFirst(s: State): (s': State)
    requires s.list != []
    ensures |s'.list| == |s.list| - 1
  {
    s.(list := s.list[1..], index := s.index - {s.list[0].key}, memory := Wrap64(s.memory - Used(s.list[0])))
  }

  // How many nodes the eviction loop removes.
  function EvictCount(s: State, target: nat): (n: nat)
    ensures n <= |s.list|
    decreases |s.list|
  {
    if s.list == [] then 0
    else if EvictFirst(s).memory < target then 1
    else 1 + EvictCount(EvictFirst(s), target)
  }

  function Evict(s: State, n: nat): State
    requires n <= |s.list|
    decreases n
  {
    if n == 0 then s else Evict(EvictFirst(s), n - 1)
  }

  function DeleteStale(s: State, decreaseBy: nat): State {
    Evict(s, EvictCount(s, Wrap64(s.memory - decreaseBy)))
  }

  function Trim(s: State, params: Params): State {
    if s.memory > params.threshold then DeleteStale(s, params.decreaseBy) else s
  }

  function Fill(s: State, k: Bytes, kv: KeyValue): (s': State)
    requires s.list != []
    ensures |s'.list| == |s.list|
  {
    var last := |s.list| - 1;
    var d := s.list[last];
    var d' := d.(key := k, value := kv.Val(), flags := kv.Flags(), cas := kv.Cas());
    s.(list := s.list[last := d'], memory := Wrap64(Wrap64(s.memory - Used(d)) + Used(d')))
  }

  function AddOrReplace(s: State, params: Params, k: Bytes, kv: KeyValue): Option<State> {
    match FindOrInsert(Trim(s, params), k)
    case None => None
    case Some(s') => Some(Fill(s', k, kv))
  }

  datatype Lookup = Miss | Hit(val: Bytes, flags: int, cas: int)

  function Answer(s: State): Lookup
    requires s.list != []
  {
    var d := s.list[|s.list| - 1];
    if d.value == [] then Miss else Hit(d.value, d.flags, d.cas)
  }

  // ---------------------------------------------------------------- the bucket as an object

  class Bucket {
    var accessList: seq<Node>
    var keyToLitr: map<Bytes, nat>
    var memory: nat
    var created: nat

    function Abs(): State
      reads this
    {
      State(accessList, keyToLitr, memory, created)
    }

    constructor ()
      ensures Abs() == EmptyBucket
    {
      accessList, keyToLitr, memory, created := [], map[], 0, 0;
    }

    // A dangling index entry for `k` must not be followed.
    method FindOrInsertData(k: Bytes)
      requires FindOrInsert(Abs(), k).Some?
      modifies this
      ensures Some(Abs()) == FindOrInsert(old(Abs()), k)
    {
      if k in keyToLitr {
        var p := Position(accessList, keyToLitr[k]);
        accessList := accessList[..p] + accessList[p + 1..] + [accessList[p]];
      } else {
        accessList := accessList + [Node(created, [], [], 0, 0)];
        keyToLitr := keyToLitr[k := created];
        created := created + 1;
      }
    }

    method DeleteStaleData(decreaseBy: nat)
      modifies this
      ensures Abs() == DeleteStale(old(Abs()), decreaseBy)
    {
      var target := Wrap64(memory - decreaseBy);
      ghost var n := EvictCount(Abs(), target);
      while accessList != []
        invariant n <= |accessList|
        invariant n == EvictCount(Abs(), target)
        invariant Evict(Abs(), n) == DeleteStale(old(Abs()), decreaseBy)
        decreases |accessList|
      {
        var data := accessList[0];
        ghost var before := Abs();
        accessList := accessList[1..];
        keyToLitr := keyToLitr - {data.key};
        memory := Wrap64(memory - Used(data));
        assert Abs() == EvictFirst(before);
        n := n - 1;
        if memory < target {
          break;
        }
      }
    }

    method Put(params: Params, k: Bytes, kv: KeyValue)
      requires AddOrReplace(Abs(), params, k, kv).Some?
      modifies this
      ensures Some(Abs()) == AddOrReplace(old(Abs()), params, k, kv)
    {
      hide Used, Wrap64, DeleteStale, FindOrInsert;
      if memory > params.threshold {
        DeleteStaleData(params.decreaseBy);
      }
      FindOrInsertData(k);
      var last := |accessList| - 1;
      var data := accessList[last];
      memory := Wrap64(memory - Used(data));
      data := data.(key := k, value := kv.Val(), flags := kv.Flags(), cas := kv.Cas());
      accessList := accessList[last := data];
      memory := Wrap64(memory + Used(data));
    }

    method Get(k: Bytes) returns (answer: Lookup)
      requires FindOrInsert(Abs(), k).Some?
      modifies this
      ensures Some(Abs()) == FindOrInsert(old(Abs()), k)
      ensures answer == Answer(Abs())
    {
      FindOrInsertData(k);
      var data := accessList[|accessList| - 1];
      answer := if data.value == [] then Miss else Hit(data.value, data.flags, data.cas);
    }
  }

  // ---------------------------------------------------------------- runs

  datatype Op = Get(k: Bytes) | Put(k: Bytes, kv: KeyValue)

  function Step(s: State, params: Params, op: Op): Option<State> {
    match op
    case Get(k) => FindOrInsert(s, k)
    case Put(k, kv) => AddOrReplace(s, params, k, kv)
  }

  // How many nodes are evicted before the operation itself.
  function Evicted(s: State, params: Params, op: Op): (n: nat)
    ensures n <= |s.list|
  {
    if op.Put? && s.memory > params.threshold then EvictCount(s, Wrap64(s.memory - params.decreaseBy)) else 0
  }

  function Run(params: Params, ops: seq<Op>): Option<State> {
    if ops == [] then Some(EmptyBucket)
    else
      match Run(params, ops[..|ops| - 1])
      case None => None
      case Some(s) => Step(s, params, ops[|ops| - 1])
  }

  function Touched(ops: seq<Op>): seq<Bytes> {
    seq(|ops|, j requires 0 <= j < |ops| => ops[j].k)
  }

  lemma TouchedNext(ops: seq<Op>)
    requires ops != []
    ensures Touched(ops) == Touched(ops[..|ops| - 1]) + [ops[|ops| - 1].k]
  {
  }

  // ---------------------------------------------------------------- index and list in bijection

  /** `keys` names the owner of every list node, in list order, and the index holds exactly these. */
  ghost predicate Tracks(s: State, keys: seq<Bytes>) {
    && |keys| == |s.list|
    && (forall i :: 0 <= i < |keys| ==> Owns(s, keys[i], s.list[i]))
    && (forall k :: k in s.index ==> k in keys)
    && DistinctIds(s.list)
  }

  predicate Owns(s: State, k: Bytes, d: Node) {
    && k in s.index && s.index[k] == d.id && d.id < s.created
    && (d.key == k || d.key == [])
  }

  predicate DistinctIds(list: seq<Node>) {
    forall i, j :: 0 <= i < j < |list| ==> list[i].id != list[j].id
  }

  // Two list nodes never belong to the same key.
  lemma OwnersDiffer(s: State, keys: seq<Bytes>, i: nat, j: nat)
    requires Tracks(s, keys) && i < |keys| && j < |keys| && i != j
    ensures keys[i] != keys[j]
  {
    assert Owns(s, keys[i], s.list[i]) && Owns(s, keys[j], s.list[j]);
  }

  // The stored key of the node leads back to it; false of a placeholder left by a miss.
  predicate Erasable(s: State, d: Node) {
    d.key in s.index && s.index[d.key] == d.id
  }

  predicate CleanEviction(s: State, n: nat)
    requires n <= |s.list|
  {
    forall i :: 0 <= i < n ==> Erasable(s, s.list[i])
  }

  lemma ErasableOwner(s: State, keys: seq<Bytes>, i: nat)
    requires Tracks(s, keys) && i < |keys|
    ensures Erasable(s, s.list[i]) <==> s.list[i].key == keys[i]
    ensures Erasable(s, s.list[i]) <==> (s.list[i].key != [] || keys[i] == [])
  {
    assert Owns(s, keys[i], s.list[i]);
    if Erasable(s, s.list[i]) {
      var j :| 0 <= j < |keys| && keys[j] == s.list[i].key;
      assert Owns(s, keys[j], s.list[j]);
    }
  }

  lemma EvictFirstOwns(s: State, keys: seq<Bytes>, i: nat)
    requires Tracks(s, keys) && 0 < i < |keys| && s.list[0].key == keys[0]
    ensures Owns(EvictFirst(s), keys[i], s.list[i])
  {
    hide Used, Wrap64;
    OwnersDiffer(s, keys, 0, i);
    assert Owns(s, keys[i], s.list[i]);
  }

  lemma EvictFirstTracks(s: State, keys: seq<Bytes>)
    requires Tracks(s, keys) && s.list != [] && Erasable(s, s.list[0])
    ensures Tracks(EvictFirst(s), keys[1..])
  {
    hide Used, Wrap64;
    ErasableOwner(s, keys, 0);
    var s', rest := EvictFirst(s), keys[1..];
    assert forall k :: k in s'.index ==> k in rest by {
      assert forall i :: 0 < i < |keys| ==> keys[i] == rest[i - 1];
    }
    hide Owns;
    forall i | 0 <= i < |rest|
      ensures Owns(s', rest[i], s'.list[i])
    {
      EvictFirstOwns(s, keys, i + 1);
    }
  }

  lemma StillErasable(s: State, keys: seq<Bytes>, i: nat)
    requires Tracks(s, keys) && 0 < i < |keys| && Erasable(s, s.list[0]) && Erasable(s, s.list[i])
    ensures Erasable(EvictFirst(s), s.list[i])
  {
    hide Used, Wrap64;
    ErasableOwner(s, keys, 0);
    ErasableOwner(s, keys, i);
    OwnersDiffer(s, keys, 0, i);
  }

  lemma EvictFirstClean(s: State, keys: seq<Bytes>, n: nat)
    requires Tracks(s, keys) && 0 < n <= |s.list| && CleanEviction(s, n)
    ensures CleanEviction(EvictFirst(s), n - 1)
  {
    hide Used, Wrap64;
    forall i | 0 <= i < n - 1
      ensures Erasable(EvictFirst(s), EvictFirst(s).list[i])
    {
      assert Erasable(s, s.list[0]) && Erasable(s, s.list[i + 1]);
      StillErasable(s, keys, i + 1);
    }
  }

  lemma FirstErasable(s: State, keys: seq<Bytes>, n: nat)
    requires Tracks(s, keys) && n <= |s.list| && CleanEviction(s, n)
    ensures |keys| == |s.list| && (n > 0 ==> Erasable(s, s.list[0]))
  {
  }

  lemma {:induction false} CleanEvictionTracks(s: State, keys: seq<Bytes>, n: nat)
    requires Tracks(s, keys) && n <= |s.list| && CleanEviction(s, n)
    ensures |Evict(s, n).list| == |s.list| - n
    ensures Tracks(Evict(s, n), keys[n..])
    decreases n
  {
    hide EvictFirst, Tracks, CleanEviction, Erasable;
    FirstErasable(s, keys, n);
    if n > 0 {
      EvictFirstTracks(s, keys);
      EvictFirstClean(s, keys, n);
      CleanEvictionTracks(EvictFirst(s), keys[1..], n - 1);
      Seqs.DropDrop(keys, 1, n - 1);
    } else {
      assert keys[0..] == keys;
    }
  }

  lemma {:induction false} EvictShape(s: State, n: nat)
    requires n <= |s.list|
    ensures Evict(s, n).list == s.list[n..]
    ensures forall k :: k in Evict(s, n).index <==> k in s.index && forall i :: 0 <= i < n ==> s.list[i].key != k
    ensures forall k :: k in Evict(s, n).index ==> Evict(s, n).index[k] == s.index[k]
    ensures Evict(s, n).created == s.created
    decreases n
  {
    if n > 0 {
      var s' := EvictFirst(s);
      EvictShape(s', n - 1);
      assert s'.list[n - 1..] == s.list[n..];
      forall k ensures k in Evict(s, n).index <==> k in s.index && forall i :: 0 <= i < n ==> s.list[i].key != k {
        assert forall i :: 0 <= i < n - 1 ==> s'.list[i].key == s.list[i + 1].key;
        if k in s'.index && forall i :: 0 <= i < n - 1 ==> s'.list[i].key != k {
          forall i | 0 <= i < n ensures s.list[i].key != k {
            if i > 0 { assert s'.list[i - 1].key != k; }
          }
        }
      }
    }
  }

  lemma DirtyEvictionDangles(s: State, keys: seq<Bytes>, n: nat, i: nat, keys': seq<Bytes>)
    requires Tracks(s, keys) && i < n <= |s.list| && !Erasable(s, s.list[i])
    ensures !Tracks(Evict(s, n), keys')
  {
    hide Used, Wrap64, Evict;
    EvictShape(s, n);
    ErasableOwner(s, keys, i);
    var k, s' := keys[i], Evict(s, n);
    assert Owns(s, k, s.list[i]);
    forall j | 0 <= j < n
      ensures s.list[j].key != k
    {
      assert Owns(s, keys[j], s.list[j]);
      if j != i { OwnersDiffer(s, keys, i, j); }
    }
    assert k in s'.index && s'.index[k] == s.list[i].id;
    forall j | 0 <= j < |s'.list|
      ensures s'.list[j].id != s.list[i].id
    {
      assert s'.list[j] == s.list[j + n];
    }
  }

  /**
   Evicting n nodes keeps index and list in bijection exactly when every evicted node is filled,
   or is the placeholder of the empty key.
   */
  lemma EvictionKeepsBijectionIff(s: State, keys: seq<Bytes>, n: nat)
    requires Tracks(s, keys) && n <= |s.list|
    ensures (exists keys' :: Tracks(Evict(s, n), keys'))
       <==> (forall i :: 0 <= i < n ==> s.list[i].key != [] || keys[i] == [])
  {
    hide Evict, Erasable;
    assert CleanEviction(s, n) <==> forall i :: 0 <= i < n ==> s.list[i].key != [] || keys[i] == [] by {
      forall i | 0 <= i < n
        ensures Erasable(s, s.list[i]) <==> (s.list[i].key != [] || keys[i] == [])
      {
        ErasableOwner(s, keys, i);
      }
    }
    if CleanEviction(s, n) {
      CleanEvictionTracks(s, keys, n);
    } else {
      var i :| 0 <= i < n && !Erasable(s, s.list[i]);
      forall keys'
        ensures !Tracks(Evict(s, n), keys')
      {
        DirtyEvictionDangles(s, keys, n, i, keys');
      }
    }
  }

  // ---------------------------------------------------------------- recency

  // The index of the last access to `k`, or -1.
  function LastAccess(h: seq<Bytes>, k: Bytes): (r: int)
    ensures -1 <= r < |h|
    ensures r >= 0 ==> h[r] == k
    ensures forall j :: r < j < |h| ==> h[j] != k
  {
    if h == [] then -1 else if h[|h| - 1] == k then |h| - 1 else LastAccess(h[..|h| - 1], k)
  }

  /** The resident keys are the most recently accessed ones, stalest first. */
  ghost predicate Recency(h: seq<Bytes>, keys: seq<Bytes>) {
    && (forall i :: 0 <= i < |keys| ==> LastAccess(h, keys[i]) >= 0)
    && (forall i, j :: 0 <= i < j < |keys| ==> LastAccess(h, keys[i]) < LastAccess(h, keys[j]))
    && (forall k :: k !in keys && keys != [] ==> LastAccess(h, k) < LastAccess(h, keys[0]))
  }

  lemma RecencyAfterEviction(h: seq<Bytes>, keys: seq<Bytes>, n: nat)
    requires Recency(h, keys) && n <= |keys|
    ensures Recency(h, keys[n..])
    ensures forall i, j :: 0 <= i < n <= j < |keys| ==> LastAccess(h, keys[i]) < LastAccess(h, keys[j])
  {
    hide LastAccess;
    forall j | n <= j < |keys|
      ensures keys[j] in keys[n..]
    {
      assert keys[j] == keys[n..][j - n];
    }
    forall k | k !in keys[n..] && keys[n..] != []
      ensures LastAccess(h, k) < LastAccess(h, keys[n])
    {
      if k in keys {
        var j :| 0 <= j < |keys| && keys[j] == k;
      }
    }
  }

  lemma LastAccessAfter(h: seq<Bytes>, k: Bytes, x: Bytes)
    ensures LastAccess(h + [k], x) == if x == k then |h| else LastAccess(h, x)
  {
    assert (h + [k])[..|h|] == h;
  }

  // The resident keys after an access to k.
  function Touch(keys: seq<Bytes>, k: Bytes): (keys': seq<Bytes>)
    ensures forall x :: x in keys' <==> x in keys || x == k
  {
    if k in keys then
      var p := Find(keys, k);
      var keys' := MoveToBack(keys, p);
      assert forall x :: x in keys ==> x in keys' by {
        forall i | 0 <= i < |keys| ensures keys[i] in keys' {
          assert keys'[Moved(|keys|, p, i)] == keys[i];
        }
      }
      keys'
    else keys + [k]
  }

  function Find(keys: seq<Bytes>, k: Bytes): (p: nat)
    requires k in keys
    ensures p < |keys| && keys[p] == k
  {
    if keys[0] == k then 0 else 1 + Find(keys[1..], k)
  }

  // The last access to the key at place i after an access to k.
  lemma AccessAfterTouch(h: seq<Bytes>, keys: seq<Bytes>, k: Bytes, i: nat)
    requires Recency(h, keys) && i < |Touch(keys, k)|
    ensures var keys' := Touch(keys, k);
      && LastAccess(h + [k], keys'[i]) == (if i == |keys'| - 1 then |h| else LastAccess(h, keys'[i]))
      && LastAccess(h + [k], keys'[i]) >= 0
  {
    hide LastAccess, Touch;
    TouchLast(keys, k);
    TouchKeepsOrder(h, keys, k);
    LastAccessAfter(h, k, Touch(keys, k)[i]);
  }

  lemma StaleAfterTouch(h: seq<Bytes>, keys: seq<Bytes>, k: Bytes, x: Bytes)
    requires Recency(h, keys) && Touch(keys, k) != [] && x !in Touch(keys, k)
    ensures LastAccess(h + [k], x) < LastAccess(h + [k], Touch(keys, k)[0])
  {
    hide LastAccess, Touch, Recency;
    TouchKeepsStale(h, keys, k);
    AccessAfterTouch(h, keys, k, 0);
    LastAccessAfter(h, k, x);
  }

  lemma RecencyAfterTouch(h: seq<Bytes>, keys: seq<Bytes>, k: Bytes)
    requires Recency(h, keys)
    ensures Recency(h + [k], Touch(keys, k))
  {
    TouchKeepsOrder(h, keys, k);
    hide LastAccess, Touch;
    var h', keys' := h + [k], Touch(keys, k);
    forall i | 0 <= i < |keys'|
      ensures LastAccess(h', keys'[i]) >= 0
    {
      AccessAfterTouch(h, keys, k, i);
    }
    forall i, j | 0 <= i < j < |keys'|
      ensures LastAccess(h', keys'[i]) < LastAccess(h', keys'[j])
    {
      AccessAfterTouch(h, keys, k, i);
      AccessAfterTouch(h, keys, k, j);
    }
    forall x | x !in keys' && keys' != []
      ensures LastAccess(h', x) < LastAccess(h', keys'[0])
    {
      StaleAfterTouch(h, keys, k, x);
    }
  }

  lemma TouchKeepsStale(h: seq<Bytes>, keys: seq<Bytes>, k: Bytes)
    requires Recency(h, keys)
    ensures forall x :: x !in Touch(keys, k) && |Touch(keys, k)| > 1 ==>
      LastAccess(h, x) < LastAccess(h, Touch(keys, k)[0])
  {
    hide LastAccess;
    var keys' := Touch(keys, k);
    if |keys'| > 1 {
      var j := if k in keys then Source(|keys|, Find(keys, k), 0) else 0;
      assert keys'[0] == keys[j];
      forall x | x !in keys'
        ensures LastAccess(h, x) < LastAccess(h, keys'[0])
      {
        assert x !in keys;
      }
    }
  }

  lemma TouchKeepsOrder(h: seq<Bytes>, keys: seq<Bytes>, k: Bytes)
    requires Recency(h, keys)
    ensures var keys' := Touch(keys, k);
      && (forall i :: 0 <= i < |keys'| - 1 ==> keys'[i] in keys && keys'[i] != k)
      && (forall i, j :: 0 <= i < j < |keys'| - 1 ==> LastAccess(h, keys'[i]) < LastAccess(h, keys'[j]))
  {
    hide LastAccess;
    var keys' := Touch(keys, k);
    var n := |keys'|;
    if k in keys {
      var p := Find(keys, k);
      forall i | 0 <= i < n - 1
        ensures keys'[i] in keys && keys'[i] != k
      {
        assert keys'[i] == keys[Source(n, p, i)];
      }
      forall i, j | 0 <= i < j < n - 1
        ensures LastAccess(h, keys'[i]) < LastAccess(h, keys'[j])
      {
        assert keys'[i] == keys[Source(n, p, i)] && keys'[j] == keys[Source(n, p, j)];
      }
    }
  }

  lemma PositionOfOwner(s: State, keys: seq<Bytes>, k: Bytes)
    requires Tracks(s, keys) && k in keys
    ensures k in s.index && Position(s.list, s.index[k]) == Find(keys, k)
  {
    assert Owns(s, keys[Find(keys, k)], s.list[Find(keys, k)]);
  }

  lemma FindOrInsertTracks(s: State, keys: seq<Bytes>, k: Bytes)
    requires Tracks(s, keys)
    ensures FindOrInsert(s, k).Some?
    ensures Tracks(FindOrInsert(s, k).value, Touch(keys, k))
  {
    if k in keys {
      MoveTracks(s, keys, k);
    } else {
      InsertTracks(s, keys, k);
    }
  }

  lemma InsertTracks(s: State, keys: seq<Bytes>, k: Bytes)
    requires Tracks(s, keys) && k !in keys
    ensures FindOrInsert(s, k).Some? && Tracks(FindOrInsert(s, k).value, keys + [k])
  {
    assert k !in s.index;
    var s' := FindOrInsert(s, k).value;
    forall i | 0 <= i < |keys| + 1
      ensures Owns(s', (keys + [k])[i], s'.list[i])
    {
      assert i < |keys| ==> keys[i] in keys && Owns(s, keys[i], s.list[i]);
    }
    forall x | x in s'.index
      ensures x in keys + [k]
    {
      assert (keys + [k])[|keys|] == k;
    }
    assert forall i :: 0 <= i < |keys| ==> Owns(s, keys[i], s.list[i]);
  }

  lemma MoveTracks(s: State, keys: seq<Bytes>, k: Bytes)
    requires Tracks(s, keys) && k in keys
    ensures FindOrInsert(s, k).Some? && Tracks(FindOrInsert(s, k).value, Touch(keys, k))
  {
    PositionOfOwner(s, keys, k);
    var p, s', keys' := Find(keys, k), FindOrInsert(s, k).value, Touch(keys, k);
    forall i | 0 <= i < |keys'|
      ensures Owns(s', keys'[i], s'.list[i])
    {
      var j := Source(|keys|, p, i);
      assert Owns(s, keys[j], s.list[j]);
    }
    MoveKeepsDistinct(s.list, p);
  }

  lemma MoveKeepsDistinct(list: seq<Node>, p: nat)
    requires DistinctIds(list) && p < |list|
    ensures DistinctIds(MoveToBack(list, p))
  {
    var list' := MoveToBack(list, p);
    forall i, j | 0 <= i < j < |list|
      ensures list'[i].id != list'[j].id
    {
      assert list'[i] == list[Source(|list|, p, i)] && list'[j] == list[Source(|list|, p, j)];
    }
  }

  lemma FillTracks(s: State, keys: seq<Bytes>, k: Bytes, kv: KeyValue)
    requires Tracks(s, keys) && keys != [] && keys[|keys| - 1] == k
    ensures Tracks(Fill(s, k, kv), keys)
  {
    hide Used, Wrap64;
    var s' := Fill(s, k, kv);
    forall i | 0 <= i < |keys|
      ensures Owns(s', keys[i], s'.list[i])
    {
      assert Owns(s, keys[i], s.list[i]);
    }
  }

  // No placeholder of a non-empty key is evicted in the run.
  ghost predicate CleanRun(params: Params, ops: seq<Op>) {
    ops == [] ||
    var before, op := Run(params, ops[..|ops| - 1]), ops[|ops| - 1];
    && CleanRun(params, ops[..|ops| - 1])
    && before.Some?
    && CleanEviction(before.value, Evicted(before.value, params, op))
  }

  lemma EvictedThenStep(s: State, params: Params, op: Op)
    ensures var found := FindOrInsert(Evict(s, Evicted(s, params, op)), op.k);
      Step(s, params, op) ==
        if found.None? then None else Some(if op.Put? then Fill(found.value, op.k, op.kv) else found.value)
  {
    hide FindOrInsert, Fill, EvictCount;
  }

  lemma StepTracks(s: State, params: Params, op: Op, keys: seq<Bytes>, h: seq<Bytes>) returns (keys': seq<Bytes>)
    requires Tracks(s, keys) && Recency(h, keys) && CleanEviction(s, Evicted(s, params, op))
    ensures Step(s, params, op).Some?
    ensures Tracks(Step(s, params, op).value, keys') && Recency(h + [op.k], keys')
  {
    var n := Evicted(s, params, op);
    assert n <= |keys|;
    hide Evicted, Step, Evict, Touch, Tracks, Recency, FindOrInsert, Fill, CleanEviction;
    CleanEvictionTracks(s, keys, n);
    RecencyAfterEviction(h, keys, n);
    FindOrInsertTracks(Evict(s, n), keys[n..], op.k);
    RecencyAfterTouch(h, keys[n..], op.k);
    keys' := Touch(keys[n..], op.k);
    TouchLast(keys[n..], op.k);
    if op.Put? {
      FillTracks(FindOrInsert(Evict(s, n), op.k).value, keys', op.k, op.kv);
    }
    EvictedThenStep(s, params, op);
  }

  lemma TouchLast(keys: seq<Bytes>, k: Bytes)
    ensures Touch(keys, k) != [] && Touch(keys, k)[|Touch(keys, k)| - 1] == k
  {
  }

  /**
   In every run that evicts no placeholder of a non-empty key: no dangling iterator is ever
   followed, index and list are in bijection, and the list is ordered by last access with every
   absent key staler than every resident one.
   */
  lemma {:induction false} LruRun(params: Params, ops: seq<Op>) returns (keys: seq<Bytes>)
    requires CleanRun(params, ops)
    ensures Run(params, ops).Some?
    ensures Tracks(Run(params, ops).value, keys)
    ensures Recency(Touched(ops), keys)
    decreases |ops|
  {
    if ops == [] {
      keys := [];
    } else {
      hide Step, Tracks, Recency, CleanEviction, Touched;
      var before, op := ops[..|ops| - 1], ops[|ops| - 1];
      var keys0 := LruRun(params, before);
      keys := StepTracks(Run(params, before).value, params, op, keys0, Touched(before));
      TouchedNext(ops);
    }
  }

  // ---------------------------------------------------------------- an index entry that dangles

  /** The node of `k` is gone and its index entry is not; no node stores the key, so none can erase it. */
  predicate Dangles(s: State, k: Bytes) {
    && k != [] && k in s.index && s.index[k] < s.created
    && forall i :: 0 <= i < |s.list| ==> s.list[i].id != s.index[k] && s.list[i].key != k
  }

  lemma DanglesBreaksBijection(s: State, k: Bytes, keys: seq<Bytes>)
    requires Dangles(s, k)
    ensures !Tracks(s, keys)
  {
  }

  lemma EvictDangles(s: State, k: Bytes, n: nat)
    requires Dangles(s, k) && n <= |s.list|
    ensures Dangles(Evict(s, n), k)
  {
    hide Evict;
    EvictShape(s, n);
  }

  lemma FindDangles(s: State, k: Bytes, x: Bytes)
    requires Dangles(s, k) && FindOrInsert(s, x).Some?
    ensures x != k && Dangles(FindOrInsert(s, x).value, k)
  {
  }

  lemma FillDangles(s: State, k: Bytes, x: Bytes, kv: KeyValue)
    requires Dangles(s, k) && s.list != [] && x != k
    ensures Dangles(Fill(s, x, kv), k)
  {
    hide Used, Wrap64;
  }

  // What follows the eviction in an operation leaves the entry dangling.
  lemma RestDangles(s: State, params: Params, op: Op, k: Bytes)
    requires Dangles(Evict(s, Evicted(s, params, op)), k) && Step(s, params, op).Some?
    ensures Dangles(Step(s, params, op).value, k)
  {
    hide Evict, Evicted, Step, FindOrInsert, Fill, Dangles;
    var s1 := Evict(s, Evicted(s, params, op));
    EvictedThenStep(s, params, op);
    FindDangles(s1, k, op.k);
    if op.Put? {
      FillDangles(FindOrInsert(s1, op.k).value, k, op.k, op.kv);
    }
  }

  // The first placeholder evicted leaves a dangling entry.
  lemma DirtyEvictionLeaves(s: State, keys: seq<Bytes>, n: nat) returns (k: Bytes)
    requires Tracks(s, keys) && n <= |s.list| && !CleanEviction(s, n)
    ensures Dangles(Evict(s, n), k)
  {
    hide Evict, Used, Wrap64;
    var i :| 0 <= i < n && !Erasable(s, s.list[i]);
    k := keys[i];
    EvictShape(s, n);
    ErasableOwner(s, keys, i);
    assert Owns(s, k, s.list[i]);
    forall j | 0 <= j < |s.list|
      ensures s.list[j].key != k
      ensures j != i ==> s.list[j].id != s.list[i].id
    {
      assert Owns(s, keys[j], s.list[j]);
      if j != i { OwnersDiffer(s, keys, i, j); }
    }
  }

  lemma {:induction false} DirtyRunDangles(params: Params, ops: seq<Op>) returns (k: Bytes)
    requires Run(params, ops).Some? && !CleanRun(params, ops)
    ensures Dangles(Run(params, ops).value, k)
    decreases |ops|
  {
    hide Step, Tracks, Recency, Evict, CleanEviction, Dangles;
    var before, op := ops[..|ops| - 1], ops[|ops| - 1];
    var s := Run(params, before).value;
    if CleanRun(params, before) {
      var keys := LruRun(params, before);
      k := DirtyEvictionLeaves(s, keys, Evicted(s, params, op));
    } else {
      k := DirtyRunDangles(params, before);
      EvictDangles(s, k, Evicted(s, params, op));
    }
    RestDangles(s, params, op, k);
  }

  /**
   A run that follows no dangling iterator ends with index and list in bijection exactly when it
   evicted no placeholder of a non-empty key.
   */
  lemma BijectionIffCleanRun(params: Params, ops: seq<Op>)
    requires Run(params, ops).Some?
    ensures (exists keys :: Tracks(Run(params, ops).value, keys)) <==> CleanRun(params, ops)
  {
    hide Run, Tracks, CleanRun, Dangles;
    if CleanRun(params, ops) {
      var keys := LruRun(params, ops);
    } else {
      var k := DirtyRunDangles(params, ops);
      forall keys
        ensures !Tracks(Run(params, ops).value, keys)
      {
        DanglesBreaksBijection(Run(params, ops).value, k, keys);
      }
    }
  }

  // ---------------------------------------------------------------- a run that goes wrong

  function Holding(v: Bytes): KeyValue { EmptyKv.(val := Some(v)) }

  /**
   A miss on "a", an entry of 11 million bytes, one more entry: the eviction this triggers removes
   the placeholder of "a" but not its index entry, and the next access to "a" follows a dangling
   iterator.  The run also takes the memory counter below zero.
   */
  lemma PlaceholderEvictionDangles(big: Bytes)
    requires |big| == 11_000_000
    ensures var params := MakeParams(0);
      var ops := [Get([97]), Put([98], Holding(big)), Put([99], Holding([1]))];
      && Run(params, ops).Some?
      && Run(params, ops).value.memory == TWO_64 - 22
      && Run(params, ops + [Get([97])]).None?
  {
    var params := MakeParams(0);
    var ops2 := [Get([97]), Put([98], Holding(big))];
    var ops3 := [Get([97]), Put([98], Holding(big)), Put([99], Holding([1]))];
    FirstTwo(big);
    var s2 := Run(params, ops2).value;
    FinalEviction(s2, s2.list[1], big);
    hide AddOrReplace, FindOrInsert;
    assert Run(params, ops3) == AddOrReplace(s2, params, [99], Holding([1])) by {
      assert ops3[..2] == ops2;
    }
    assert (ops3 + [Get([97])])[..3] == ops3;
  }

  lemma FirstTwo(big: Bytes)
    requires |big| == 11_000_000
    ensures Run(MakeParams(0), [Get([97]), Put([98], Holding(big))]) ==
      Some(State([Node(0, [], [], 0, 0), Node(1, [98], big, 0, 0)], map[[97] := 0, [98] := 1], 11_000_001, 2))
  {
    var params, ops1, ops2 := MakeParams(0), [Get([97])], [Get([97]), Put([98], Holding(big))];
    var s1 := State([Node(0, [], [], 0, 0)], map[[97] := 0], 0, 1);
    assert Run(params, ops1) == Some(s1) by {
      assert Run(params, ops1[..0]) == Some(EmptyBucket);
      assert [] + [s1.list[0]] == s1.list;
    }
    SecondPut(s1, big);
    hide AddOrReplace, Holding;
    assert ops2[..1] == ops1;
  }

  lemma SecondPut(s: State, big: Bytes)
    requires |big| == 11_000_000 && s == State([Node(0, [], [], 0, 0)], map[[97] := 0], 0, 1)
    ensures AddOrReplace(s, MakeParams(0), [98], Holding(big)) ==
      Some(State([Node(0, [], [], 0, 0), Node(1, [98], big, 0, 0)], map[[97] := 0, [98] := 1], 11_000_001, 2))
  {
    var b := Node(1, [98], big, 0, 0);
    assert Used(b) == 11_000_013;
    var found := FindOrInsert(s, [98]).value;
    assert found.list == [s.list[0], Node(1, [], [], 0, 0)];
    assert Fill(found, [98], Holding(big)).list == [s.list[0], b];
  }

  lemma FinalEviction(s: State, b: Node, big: Bytes)
    requires |big| == 11_000_000 && b == Node(1, [98], big, 0, 0)
    requires s == State([Node(0, [], [], 0, 0), b], map[[97] := 0, [98] := 1], 11_000_001, 2)
    ensures var r := AddOrReplace(s, MakeParams(0), [99], Holding([1]));
      r.Some? && r.value.memory == TWO_64 - 22 && FindOrInsert(r.value, [97]).None?
  {
    var target := Wrap64(s.memory - 104_857);
    assert target == 10_895_144;
    var none: seq<Node> := [];
    var e1 := EvictFirst(s);
    assert e1 == State([b], map[[97] := 0, [98] := 1], 10_999_989, 2);
    var e2 := EvictFirst(e1);
    assert e1.list[1..] == none;
    assert Used(b) == 11_000_013;
    assert Wrap64(10_999_989 - 11_000_013) == TWO_64 - 24;
    assert e2 == State([], map[[97] := 0], TWO_64 - 24, 2);
    assert EvictCount(e2, target) == 0 && EvictCount(e1, target) == 1 && EvictCount(s, target) == 2;
    assert Evict(e1, 1) == Evict(e2, 0) == e2;
    assert Trim(s, MakeParams(0)) == e2;
    var f := FindOrInsert(e2, [99]).value;
    assert f == State([Node(2, [], [], 0, 0)], map[[97] := 0, [99] := 2], TWO_64 - 24, 3);
    var c := Node(2, [99], [1], 0, 0);
    var r := Fill(f, [99], Holding([1]));
    assert r.list == [c];
    assert Used(c) == 14 && Used(f.list[0]) == 12;
    assert r.memory == Wrap64(Wrap64(TWO_64 - 36) + 14) == TWO_64 - 22;
    assert Position([c], 0) == 1;
  }
}
