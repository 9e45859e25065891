/** What a read answers, field by field, and when its cas is the one the store holds. */
module MemReads {
  import opened Wire
  import opened Messages
  import opened LruCache
  import opened MemClient

  /** Whatever the cache still has under a key is the entry last written there, its cas included. */
  ghost predicate Remembers(cfg: Config, cache: Option<Buckets>, last: Store) {
    CacheHolds(cfg, cache, last, true)
  }

  lemma RemembersShape(cfg: Config, cache: Option<Buckets>, last: Store)
    requires Remembers(cfg, cache, last)
    ensures cache.Some? ==> |cache.value| == NUM_BUCKETS
  {
  }

  lemma GetRemembers(cfg: Config, cache: Option<Buckets>, last: Store, k: Bytes)
    requires Remembers(cfg, cache, last) && CacheGet(cfg, cache, k).Some?
    ensures var (cache', answer) := CacheGet(cfg, cache, k).value;
      && Remembers(cfg, cache', last)
      && (answer.Hit? ==> k in last && answer == Hit(last[k].val, last[k].flags, last[k].cas) && last[k].val != [])
  {
    hide CacheGet, CacheHolds;
    CacheGetHolds(cfg, cache, last, k, true);
  }

  /** A write is remembered, whatever it evicts. */
  lemma PutRemembers(cfg: Config, cache: Option<Buckets>, last: Store, k: Bytes, kv: KeyValue)
    requires Remembers(cfg, cache, last) && CachePut(cfg, cache, k, kv).Some?
    ensures Remembers(cfg, CachePut(cfg, cache, k, kv).value, last[k := Item(kv.Val(), kv.Flags(), kv.Cas())])
  {
    hide CachePut, CacheHolds;
    var last' := last[k := Item(kv.Val(), kv.Flags(), kv.Cas())];
    CachePutHolds(cfg, cache, last, k, kv, last', true);
    if cache.None? {
      NoCacheHolds(cfg, last');
      NoCachePut(cfg, k, kv);
    }
  }

  lemma NoCacheHolds(cfg: Config, last: Store)
    ensures CacheHolds(cfg, None, last, true)
  {
  }

  lemma NoCachePut(cfg: Config, k: Bytes, kv: KeyValue)
    ensures CachePut(cfg, None, k, kv) == Some(None)
  {
  }

  // ---------------------------------------------------------------- one read

  // The entry as a hit leaves it, and as a result of the fetch leaves it.
  function Hitted(kv: KeyValue, item: Item): KeyValue {
    kv.(val := Some(item.val), flags := Some(item.flags), cas := Some(item.cas))
  }

  function Fetched(kv: KeyValue, item: Item): KeyValue {
    kv.(val := Some(item.val), flags := Some(item.flags), cas := Some(item.cas),
        returnCode := Some(0), returnError := Some([83, 85, 67, 67, 69, 83, 83]))
  }

  // The keys the cache does not answer.
  function Missed(cfg: Config, cache: Option<Buckets>, request: Request, keys: seq<Bytes>): seq<Bytes>
    requires cache.Some? ==> |cache.value| == NUM_BUCKETS
    requires forall k :: k in keys ==> k in request
  {
    var p := Probe(cfg, Probed(cache, request, []), keys);
    if p.Some? then p.value.missed else []
  }

  // How a key stands after the first loop.
  predicate ProbedKey(last: Store, missed: seq<Bytes>, before: KeyValue, after: KeyValue, k: Bytes) {
    if k in missed then after == before
    else k in last && last[k].val != [] && after == Hitted(before, last[k])
  }

  lemma {:induction false} ProbeRemembers(cfg: Config, last: Store, p: Probed, keys: seq<Bytes>)
    requires Remembers(cfg, p.cache, last)
    requires p.cache.Some? ==> |p.cache.value| == NUM_BUCKETS
    requires forall k :: k in keys ==> k in p.request
    requires forall i, j :: 0 <= i < j < |keys| ==> keys[i] != keys[j]
    requires forall k :: k in keys ==> k !in p.missed
    requires Probe(cfg, p, keys).Some?
    ensures var p' := Probe(cfg, p, keys).value;
      && Remembers(cfg, p'.cache, last)
      && p'.request.Keys == p.request.Keys
      && (forall k :: k in p.request && k !in keys ==> p'.request[k] == p.request[k])
      && (forall k :: k !in keys ==> (k in p'.missed <==> k in p.missed))
      && (forall k :: k in keys ==> ProbedKey(last, p'.missed, p.request[k], p'.request[k], k))
    decreases |keys|
  {
    if keys != [] {
      hide Remembers, CacheGet;
      var k := keys[0];
      GetRemembers(cfg, p.cache, last, k);
      var (cache', answer) := CacheGet(cfg, p.cache, k).value;
      RemembersShape(cfg, cache', last);
      var p' := if answer.Hit? then p.(cache := cache', request := p.request[k := FromCache(p.request[k], answer)])
                else p.(cache := cache', missed := p.missed + [k]);
      assert k !in keys[1..];
      ProbeRemembers(cfg, last, p', keys[1..]);
      assert forall x :: x in keys <==> x == k || x in keys[1..];
    }
  }

  // What is remembered once these keys have been fetched.
  function Refilled(last: Store, store: Store, arrival: seq<Bytes>): Store {
    map k | k in last.Keys + store.Keys && (k in last || k in arrival) ::
      if k in store && k in arrival then store[k] else if k in last then last[k] else store[k]
  }

  lemma RefilledStep(last: Store, store: Store, arrival: seq<Bytes>)
    requires arrival != [] && arrival[0] in store
    ensures Refilled(last[arrival[0] := store[arrival[0]]], store, arrival[1..]) == Refilled(last, store, arrival)
  {
    assert forall x :: x in arrival <==> x == arrival[0] || x in arrival[1..];
  }

  lemma {:induction false} InstallRemembers(
    cfg: Config, store: Store, last: Store, cache: Option<Buckets>, request: Request, arrival: seq<Bytes>)
    requires Remembers(cfg, cache, last)
    requires cache.Some? ==> |cache.value| == NUM_BUCKETS
    requires forall k :: k in arrival ==> k in request && k in store
    requires forall i, j :: 0 <= i < j < |arrival| ==> arrival[i] != arrival[j]
    requires Install(cfg, cache, store, request, arrival).Some?
    ensures var (cache', request') := Install(cfg, cache, store, request, arrival).value;
      && Remembers(cfg, cache', Refilled(last, store, arrival))
      && request'.Keys == request.Keys
      && (forall k :: k in request ==>
            request'[k] == if k in arrival then Fetched(request[k], store[k]) else request[k])
    decreases |arrival|
  {
    if arrival == [] {
      assert Refilled(last, store, arrival) == last;
    } else {
      hide Remembers, CachePut, Refilled;
      var k := arrival[0];
      var kv := FromStore(request[k], store[k]);
      PutRemembers(cfg, cache, last, k, kv);
      assert Item(kv.Val(), kv.Flags(), kv.Cas()) == store[k];
      var cache' := CachePut(cfg, cache, k, kv).value;
      RemembersShape(cfg, cache', last[k := store[k]]);
      InstallRemembers(cfg, store, last[k := store[k]], cache', request[k := kv], arrival[1..]);
      RefilledStep(last, store, arrival);
      assert k !in arrival[1..];
      assert forall x :: x in arrival <==> x == k || x in arrival[1..];
    }
  }

  /** A key answered from the cache gets the entry last written; one fetched gets the item of the store, or nothing. */
  predicate AnsweredKey(last: Store, store: Store, missed: seq<Bytes>, before: KeyValue, after: KeyValue, k: Bytes) {
    if k !in missed then k in last && last[k].val != [] && after == Hitted(before, last[k])
    else if k in store then after == Fetched(before, store[k])
    else after == before
  }

  /** What a read answers for every key, all fields of the answer told, and what the cache remembers afterwards. */
  lemma ReadAnswers(
    cfg: Config, cache: Option<Buckets>, last: Store, store: Store, request: Request, keys: seq<Bytes>,
    arrival: seq<Bytes>)
    requires cache.Some? ==> |cache.value| == NUM_BUCKETS
    requires Remembers(cfg, cache, last) && Enumerates(keys, request)
    requires ReadThrough(cfg, cache, store, request, keys, arrival).Some?
    ensures var (cache', request') := ReadThrough(cfg, cache, store, request, keys, arrival).value;
      var missed := Missed(cfg, cache, request, keys);
      && Remembers(cfg, cache', Refilled(last, store, arrival))
      && request'.Keys == request.Keys
      && (forall k :: k in request ==> AnsweredKey(last, store, missed, request[k], request'[k], k))
    ensures forall k :: k in arrival <==> k in Missed(cfg, cache, request, keys) && k in store
  {
    hide Remembers, Probe, Install, Refilled;
    ProbeRemembers(cfg, last, Probed(cache, request, []), keys);
    ProbeShape(cfg, Probed(cache, request, []), keys);
    var p := Probe(cfg, Probed(cache, request, []), keys).value;
    if p.missed != [] {
      InstallRemembers(cfg, store, last, p.cache, p.request, arrival);
    } else {
      NothingRefilled(last, store, arrival);
    }
  }

  lemma NothingRefilled(last: Store, store: Store, arrival: seq<Bytes>)
    requires forall k :: k !in arrival
    ensures Refilled(last, store, arrival) == last
  {
  }

  // ---------------------------------------------------------------- over runs

  // The entry last cached under a key, and whether a fetch or a set put it there.
  datatype Filled = Filled(item: Item, fetched: bool)

  type Fillings = map<Bytes, Filled>

  function Items(filled: Fillings): Store {
    map k | k in filled :: filled[k].item
  }

  function FilledBySets(filled: Fillings, kvs: seq<KeyValue>): Fillings
    decreases |kvs|
  {
    if kvs == [] then filled
    else FilledBySets(filled[kvs[0].Key() := Filled(Item(kvs[0].Val(), kvs[0].Flags(), kvs[0].Cas()), false)], kvs[1..])
  }

  function FilledByFetch(filled: Fillings, store: Store, arrival: seq<Bytes>): Fillings {
    map k | k in filled.Keys + store.Keys && (k in filled || k in arrival) ::
      if k in store && k in arrival then Filled(store[k], true)
      else if k in filled then filled[k] else Filled(store[k], true)
  }

  /** Told from the operations alone. */
  function FilledAfter(store: Store, filled: Fillings, ops: seq<ClientOp>): Fillings
    decreases |ops|
  {
    if ops == [] then filled
    else
      match ops[0]
      case GetOp(_, _, arrival) => FilledAfter(store, FilledByFetch(filled, store, arrival), ops[1..])
      case SetOp(kvs, newCas) => FilledAfter(Written(store, kvs, newCas), FilledBySets(filled, kvs), ops[1..])
  }

  // An entry from a fetch is the item of the store; one from a set has another cas.
  predicate Current(store: Store, filled: Fillings) {
    forall k :: k in filled ==>
      && k in store && store[k].val == filled[k].item.val && store[k].flags == filled[k].item.flags
      && (filled[k].fetched <==> filled[k].item.cas == store[k].cas)
  }

  ghost predicate Follows(cfg: Config, cache: Option<Buckets>, store: Store, filled: Fillings) {
    Remembers(cfg, cache, Items(filled)) && Current(store, filled)
  }

  // One plain set: the cache has the cas it was sent with, the store a positive one.
  lemma SetFollows(cfg: Config, cache: Option<Buckets>, store: Store, filled: Fillings, kv: KeyValue, newCas: int)
    requires cache.Some? ==> |cache.value| == NUM_BUCKETS
    requires Follows(cfg, cache, store, filled) && newCas > 0 && Plain(kv)
    requires SetKey(cfg, cache, store, kv, newCas).Some?
    ensures var (cache', store') := SetKey(cfg, cache, store, kv, newCas).value;
      && store' == store[kv.Key() := Item(kv.Val(), kv.Flags(), newCas)]
      && Follows(cfg, cache', store', filled[kv.Key() := Filled(Item(kv.Val(), kv.Flags(), kv.Cas()), false)])
  {
    hide Remembers, CachePut;
    PutRemembers(cfg, cache, Items(filled), kv.Key(), kv);
    var filled' := filled[kv.Key() := Filled(Item(kv.Val(), kv.Flags(), kv.Cas()), false)];
    assert Items(filled') == Items(filled)[kv.Key() := Item(kv.Val(), kv.Flags(), kv.Cas())];
  }

  lemma {:induction false} SetsFollow(
    cfg: Config, cache: Option<Buckets>, store: Store, filled: Fillings, kvs: seq<KeyValue>, newCas: int)
    requires cache.Some? ==> |cache.value| == NUM_BUCKETS
    requires Follows(cfg, cache, store, filled) && newCas > 0 && forall kv :: kv in kvs ==> Plain(kv)
    requires WriteAll(cfg, cache, store, kvs, newCas).Some?
    ensures var (cache', store') := WriteAll(cfg, cache, store, kvs, newCas).value;
      store' == Written(store, kvs, newCas) && Follows(cfg, cache', store', FilledBySets(filled, kvs))
    decreases |kvs|
  {
    if kvs != [] {
      hide Follows, SetKey, Plain;
      var kv := kvs[0];
      assert Plain(kv);
      SetFollows(cfg, cache, store, filled, kv, newCas);
      var (cache', store') := SetKey(cfg, cache, store, kv, newCas).value;
      var filled' := filled[kv.Key() := Filled(Item(kv.Val(), kv.Flags(), kv.Cas()), false)];
      SetsFollow(cfg, cache', store', filled', kvs[1..], newCas + 1);
    }
  }

  lemma FetchFollows(
    cfg: Config, cache: Option<Buckets>, store: Store, filled: Fillings, request: Request, keys: seq<Bytes>,
    arrival: seq<Bytes>)
    requires cache.Some? ==> |cache.value| == NUM_BUCKETS
    requires Follows(cfg, cache, store, filled) && Enumerates(keys, request)
    requires ReadThrough(cfg, cache, store, request, keys, arrival).Some?
    ensures Follows(cfg, ReadThrough(cfg, cache, store, request, keys, arrival).value.0, store,
                    FilledByFetch(filled, store, arrival))
  {
    hide Remembers, ReadThrough, Enumerates;
    ReadAnswers(cfg, cache, Items(filled), store, request, keys, arrival);
    assert Items(FilledByFetch(filled, store, arrival)) == Refilled(Items(filled), store, arrival);
  }

  // memcached numbers its items from one.
  predicate Numbered(op: ClientOp) {
    op.SetOp? ==> op.newCas > 0
  }

  lemma {:induction false} RunFollows(cfg: Config, o: Outcome, filled: Fillings, ops: seq<ClientOp>)
    requires o.cache.Some? ==> |o.cache.value| == NUM_BUCKETS
    requires Follows(cfg, o.cache, o.store, filled)
    requires forall op :: op in ops ==> PlainOp(op) && Numbered(op)
    requires RunClient(cfg, o, ops).Some?
    ensures var o' := RunClient(cfg, o, ops).value;
      Follows(cfg, o'.cache, o'.store, FilledAfter(o.store, filled, ops))
    decreases |ops|
  {
    if ops != [] {
      hide Follows, ReadThrough, WriteAll, FilledByFetch, FilledBySets, Written;
      assert PlainOp(ops[0]) && Numbered(ops[0]);
      match ops[0]
      case GetOp(request, keys, arrival) =>
        FetchFollows(cfg, o.cache, o.store, filled, request, keys, arrival);
        ReadKeepsKeys(cfg, o.cache, o.store, request, keys, arrival);
        var (cache', request') := ReadThrough(cfg, o.cache, o.store, request, keys, arrival).value;
        RunFollows(cfg, Outcome(cache', o.store, o.answers + [request']), FilledByFetch(filled, o.store, arrival),
                   ops[1..]);
      case SetOp(kvs, newCas) =>
        SetsFollow(cfg, o.cache, o.store, filled, kvs, newCas);
        var (cache', store') := WriteAll(cfg, o.cache, o.store, kvs, newCas).value;
        RunFollows(cfg, Outcome(cache', store', o.answers), FilledBySets(filled, kvs), ops[1..]);
    }
  }

  lemma NothingCached(cfg: Config, cached: bool, store: Store)
    ensures Follows(cfg, if cached then Some(EmptyCache()) else None, store, map[])
  {
  }

  /**
   A read after any run of reads and plain sets: the cas it answers for a key the store holds is the
   store's exactly when the key was fetched just now, or its entry was last cached by a fetch; an entry
   cached by a set has the cas it was sent with.
   */
  lemma CasAnsweredIff(
    cfg: Config, cached: bool, store: Store, ops: seq<ClientOp>, request: Request, keys: seq<Bytes>,
    arrival: seq<Bytes>)
    requires forall op :: op in ops ==> PlainOp(op) && Numbered(op)
    requires RunClient(cfg, Outcome(if cached then Some(EmptyCache()) else None, store, []), ops).Some?
    requires Enumerates(keys, request)
    requires var o := RunClient(cfg, Outcome(if cached then Some(EmptyCache()) else None, store, []), ops).value;
      ReadThrough(cfg, o.cache, o.store, request, keys, arrival).Some?
    ensures var o := RunClient(cfg, Outcome(if cached then Some(EmptyCache()) else None, store, []), ops).value;
      var answers := ReadThrough(cfg, o.cache, o.store, request, keys, arrival).value.1;
      var missed, filled := Missed(cfg, o.cache, request, keys), FilledAfter(store, map[], ops);
      forall k :: k in request && k in o.store ==>
        && k in answers
        && (answers[k].cas == Some(o.store[k].cas) <==> k in missed || (k in filled && filled[k].fetched))
        && (k !in missed ==> k in filled && answers[k].cas == Some(filled[k].item.cas))
  {
    hide RunClient, ReadThrough, Remembers, FilledAfter, Missed, Enumerates;
    var o0 := Outcome(if cached then Some(EmptyCache()) else None, store, []);
    NothingCached(cfg, cached, store);
    RunFollows(cfg, o0, map[], ops);
    var o := RunClient(cfg, o0, ops).value;
    ReadAnswers(cfg, o.cache, Items(FilledAfter(store, map[], ops)), o.store, request, keys, arrival);
  }
}
