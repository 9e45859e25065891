/**
 The read-through client: 64 cache buckets in front of an abstract memcached store.  A cache of
 None is a router started without one.  A result of None means that a dangling cache iterator was
 followed (see LruCache), where the program has no defined behaviour.
 */
module MemClient {
  import opened Wire
  import opened Messages
  import opened LruCache

  const NUM_BUCKETS := 64

  datatype Config = Config(hash: Bytes -> nat, params: Params)
  type Buckets = seq<State>

  datatype Item = Item(val: Bytes, flags: int, cas: int)
  type Store = map<Bytes, Item>
  type Request = map<Bytes, KeyValue>

  function BucketOf(cfg: Config, k: Bytes): (b: nat)
    ensures b < NUM_BUCKETS
  {
    cfg.hash(k) % 64
  }

  /** Two keys share a bucket exactly when their hashes agree modulo 64. */
  lemma SharedBucket(cfg: Config, a: Bytes, b: Bytes)
    ensures BucketOf(cfg, a) == BucketOf(cfg, b) <==> (cfg.hash(a) - cfg.hash(b)) % 64 == 0
    ensures cfg.hash(a) < 64 ==> BucketOf(cfg, a) == cfg.hash(a)
    ensures |EmptyCache()| == 64
  {
  }

  function EmptyCache(): Buckets {
    seq(NUM_BUCKETS, _ => EmptyBucket)
  }

  // ---------------------------------------------------------------- agreement of cache and store

  // `exact` takes the cas into account.
  predicate Holds(store: Store, k: Bytes, d: Node, exact: bool) {
    d.value == [] ||
    (k in store && store[k].val == d.value && store[k].flags == d.flags && (exact ==> store[k].cas == d.cas))
  }

  ghost predicate Sound(s: State) {
    && DistinctIds(s.list)
    && (forall p :: 0 <= p < |s.list| ==> s.list[p].id < s.created)
    && (forall k :: k in s.index ==> s.index[k] < s.created)
    && (forall k, k' :: k in s.index && k' in s.index && k != k' ==> s.index[k] != s.index[k'])
  }

  /** What a lookup of `k` would find is what the store holds for `k`. */
  ghost predicate KeyAgrees(s: State, store: Store, k: Bytes, exact: bool) {
    k in s.index ==>
      forall p :: 0 <= p < |s.list| && s.list[p].id == s.index[k] ==> Holds(store, k, s.list[p], exact)
  }

  ghost predicate BucketAgrees(s: State, store: Store, exact: bool) {
    Sound(s) && forall k :: KeyAgrees(s, store, k, exact)
  }

  ghost predicate CacheHolds(cfg: Config, cache: Option<Buckets>, store: Store, exact: bool) {
    cache.Some? ==>
      && |cache.value| == NUM_BUCKETS
      && (forall b :: 0 <= b < NUM_BUCKETS ==> BucketAgrees(cache.value[b], store, exact))
      && (forall b, k :: 0 <= b < NUM_BUCKETS && k in cache.value[b].index ==> BucketOf(cfg, k) == b)
  }

  // ---------------------------------------------------------------- one bucket

  lemma FindOrInsertAgrees(s: State, store: Store, k: Bytes, exact: bool)
    requires BucketAgrees(s, store, exact) && FindOrInsert(s, k).Some?
    ensures var s' := FindOrInsert(s, k).value;
      && BucketAgrees(s', store, exact)
      && k in s'.index && s'.list[|s'.list| - 1].id == s'.index[k]
      && (forall x :: x in s'.index ==> x in s.index || x == k)
  {
    var s' := FindOrInsert(s, k).value;
    if k in s.index {
      MoveAgrees(s, store, k, exact);
    } else {
      forall x
        ensures KeyAgrees(s', store, x, exact)
      {
        assert KeyAgrees(s, store, x, exact);
      }
    }
  }

  lemma MoveAgrees(s: State, store: Store, k: Bytes, exact: bool)
    requires BucketAgrees(s, store, exact) && k in s.index && FindOrInsert(s, k).Some?
    ensures BucketAgrees(FindOrInsert(s, k).value, store, exact)
  {
    var p, s' := Position(s.list, s.index[k]), FindOrInsert(s, k).value;
    MoveKeepsDistinct(s.list, p);
    forall x
      ensures KeyAgrees(s', store, x, exact)
    {
      assert KeyAgrees(s, store, x, exact);
    }
  }

  lemma EvictFirstAgrees(s: State, store: Store, exact: bool)
    requires BucketAgrees(s, store, exact) && s.list != []
    ensures BucketAgrees(EvictFirst(s), store, exact)
  {
    hide Used, Wrap64;
    forall x
      ensures KeyAgrees(EvictFirst(s), store, x, exact)
    {
      assert KeyAgrees(s, store, x, exact);
    }
  }

  lemma {:induction false} EvictAgrees(s: State, store: Store, n: nat, exact: bool)
    requires BucketAgrees(s, store, exact) && n <= |s.list|
    ensures BucketAgrees(Evict(s, n), store, exact)
    ensures forall x :: x in Evict(s, n).index ==> x in s.index
    decreases n
  {
    if n > 0 {
      EvictFirstAgrees(s, store, exact);
      assert forall x :: x in EvictFirst(s).index ==> x in s.index;
      hide BucketAgrees, EvictFirst;
      EvictAgrees(EvictFirst(s), store, n - 1, exact);
    }
  }

  lemma TrimAgrees(s: State, params: Params, store: Store, exact: bool)
    requires BucketAgrees(s, store, exact)
    ensures BucketAgrees(Trim(s, params), store, exact)
    ensures forall x :: x in Trim(s, params).index ==> x in s.index
  {
    hide BucketAgrees, EvictCount, Evict;
    EvictAgrees(s, store, EvictCount(s, Wrap64(s.memory - params.decreaseBy)), exact);
  }

  // Writing the entry of k: only what is found under k changes.
  lemma FillAgrees(s: State, store: Store, k: Bytes, kv: KeyValue, store': Store, exact: bool)
    requires BucketAgrees(s, store, exact) && s.list != []
    requires k in s.index && s.list[|s.list| - 1].id == s.index[k]
    requires SameElsewhere(store, store', k)
    ensures BucketAgrees(Fill(s, k, kv), store', exact) <==> Matches(store', k, kv, exact)
  {
    hide Used, Wrap64;
    var s', last := Fill(s, k, kv), |s.list| - 1;
    assert forall x :: x != k ==> KeyAgrees(s', store', x, exact) by {
      forall x | x != k
        ensures KeyAgrees(s', store', x, exact)
      {
        assert KeyAgrees(s, store, x, exact);
      }
    }
    assert KeyAgrees(s', store', k, exact) <==> Matches(store', k, kv, exact) by {
      assert Holds(store', k, s'.list[last], exact) <==> Matches(store', k, kv, exact);
    }
    assert Sound(s');
  }

  predicate SameElsewhere(store: Store, store': Store, k: Bytes) {
    && (forall x :: x in store && x != k ==> x in store' && store'[x] == store[x])
    && (forall x :: x in store' && x != k ==> x in store)
  }

  predicate Matches(store: Store, k: Bytes, kv: KeyValue, exact: bool) {
    kv.Val() == [] ||
    (k in store && store[k].val == kv.Val() && store[k].flags == kv.Flags() && (exact ==> store[k].cas == kv.Cas()))
  }

  lemma PutAgrees(s: State, params: Params, store: Store, k: Bytes, kv: KeyValue, store': Store, exact: bool)
    requires BucketAgrees(s, store, exact) && AddOrReplace(s, params, k, kv).Some?
    requires SameElsewhere(store, store', k)
    ensures BucketAgrees(AddOrReplace(s, params, k, kv).value, store', exact) <==> Matches(store', k, kv, exact)
    ensures forall x :: x in AddOrReplace(s, params, k, kv).value.index ==> x in s.index || x == k
  {
    hide BucketAgrees, FindOrInsert, Trim, SameElsewhere, Matches;
    TrimAgrees(s, params, store, exact);
    FindOrInsertAgrees(Trim(s, params), store, k, exact);
    FillAgrees(FindOrInsert(Trim(s, params), k).value, store, k, kv, store', exact);
  }

  lemma AnswerAgrees(s: State, store: Store, k: Bytes, exact: bool)
    requires BucketAgrees(s, store, exact) && s.list != [] && k in s.index && s.list[|s.list| - 1].id == s.index[k]
    ensures var answer := Answer(s);
      answer.Hit? ==>
        && k in store && store[k].val == answer.val && store[k].flags == answer.flags && answer.val != []
        && (exact ==> store[k].cas == answer.cas)
  {
    assert KeyAgrees(s, store, k, exact);
  }

  /** An entry just written is found again: value, flags and cas, or a miss if the value is empty. */
  lemma PutThenGet(s: State, params: Params, k: Bytes, kv: KeyValue)
    requires Sound(s) && AddOrReplace(s, params, k, kv).Some?
    ensures var s' := AddOrReplace(s, params, k, kv).value;
      && FindOrInsert(s', k).Some?
      && Answer(FindOrInsert(s', k).value) == if kv.Val() == [] then Miss else Hit(kv.Val(), kv.Flags(), kv.Cas())
  {
    hide Used, Wrap64, Trim;
    TrimSound(s, params);
    var t := Trim(s, params);
    FindSound(t, k);
    var found := FindOrInsert(t, k).value;
    var s' := Fill(found, k, kv);
    var last := |s'.list| - 1;
    assert s'.list[last].id == s'.index[k];
    assert DistinctIds(s'.list);
    assert Position(s'.list, s'.index[k]) == last;
  }

  lemma FindSound(s: State, k: Bytes)
    requires Sound(s) && FindOrInsert(s, k).Some?
    ensures var s' := FindOrInsert(s, k).value;
      Sound(s') && k in s'.index && s'.list[|s'.list| - 1].id == s'.index[k]
  {
    if k in s.index {
      MoveKeepsDistinct(s.list, Position(s.list, s.index[k]));
    }
  }

  lemma {:induction false} EvictSound(s: State, n: nat)
    requires Sound(s) && n <= |s.list|
    ensures Sound(Evict(s, n))
    decreases n
  {
    hide Used, Wrap64;
    if n > 0 {
      assert Sound(EvictFirst(s));
      EvictSound(EvictFirst(s), n - 1);
    }
  }

  lemma TrimSound(s: State, params: Params)
    requires Sound(s)
    ensures Sound(Trim(s, params))
  {
    hide Sound, EvictCount, Evict;
    EvictSound(s, EvictCount(s, Wrap64(s.memory - params.decreaseBy)));
  }

  // ---------------------------------------------------------------- the cache

  function CacheGet(cfg: Config, cache: Option<Buckets>, k: Bytes): Option<(Option<Buckets>, Lookup)>
    requires cache.Some? ==> |cache.value| == NUM_BUCKETS
  {
    if cache.None? then Some((None, Miss))
    else
      var b := BucketOf(cfg, k);
      match FindOrInsert(cache.value[b], k)
      case None => None
      case Some(s) => Some((Some(cache.value[b := s]), Answer(s)))
  }

  function CachePut(cfg: Config, cache: Option<Buckets>, k: Bytes, kv: KeyValue): Option<Option<Buckets>>
    requires cache.Some? ==> |cache.value| == NUM_BUCKETS
  {
    if cache.None? then Some(None)
    else
      var b := BucketOf(cfg, k);
      match AddOrReplace(cache.value[b], cfg.params, k, kv)
      case None => None
      case Some(s) => Some(Some(cache.value[b := s]))
  }

  lemma CacheGetHolds(cfg: Config, cache: Option<Buckets>, store: Store, k: Bytes, exact: bool)
    requires CacheHolds(cfg, cache, store, exact) && CacheGet(cfg, cache, k).Some?
    ensures var (cache', answer) := CacheGet(cfg, cache, k).value;
      && CacheHolds(cfg, cache', store, exact)
      && (answer.Hit? ==>
            && k in store && store[k].val == answer.val && store[k].flags == answer.flags && answer.val != []
            && (exact ==> store[k].cas == answer.cas))
  {
    hide FindOrInsert, BucketAgrees, Answer, BucketOf;
    if cache.Some? {
      var b := BucketOf(cfg, k);
      FindOrInsertAgrees(cache.value[b], store, k, exact);
      AnswerAgrees(FindOrInsert(cache.value[b], k).value, store, k, exact);
    }
  }

  lemma OtherBucketAgrees(s: State, store: Store, store': Store, k: Bytes, exact: bool)
    requires BucketAgrees(s, store, exact) && SameElsewhere(store, store', k) && k !in s.index
    ensures BucketAgrees(s, store', exact)
  {
    forall x
      ensures KeyAgrees(s, store', x, exact)
    {
      assert KeyAgrees(s, store, x, exact);
    }
  }

  lemma CachePutHolds(
    cfg: Config, cache: Option<Buckets>, store: Store, k: Bytes, kv: KeyValue, store': Store, exact: bool)
    requires CacheHolds(cfg, cache, store, exact) && CachePut(cfg, cache, k, kv).Some?
    requires SameElsewhere(store, store', k)
    ensures CacheHolds(cfg, CachePut(cfg, cache, k, kv).value, store', exact) <==>
      (cache.None? || Matches(store', k, kv, exact))
  {
    hide AddOrReplace, BucketAgrees, SameElsewhere, Matches, BucketOf;
    if cache.Some? {
      var b := BucketOf(cfg, k);
      PutAgrees(cache.value[b], cfg.params, store, k, kv, store', exact);
      var cache' := CachePut(cfg, cache, k, kv).value.value;
      forall i | 0 <= i < NUM_BUCKETS && i != b
        ensures BucketAgrees(cache'[i], store', exact)
      {
        OtherBucketAgrees(cache.value[i], store, store', k, exact);
      }
      assert BucketAgrees(cache'[b], store', exact) <==> Matches(store', k, kv, exact);
    }
  }

  // ---------------------------------------------------------------- cache and store, value and flags

  /** What the cache would answer is the value and the flags that the store holds. */
  ghost predicate CacheAgrees(cfg: Config, cache: Option<Buckets>, store: Store) {
    CacheHolds(cfg, cache, store, false)
  }

  lemma CacheGetAgrees(cfg: Config, cache: Option<Buckets>, store: Store, k: Bytes)
    requires CacheAgrees(cfg, cache, store) && CacheGet(cfg, cache, k).Some?
    ensures var (cache', answer) := CacheGet(cfg, cache, k).value;
      && CacheAgrees(cfg, cache', store)
      && (answer.Hit? ==> k in store && store[k].val == answer.val && store[k].flags == answer.flags)
  {
    hide CacheGet, CacheHolds;
    CacheGetHolds(cfg, cache, store, k, false);
  }

  lemma CachePutAgrees(cfg: Config, cache: Option<Buckets>, store: Store, k: Bytes, kv: KeyValue, store': Store)
    requires CacheAgrees(cfg, cache, store) && CachePut(cfg, cache, k, kv).Some?
    requires SameElsewhere(store, store', k)
    ensures CacheAgrees(cfg, CachePut(cfg, cache, k, kv).value, store') <==>
      || cache.None?
      || kv.Val() == []
      || (k in store' && store'[k].val == kv.Val() && store'[k].flags == kv.Flags())
  {
    hide CachePut, CacheHolds, SameElsewhere;
    CachePutHolds(cfg, cache, store, k, kv, store', false);
  }

  // ---------------------------------------------------------------- GetKeys

  datatype Probed = Probed(cache: Option<Buckets>, request: Request, missed: seq<Bytes>)

  function FromCache(kv: KeyValue, hit: Lookup): KeyValue
    requires hit.Hit?
  {
    kv.(val := Some(hit.val), flags := Some(hit.flags), cas := Some(hit.cas))
  }

  function FromStore(kv: KeyValue, item: Item): KeyValue {
    kv.(val := Some(item.val), flags := Some(item.flags), cas := Some(item.cas),
        returnCode := Some(0), returnError := Some(SUCCESS))
  }

  const SUCCESS: Bytes := [83, 85, 67, 67, 69, 83, 83]

  // Keys found in the cache are answered, the others collected.
  function Probe(cfg: Config, p: Probed, keys: seq<Bytes>): Option<Probed>
    requires p.cache.Some? ==> |p.cache.value| == NUM_BUCKETS
    requires forall k :: k in keys ==> k in p.request
    decreases |keys|
  {
    if keys == [] then Some(p)
    else
      var k := keys[0];
      match CacheGet(cfg, p.cache, k)
      case None => None
      case Some((cache', answer)) =>
        var p' := if answer.Hit? then p.(cache := cache', request := p.request[k := FromCache(p.request[k], answer)])
                  else p.(cache := cache', missed := p.missed + [k]);
        Probe(cfg, p', keys[1..])
  }

  // The results of the fetch, in order of arrival, enter the request and the cache.
  function Install(cfg: Config, cache: Option<Buckets>, store: Store, request: Request, arrival: seq<Bytes>)
    : Option<(Option<Buckets>, Request)>
    requires cache.Some? ==> |cache.value| == NUM_BUCKETS
    requires forall k :: k in arrival ==> k in request && k in store
    decreases |arrival|
  {
    if arrival == [] then Some((cache, request))
    else
      var k := arrival[0];
      var kv := FromStore(request[k], store[k]);
      match CachePut(cfg, cache, k, kv)
      case None => None
      case Some(cache') => Install(cfg, cache', store, request[k := kv], arrival[1..])
  }

  // The server answers each fetched key it holds once.
  predicate ValidArrival(store: Store, missed: seq<Bytes>, arrival: seq<Bytes>) {
    && (forall i, j :: 0 <= i < j < |arrival| ==> arrival[i] != arrival[j])
    && (forall k :: k in arrival ==> k in missed && k in store)
    && (forall k :: k in missed && k in store ==> k in arrival)
  }

  predicate Enumerates(keys: seq<Bytes>, request: Request) {
    && (forall i, j :: 0 <= i < j < |keys| ==> keys[i] != keys[j])
    && (forall k :: k in keys ==> k in request)
    && (forall k :: k in request ==> k in keys)
  }

  /** What the store alone would answer. */
  function Uncached(store: Store, kv: KeyValue, k: Bytes): KeyValue {
    if k in store then FromStore(kv, store[k]) else kv
  }

  predicate SameAnswer(a: KeyValue, b: KeyValue) {
    a.val == b.val && a.flags == b.flags
  }

  // How far the request for k has been served.
  predicate Served(store: Store, missed: seq<Bytes>, before: KeyValue, after: KeyValue, k: Bytes) {
    if k in missed then after == before else SameAnswer(after, Uncached(store, before, k))
  }

  lemma {:induction false} ProbeServes(cfg: Config, store: Store, p: Probed, keys: seq<Bytes>)
    requires CacheAgrees(cfg, p.cache, store)
    requires forall k :: k in keys ==> k in p.request
    requires forall i, j :: 0 <= i < j < |keys| ==> keys[i] != keys[j]
    requires forall k :: k in keys ==> k !in p.missed
    requires Probe(cfg, p, keys).Some?
    ensures var p' := Probe(cfg, p, keys).value;
      && CacheAgrees(cfg, p'.cache, store)
      && p'.request.Keys == p.request.Keys
      && (forall k :: k in p.request && k !in keys ==> p'.request[k] == p.request[k])
      && (forall k :: k !in keys ==> (k in p'.missed <==> k in p.missed))
      && (forall k :: k in keys ==> Served(store, p'.missed, p.request[k], p'.request[k], k))
    decreases |keys|
  {
    if keys != [] {
      hide CacheAgrees, CacheGet;
      var k := keys[0];
      CacheGetAgrees(cfg, p.cache, store, k);
      var (cache', answer) := CacheGet(cfg, p.cache, k).value;
      AgreesShape(cfg, cache', store);
      var p' := if answer.Hit? then p.(cache := cache', request := p.request[k := FromCache(p.request[k], answer)])
                else p.(cache := cache', missed := p.missed + [k]);
      assert k !in keys[1..];
      ProbeServes(cfg, store, p', keys[1..]);
      assert forall x :: x in keys <==> x == k || x in keys[1..];
    }
  }

  lemma AgreesShape(cfg: Config, cache: Option<Buckets>, store: Store)
    requires CacheAgrees(cfg, cache, store)
    ensures cache.Some? ==> |cache.value| == NUM_BUCKETS
  {
  }

  lemma InstallOneAgrees(cfg: Config, cache: Option<Buckets>, store: Store, k: Bytes, kv: KeyValue)
    requires CacheAgrees(cfg, cache, store) && k in store
    requires cache.Some? ==> |cache.value| == NUM_BUCKETS
    requires CachePut(cfg, cache, k, FromStore(kv, store[k])).Some?
    ensures CacheAgrees(cfg, CachePut(cfg, cache, k, FromStore(kv, store[k])).value, store)
  {
    hide CacheAgrees, CachePut;
    CachePutAgrees(cfg, cache, store, k, FromStore(kv, store[k]), store);
  }

  lemma {:induction false} InstallServes(
    cfg: Config, store: Store, cache: Option<Buckets>, request: Request, arrival: seq<Bytes>)
    requires CacheAgrees(cfg, cache, store)
    requires forall k :: k in arrival ==> k in request && k in store
    requires forall i, j :: 0 <= i < j < |arrival| ==> arrival[i] != arrival[j]
    requires Install(cfg, cache, store, request, arrival).Some?
    ensures var (cache', request') := Install(cfg, cache, store, request, arrival).value;
      && CacheAgrees(cfg, cache', store)
      && request'.Keys == request.Keys
      && (forall k :: k in request ==>
            request'[k] == if k in arrival then FromStore(request[k], store[k]) else request[k])
    decreases |arrival|
  {
    if arrival != [] {
      hide CacheAgrees, CachePut;
      var k := arrival[0];
      var kv := FromStore(request[k], store[k]);
      InstallOneAgrees(cfg, cache, store, k, request[k]);
      var cache' := CachePut(cfg, cache, k, kv).value;
      AgreesShape(cfg, cache', store);
      InstallServes(cfg, store, cache', request[k := kv], arrival[1..]);
      assert k !in arrival[1..];
      assert forall x :: x in arrival <==> x == k || x in arrival[1..];
    }
  }

  // None: a dangling iterator was followed, or `arrival` is not an answer the server gives.
  function ReadThrough(
    cfg: Config, cache: Option<Buckets>, store: Store, request: Request, keys: seq<Bytes>, arrival: seq<Bytes>)
    : Option<(Option<Buckets>, Request)>
    requires cache.Some? ==> |cache.value| == NUM_BUCKETS
    requires forall k :: k in keys ==> k in request
  {
    ProbeShape(cfg, Probed(cache, request, []), keys);
    match Probe(cfg, Probed(cache, request, []), keys)
    case None => None
    case Some(p) =>
      if !ValidArrival(store, p.missed, arrival) then None
      else if p.missed == [] then Some((p.cache, p.request))
      else Install(cfg, p.cache, store, p.request, arrival)
  }

  lemma {:induction false} ProbeShape(cfg: Config, p: Probed, keys: seq<Bytes>)
    requires p.cache.Some? ==> |p.cache.value| == NUM_BUCKETS
    requires forall k :: k in keys ==> k in p.request
    ensures var r := Probe(cfg, p, keys);
      r.Some? ==>
        && (r.value.cache.Some? ==> |r.value.cache.value| == NUM_BUCKETS)
        && r.value.request.Keys == p.request.Keys
        && (forall k :: k in r.value.missed ==> k in p.missed || k in keys)
    decreases |keys|
  {
    hide FindOrInsert, Answer, BucketOf;
    if keys != [] {
      var k := keys[0];
      var got := CacheGet(cfg, p.cache, k);
      if got.Some? {
        var (cache', answer) := got.value;
        var p' := if answer.Hit? then p.(cache := cache', request := p.request[k := FromCache(p.request[k], answer)])
                  else p.(cache := cache', missed := p.missed + [k]);
        ProbeShape(cfg, p', keys[1..]);
      }
    }
  }

  lemma {:induction false} InstallShape(
    cfg: Config, cache: Option<Buckets>, store: Store, request: Request, arrival: seq<Bytes>)
    requires cache.Some? ==> |cache.value| == NUM_BUCKETS
    requires forall k :: k in arrival ==> k in request && k in store
    ensures var r := Install(cfg, cache, store, request, arrival);
      r.Some? ==> r.value.1.Keys == request.Keys && (r.value.0.Some? ==> |r.value.0.value| == NUM_BUCKETS)
    decreases |arrival|
  {
    hide AddOrReplace, BucketOf;
    if arrival != [] {
      var k := arrival[0];
      var kv := FromStore(request[k], store[k]);
      var put := CachePut(cfg, cache, k, kv);
      if put.Some? {
        InstallShape(cfg, put.value, store, request[k := kv], arrival[1..]);
      }
    }
  }

  /** Whatever the cache holds, every key asked for has an entry in the answer and no other has; no bucket is lost. */
  lemma ReadKeepsKeys(
    cfg: Config, cache: Option<Buckets>, store: Store, request: Request, keys: seq<Bytes>, arrival: seq<Bytes>)
    requires cache.Some? ==> |cache.value| == NUM_BUCKETS
    requires forall k :: k in keys ==> k in request
    ensures var r := ReadThrough(cfg, cache, store, request, keys, arrival);
      r.Some? ==> r.value.1.Keys == request.Keys && (r.value.0.Some? ==> |r.value.0.value| == NUM_BUCKETS)
  {
    hide Probe, Install;
    ProbeShape(cfg, Probed(cache, request, []), keys);
    var p := Probe(cfg, Probed(cache, request, []), keys);
    if p.Some? && ValidArrival(store, p.value.missed, arrival) {
      InstallShape(cfg, p.value.cache, store, p.value.request, arrival);
    }
  }

  lemma InSomeOrder(request: Request) returns (keys: seq<Bytes>)
    ensures Enumerates(keys, request)
    decreases |request|
  {
    if request == map[] {
      keys := [];
    } else {
      var k :| k in request;
      var rest := InSomeOrder(request - {k});
      keys := [k] + rest;
    }
  }

  lemma {:induction false} ProbeWithoutCache(cfg: Config, request: Request, missed: seq<Bytes>, keys: seq<Bytes>)
    requires forall k :: k in keys ==> k in request
    ensures Probe(cfg, Probed(None, request, missed), keys) == Some(Probed(None, request, missed + keys))
    decreases |keys|
  {
    if keys == [] {
      assert missed + keys == missed;
    } else {
      ProbeWithoutCache(cfg, request, missed + [keys[0]], keys[1..]);
      assert missed + [keys[0]] + keys[1..] == missed + keys;
    }
  }

  /** A read through an agreeing cache answers what the store would, and leaves the cache agreeing. */
  lemma GetKeysTransparent(
    cfg: Config, cache: Option<Buckets>, store: Store, request: Request, keys: seq<Bytes>, arrival: seq<Bytes>)
    requires CacheAgrees(cfg, cache, store) && Enumerates(keys, request)
    requires ReadThrough(cfg, cache, store, request, keys, arrival).Some?
    ensures var (cache', request') := ReadThrough(cfg, cache, store, request, keys, arrival).value;
      && CacheAgrees(cfg, cache', store)
      && request'.Keys == request.Keys
      && (forall k :: k in request ==> SameAnswer(request'[k], Uncached(store, request[k], k)))
  {
    AgreesShape(cfg, cache, store);
    hide CacheAgrees, Probe, Install;
    ProbeServes(cfg, store, Probed(cache, request, []), keys);
    ProbeShape(cfg, Probed(cache, request, []), keys);
    var p := Probe(cfg, Probed(cache, request, []), keys).value;
    if p.missed != [] {
      InstallServes(cfg, store, p.cache, p.request, arrival);
    }
  }

  // ---------------------------------------------------------------- SetKeys

  // Whether memcached stores the value: compare-and-swap, add and set in turn.
  predicate Accepted(store: Store, kv: KeyValue) {
    if kv.Cas() > 0 then kv.Key() in store && store[kv.Key()].cas == kv.Cas()
    else if !kv.AllowReplace() then kv.Key() !in store
    else true
  }

  function Write(store: Store, kv: KeyValue, newCas: int): Store {
    if Accepted(store, kv) then store[kv.Key() := Item(kv.Val(), kv.Flags(), newCas)] else store
  }

  // The cache is written first, the store afterwards.
  function SetKey(cfg: Config, cache: Option<Buckets>, store: Store, kv: KeyValue, newCas: int)
    : (r: Option<(Option<Buckets>, Store)>)
    requires cache.Some? ==> |cache.value| == NUM_BUCKETS
    ensures r.Some? && r.value.0.Some? ==> |r.value.0.value| == NUM_BUCKETS
  {
    match CachePut(cfg, cache, kv.Key(), kv)
    case None => None
    case Some(cache') => Some((cache', if kv.NoPropagate() then store else Write(store, kv, newCas)))
  }

  /**
   A set keeps the cache in agreement with the store exactly when there is nothing to cache, or
   the store takes the value, or the store holds that value already.
   */
  lemma SetKeyAgreesIff(cfg: Config, cache: Option<Buckets>, store: Store, kv: KeyValue, newCas: int)
    requires CacheAgrees(cfg, cache, store)
    requires cache.Some? ==> |cache.value| == NUM_BUCKETS
    requires SetKey(cfg, cache, store, kv, newCas).Some?
    ensures var (cache', store') := SetKey(cfg, cache, store, kv, newCas).value;
      CacheAgrees(cfg, cache', store') <==>
        || cache.None?
        || kv.Val() == []
        || (!kv.NoPropagate() && Accepted(store, kv))
        || (kv.Key() in store && store[kv.Key()].val == kv.Val() && store[kv.Key()].flags == kv.Flags())
  {
    hide CacheAgrees, CachePut;
    var store' := if kv.NoPropagate() then store else Write(store, kv, newCas);
    CachePutAgrees(cfg, cache, store, kv.Key(), kv, store');
  }

  /** A cached key is answered from the cache: what the store holds for it does not matter. */
  lemma JustSetIsRead(cfg: Config, kv: KeyValue)
    requires kv.Val() != []
    ensures var cache' := CachePut(cfg, Some(EmptyCache()), kv.Key(), kv);
      && cache'.Some? && cache'.value.Some? && |cache'.value.value| == NUM_BUCKETS
      && var r := CacheGet(cfg, cache'.value, kv.Key());
         r.Some? && r.value.1 == Hit(kv.Val(), kv.Flags(), kv.Cas())
  {
    hide Used, Wrap64;
    var s := EmptyBucket;
    assert Trim(s, cfg.params) == s;
    assert AddOrReplace(s, cfg.params, kv.Key(), kv).Some?;
    PutThenGet(s, cfg.params, kv.Key(), kv);
  }

  /**
   An add that memcached refuses, or a set that is not propagated: the store keeps "old", the cache
   answers "new".
   */
  lemma RefusedSetShowsThrough(cfg: Config, kv: KeyValue, newCas: int)
    requires kv.Key() == [107] && kv.Val() == [110, 101, 119] && kv.Cas() == 0
    requires !kv.AllowReplace() || kv.NoPropagate()
    ensures var store := map[[107] := Item([111, 108, 100], 0, 1)];
      var r := SetKey(cfg, Some(EmptyCache()), store, kv, newCas);
      && r.Some?
      && r.value.1 == store
      && !CacheAgrees(cfg, r.value.0, store)
      && var got := CacheGet(cfg, r.value.0, [107]);
         got.Some? && got.value.1.Hit? && got.value.1.val == [110, 101, 119]
  {
    var store := map[[107] := Item([111, 108, 100], 0, 1)];
    hide CacheAgrees, CachePut, CacheGet, EmptyCache;
    JustSetIsRead(cfg, kv);
    EmptyCacheAgrees(cfg, store);
    AgreesShape(cfg, Some(EmptyCache()), store);
    SetKeyAgreesIff(cfg, Some(EmptyCache()), store, kv, newCas);
  }

  predicate Plain(kv: KeyValue) {
    !kv.NoPropagate() && kv.Cas() <= 0 && kv.AllowReplace()
  }

  function WriteAll(cfg: Config, cache: Option<Buckets>, store: Store, kvs: seq<KeyValue>, newCas: int)
    : (r: Option<(Option<Buckets>, Store)>)
    requires cache.Some? ==> |cache.value| == NUM_BUCKETS
    ensures r.Some? && r.value.0.Some? ==> |r.value.0.value| == NUM_BUCKETS
    decreases |kvs|
  {
    if kvs == [] then Some((cache, store))
    else
      match SetKey(cfg, cache, store, kvs[0], newCas)
      case None => None
      case Some((cache', store')) => WriteAll(cfg, cache', store', kvs[1..], newCas + 1)
  }

  // The effect of plain sets on the store alone.
  function Written(store: Store, kvs: seq<KeyValue>, newCas: int): Store
    decreases |kvs|
  {
    if kvs == [] then store
    else Written(store[kvs[0].Key() := Item(kvs[0].Val(), kvs[0].Flags(), newCas)], kvs[1..], newCas + 1)
  }

  lemma {:induction false} PlainSetsAgree(
    cfg: Config, cache: Option<Buckets>, store: Store, kvs: seq<KeyValue>, newCas: int)
    requires CacheAgrees(cfg, cache, store)
    requires cache.Some? ==> |cache.value| == NUM_BUCKETS
    requires forall kv :: kv in kvs ==> Plain(kv)
    requires WriteAll(cfg, cache, store, kvs, newCas).Some?
    ensures var (cache', store') := WriteAll(cfg, cache, store, kvs, newCas).value;
      CacheAgrees(cfg, cache', store') && store' == Written(store, kvs, newCas)
    decreases |kvs|
  {
    if kvs != [] {
      hide CacheAgrees, CachePut;
      assert Plain(kvs[0]);
      SetKeyAgreesIff(cfg, cache, store, kvs[0], newCas);
      var (cache', store') := SetKey(cfg, cache, store, kvs[0], newCas).value;
      PlainSetsAgree(cfg, cache', store', kvs[1..], newCas + 1);
    }
  }

  // ---------------------------------------------------------------- runs

  datatype ClientOp =
    | GetOp(request: Request, keys: seq<Bytes>, arrival: seq<Bytes>)
    | SetOp(kvs: seq<KeyValue>, newCas: int)

  predicate PlainOp(op: ClientOp) {
    match op
    case GetOp(request, keys, _) => Enumerates(keys, request)
    case SetOp(kvs, _) => forall kv :: kv in kvs ==> Plain(kv)
  }

  datatype Outcome = Outcome(cache: Option<Buckets>, store: Store, answers: seq<Request>)

  function RunClient(cfg: Config, o: Outcome, ops: seq<ClientOp>): (r: Option<Outcome>)
    requires o.cache.Some? ==> |o.cache.value| == NUM_BUCKETS
    requires forall op :: op in ops ==> PlainOp(op)
    ensures r.Some? && r.value.cache.Some? ==> |r.value.cache.value| == NUM_BUCKETS
    decreases |ops|
  {
    if ops == [] then Some(o)
    else
      assert PlainOp(ops[0]);
      match ops[0]
      case GetOp(request, keys, arrival) =>
        ReadKeepsKeys(cfg, o.cache, o.store, request, keys, arrival);
        (match ReadThrough(cfg, o.cache, o.store, request, keys, arrival)
         case None => None
         case Some((cache', request')) =>
           RunClient(cfg, Outcome(cache', o.store, o.answers + [request']), ops[1..]))
      case SetOp(kvs, newCas) =>
        (match WriteAll(cfg, o.cache, o.store, kvs, newCas)
         case None => None
         case Some((cache', store')) =>
           RunClient(cfg, Outcome(cache', store', o.answers), ops[1..]))
  }

  /** The same operations answered from the store alone. */
  function Reference(store: Store, ops: seq<ClientOp>): seq<Request>
    decreases |ops|
  {
    if ops == [] then []
    else
      match ops[0]
      case GetOp(request, _, _) =>
        [map k | k in request :: Uncached(store, request[k], k)] + Reference(store, ops[1..])
      case SetOp(kvs, newCas) => Reference(Written(store, kvs, newCas), ops[1..])
  }

  predicate SameAnswers(a: Request, b: Request) {
    a.Keys == b.Keys && forall k :: k in a ==> SameAnswer(a[k], b[k])
  }

  ghost predicate AllSame(a: seq<Request>, b: seq<Request>) {
    |a| == |b| && forall i :: 0 <= i < |a| ==> SameAnswers(a[i], b[i])
  }

  /**
   Every run of reads and plain sets, whatever it evicts: the cache agrees with the store at the
   end, and each read was answered with the values and flags the store alone would have given.
   */
  lemma {:induction false} CacheIsTransparent(cfg: Config, o: Outcome, ops: seq<ClientOp>)
    requires CacheAgrees(cfg, o.cache, o.store)
    requires o.cache.Some? ==> |o.cache.value| == NUM_BUCKETS
    requires forall op :: op in ops ==> PlainOp(op)
    requires RunClient(cfg, o, ops).Some?
    ensures var o' := RunClient(cfg, o, ops).value;
      && CacheAgrees(cfg, o'.cache, o'.store)
      && o.answers <= o'.answers
      && AllSame(o'.answers[|o.answers|..], Reference(o.store, ops))
    decreases |ops|
  {
    hide CacheAgrees, ReadThrough, WriteAll, SameAnswers, AllSame, Uncached, Written;
    if ops == [] {
      NothingSame(o.answers);
    } else {
      var op, rest := ops[0], ops[1..];
      assert PlainOp(op);
      match op
      case GetOp(request, keys, arrival) =>
        GetKeysTransparent(cfg, o.cache, o.store, request, keys, arrival);
        var (cache', request') := ReadThrough(cfg, o.cache, o.store, request, keys, arrival).value;
        AgreesShape(cfg, cache', o.store);
        var o1 := Outcome(cache', o.store, o.answers + [request']);
        CacheIsTransparent(cfg, o1, rest);
        var o' := RunClient(cfg, o1, rest).value;
        AnswerServed(o.store, request, request');
        AnswersCons(o.answers, request', o'.answers, Reference(o.store, ops));
      case SetOp(kvs, newCas) =>
        PlainSetsAgree(cfg, o.cache, o.store, kvs, newCas);
        var (cache', store') := WriteAll(cfg, o.cache, o.store, kvs, newCas).value;
        CacheIsTransparent(cfg, Outcome(cache', store', o.answers), rest);
    }
  }

  lemma NothingSame(answers: seq<Request>)
    ensures AllSame(answers[|answers|..], [])
  {
  }

  lemma AnswerServed(store: Store, request: Request, request': Request)
    requires request'.Keys == request.Keys
    requires forall k :: k in request ==> SameAnswer(request'[k], Uncached(store, request[k], k))
    ensures SameAnswers(request', map k | k in request :: Uncached(store, request[k], k))
  {
  }

  lemma AnswersCons(before: seq<Request>, answer: Request, after: seq<Request>, expected: seq<Request>)
    requires before + [answer] <= after && expected != [] && SameAnswers(answer, expected[0])
    requires AllSame(after[|before| + 1..], expected[1..])
    ensures before <= after && AllSame(after[|before|..], expected)
  {
    hide SameAnswers;
    forall i | 0 <= i < |expected|
      ensures SameAnswers(after[|before|..][i], expected[i])
    {
      if i > 0 {
        assert after[|before|..][i] == after[|before| + 1..][i - 1];
      } else {
        assert after[|before|] == (before + [answer])[|before|];
      }
    }
  }

  lemma EmptyCacheAgrees(cfg: Config, store: Store)
    ensures CacheAgrees(cfg, Some(EmptyCache()), store)
  {
  }

  lemma GetShape(cfg: Config, cache: Option<Buckets>, k: Bytes)
    requires cache.Some? ==> |cache.value| == NUM_BUCKETS
    ensures var r := CacheGet(cfg, cache, k);
      r.Some? && r.value.0.Some? ==> |r.value.0.value| == NUM_BUCKETS
  {
  }

  lemma PutShape(cfg: Config, cache: Option<Buckets>, k: Bytes, kv: KeyValue)
    requires cache.Some? ==> |cache.value| == NUM_BUCKETS
    ensures var r := CachePut(cfg, cache, k, kv);
      r.Some? && r.value.Some? ==> |r.value.value| == NUM_BUCKETS
  {
  }

  // ---------------------------------------------------------------- the client as an object

  /** A client with the cache it shares and the servers it talks to. */
  class Client {
    const cfg: Config
    var cache: Option<Buckets>
    var store: Store

    constructor (cfg: Config, cached: bool, store: Store)
      ensures this.cfg == cfg && this.store == store
      ensures cache == if cached then Some(EmptyCache()) else None
      ensures CacheAgrees(cfg, cache, store)
    {
      EmptyCacheAgrees(cfg, store);
      this.cfg := cfg;
      this.cache := if cached then Some(EmptyCache()) else None;
      this.store := store;
    }

    // The first loop of GetKeys: what the cache answers, and the keys to fetch.
    method ProbeCache(request: Request, keys: seq<Bytes>) returns (ok: bool, answers: Request, missed: seq<Bytes>)
      requires cache.Some? ==> |cache.value| == NUM_BUCKETS
      requires forall k :: k in keys ==> k in request
      modifies this`cache
      ensures ok == old(Probe(cfg, Probed(cache, request, []), keys)).Some?
      ensures ok ==> old(Probe(cfg, Probed(cache, request, []), keys)) == Some(Probed(cache, answers, missed))
    {
      hide CacheGet;
      answers, missed := request, [];
      var i := 0;
      while i < |keys|
        invariant 0 <= i <= |keys|
        invariant cache.Some? ==> |cache.value| == NUM_BUCKETS
        invariant answers.Keys == request.Keys
        invariant Probe(cfg, Probed(cache, answers, missed), keys[i..])
               == old(Probe(cfg, Probed(cache, request, []), keys))
      {
        var k := keys[i];
        assert keys[i..][0] == k && keys[i..][1..] == keys[i + 1..];
        GetShape(cfg, cache, k);
        match CacheGet(cfg, cache, k) {
          case None => return false, answers, missed;
          case Some((cache', answer)) =>
            cache := cache';
            if answer.Hit? {
              answers := answers[k := FromCache(answers[k], answer)];
            } else {
              missed := missed + [k];
            }
        }
        i := i + 1;
      }
      ok := true;
    }

    // The second loop of GetKeys: results as they arrive.
    method InstallResults(request: Request, arrival: seq<Bytes>) returns (ok: bool, answers: Request)
      requires cache.Some? ==> |cache.value| == NUM_BUCKETS
      requires forall k :: k in arrival ==> k in request && k in store
      modifies this`cache
      ensures ok == old(Install(cfg, cache, store, request, arrival)).Some?
      ensures ok ==> old(Install(cfg, cache, store, request, arrival)) == Some((cache, answers))
    {
      hide CachePut;
      answers := request;
      var i := 0;
      while i < |arrival|
        invariant 0 <= i <= |arrival|
        invariant cache.Some? ==> |cache.value| == NUM_BUCKETS
        invariant answers.Keys == request.Keys
        invariant Install(cfg, cache, store, answers, arrival[i..]) == old(Install(cfg, cache, store, request, arrival))
      {
        var k := arrival[i];
        assert arrival[i..][0] == k && arrival[i..][1..] == arrival[i + 1..];
        PutShape(cfg, cache, k, FromStore(answers[k], store[k]));
        answers := answers[k := FromStore(answers[k], store[k])];
        match CachePut(cfg, cache, k, answers[k]) {
          case None => return false, answers;
          case Some(cache') => cache := cache';
        }
        i := i + 1;
      }
      ok := true;
    }

    // `keys` is the iteration order of the request, `arrival` the order in which results come in.
    method GetKeys(request: Request, keys: seq<Bytes>, arrival: seq<Bytes>) returns (ok: bool, answers: Request)
      requires cache.Some? ==> |cache.value| == NUM_BUCKETS
      requires Enumerates(keys, request)
      requires var p := Probe(cfg, Probed(cache, request, []), keys);
        p.Some? ==> ValidArrival(store, p.value.missed, arrival)
      modifies this`cache
      ensures ok == old(ReadThrough(cfg, cache, store, request, keys, arrival)).Some?
      ensures ok ==> old(ReadThrough(cfg, cache, store, request, keys, arrival)) == Some((cache, answers))
    {
      hide Probe, Install;
      ProbeShape(cfg, Probed(cache, request, []), keys);
      var missed;
      ok, answers, missed := ProbeCache(request, keys);
      if ok && missed != [] {
        ok, answers := InstallResults(answers, arrival);
      }
    }

    method SetKeys(kvs: seq<KeyValue>, newCas: int) returns (ok: bool)
      requires cache.Some? ==> |cache.value| == NUM_BUCKETS
      modifies this
      ensures ok == old(WriteAll(cfg, cache, store, kvs, newCas)).Some?
      ensures ok ==> (cache, store) == old(WriteAll(cfg, cache, store, kvs, newCas)).value
    {
      var i := 0;
      while i < |kvs|
        invariant 0 <= i <= |kvs|
        invariant cache.Some? ==> |cache.value| == NUM_BUCKETS
        invariant WriteAll(cfg, cache, store, kvs[i..], newCas + i)
               == old(WriteAll(cfg, cache, store, kvs, newCas))
      {
        var kv := kvs[i];
        assert kvs[i..][0] == kv && kvs[i..][1..] == kvs[i + 1..];
        match CachePut(cfg, cache, kv.Key(), kv) {
          case None => return false;
          case Some(cache') => cache := cache';
        }
        if !kv.NoPropagate() {
          store := Write(store, kv, newCas + i);
        }
        i := i + 1;
      }
      ok := true;
    }
  }
}
