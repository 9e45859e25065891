/** When memcached takes a write of the router's client, told from the fields of the entry. */
module MemWrites {
  import opened Wire
  import opened Messages
  import opened MemClient

  // The item an entry becomes when it is stored.
  function ItemOf(kv: KeyValue, number: int): Item {
    Item(kv.val.GetOr([]), kv.flags.GetOr(0), number)
  }

  predicate IsSwap(kv: KeyValue) {
    kv.cas.GetOr(0) > 0 && kv.noPropagate != Some(true)
  }

  predicate IsAdd(kv: KeyValue) {
    kv.cas.GetOr(0) <= 0 && kv.allowReplace == Some(false) && kv.noPropagate != Some(true)
  }

  predicate IsPlain(kv: KeyValue) {
    kv.cas.GetOr(0) <= 0 && kv.allowReplace != Some(false) && kv.noPropagate != Some(true)
  }

  // The store holds `k` under the number `c`.
  predicate Under(store: Store, k: Bytes, c: int) {
    k in store && store[k].cas == c
  }

  // All numbers given out so far are below n.
  predicate Below(store: Store, n: int) {
    forall k :: k in store ==> store[k].cas < n
  }

  // ---------------------------------------------------------------- one write

  function SetStore(store: Store, kv: KeyValue, number: int): Store {
    if kv.NoPropagate() then store else Write(store, kv, number)
  }

  lemma SetKeyStore(cfg: Config, cache: Option<Buckets>, store: Store, kv: KeyValue, number: int)
    requires cache.Some? ==> |cache.value| == NUM_BUCKETS
    requires SetKey(cfg, cache, store, kv, number).Some?
    ensures SetKey(cfg, cache, store, kv, number).value.1 == SetStore(store, kv, number)
  {
    hide CachePut, Write;
  }

  /**
   What one set does to the store, whatever the cache: a compare-and-swap is taken exactly when the
   store holds the key under that number, an add exactly when it does not hold the key, any other
   set always, and a set that is not propagated never; nothing but the key changes.
   */
  lemma SetTakenIff(cfg: Config, cache: Option<Buckets>, store: Store, kv: KeyValue, number: int)
    requires cache.Some? ==> |cache.value| == NUM_BUCKETS
    requires SetKey(cfg, cache, store, kv, number).Some?
    ensures var k, store' := kv.key.GetOr([]), SetKey(cfg, cache, store, kv, number).value.1;
      && (IsSwap(kv) ==>
            store' == if Under(store, k, kv.cas.value) then store[k := ItemOf(kv, number)] else store)
      && (IsAdd(kv) ==> store' == if k !in store then store[k := ItemOf(kv, number)] else store)
      && (IsPlain(kv) ==> store' == store[k := ItemOf(kv, number)])
      && (kv.noPropagate == Some(true) ==> store' == store)
  {
    SetKeyStore(cfg, cache, store, kv, number);
    hide SetKey;
  }

  /** With a fresh number the store changes exactly when the set is taken. */
  lemma FreshNumberShows(store: Store, kv: KeyValue, number: int)
    requires Below(store, number)
    ensures var k := kv.key.GetOr([]);
      SetStore(store, kv, number) != store <==>
        IsPlain(kv) || (IsSwap(kv) && Under(store, k, kv.cas.value)) || (IsAdd(kv) && k !in store)
  {
    var k := kv.key.GetOr([]);
    if Accepted(store, kv) && !kv.NoPropagate() {
      assert SetStore(store, kv, number)[k].cas == number;
    }
  }

  // ---------------------------------------------------------------- a run of writes

  // The store after these sets, numbered from n on.
  function Stored(store: Store, kvs: seq<KeyValue>, n: int): Store {
    if kvs == [] then store
    else SetStore(Stored(store, kvs[..|kvs| - 1], n), kvs[|kvs| - 1], n + |kvs| - 1)
  }

  lemma {:induction false} StoredFront(store: Store, kvs: seq<KeyValue>, n: int)
    requires kvs != []
    ensures Stored(store, kvs, n) == Stored(SetStore(store, kvs[0], n), kvs[1..], n + 1)
    decreases |kvs|
  {
    hide SetStore;
    var most := kvs[..|kvs| - 1];
    if most == [] {
      assert kvs[1..] == most;
    } else {
      StoredFront(store, most, n);
      assert kvs[1..][..|kvs| - 2] == most[1..];
    }
  }

  /** What the set loop of the client does to the store does not depend on the cache. */
  lemma {:induction false} WriteAllStores(cfg: Config, cache: Option<Buckets>, store: Store, kvs: seq<KeyValue>, n: int)
    requires cache.Some? ==> |cache.value| == NUM_BUCKETS
    requires WriteAll(cfg, cache, store, kvs, n).Some?
    ensures WriteAll(cfg, cache, store, kvs, n).value.1 == Stored(store, kvs, n)
    decreases |kvs|
  {
    if kvs != [] {
      SetKeyStore(cfg, cache, store, kvs[0], n);
      hide SetKey, SetStore;
      var (cache', store') := SetKey(cfg, cache, store, kvs[0], n).value;
      WriteAllStores(cfg, cache', store', kvs[1..], n + 1);
      StoredFront(store, kvs, n);
    }
  }

  lemma {:induction false} NumbersGrow(store: Store, kvs: seq<KeyValue>, n: int)
    requires Below(store, n)
    ensures Below(Stored(store, kvs, n), n + |kvs|)
    decreases |kvs|
  {
    if kvs != [] {
      NumbersGrow(store, kvs[..|kvs| - 1], n);
    }
  }

  // A number that is out of use never comes back.
  lemma {:induction false} NeverAgain(store: Store, kvs: seq<KeyValue>, n: int, k: Bytes, c: int)
    requires !Under(store, k, c) && c < n
    ensures !Under(Stored(store, kvs, n), k, c)
    decreases |kvs|
  {
    if kvs != [] {
      NeverAgain(store, kvs[..|kvs| - 1], n, k, c);
    }
  }

  predicate SwapOf(kv: KeyValue, k: Bytes, c: int) {
    IsSwap(kv) && kv.key.GetOr([]) == k && kv.cas.value == c
  }

  lemma SwapStep(store: Store, kv: KeyValue, n: int, k: Bytes, c: int)
    requires SwapOf(kv, k, c)
    ensures SetStore(store, kv, n) == if Under(store, k, c) then store[k := ItemOf(kv, n)] else store
  {
  }

  lemma {:induction false} StoredSplit(store: Store, kvs: seq<KeyValue>, m: nat, n: int)
    requires m <= |kvs|
    ensures Stored(store, kvs, n) == Stored(Stored(store, kvs[..m], n), kvs[m..], n + m)
    decreases |kvs|
  {
    hide SetStore;
    if m == |kvs| {
      assert kvs[..m] == kvs;
    } else {
      var most := kvs[..|kvs| - 1];
      StoredSplit(store, most, m, n);
      assert most[..m] == kvs[..m] && kvs[m..][..|kvs| - m - 1] == most[m..];
    }
  }

  lemma StoredNext(store: Store, kvs: seq<KeyValue>, i: nat, n: int)
    requires i < |kvs|
    ensures Stored(store, kvs[..i + 1], n) == SetStore(Stored(store, kvs[..i], n), kvs[i], n + i)
  {
    assert kvs[..i + 1][..i] == kvs[..i];
  }

  /**
   Of two compare-and-swaps of a key with the same number the second is refused if the first was
   taken, whatever other sets come before, between and after.
   */
  lemma SecondSwapRefused(store: Store, kvs: seq<KeyValue>, n: int, i: nat, j: nat, k: Bytes, c: int)
    requires i < j < |kvs| && SwapOf(kvs[i], k, c) && SwapOf(kvs[j], k, c) && c < n
    ensures Under(Stored(store, kvs[..i], n), k, c) ==> Stored(store, kvs[..j + 1], n) == Stored(store, kvs[..j], n)
  {
    hide Stored, SetStore, IsSwap;
    var before := Stored(store, kvs[..i], n);
    StoredNext(store, kvs, i, n);
    SwapStep(before, kvs[i], n + i, k, c);
    StoredSplit(store, kvs[..j], i + 1, n);
    assert kvs[..j][..i + 1] == kvs[..i + 1];
    if Under(before, k, c) {
      NeverAgain(Stored(store, kvs[..i + 1], n), kvs[..j][i + 1..], n + i + 1, k, c);
    }
    StoredNext(store, kvs, j, n);
    SwapStep(Stored(store, kvs[..j], n), kvs[j], n + j, k, c);
  }

  /**
   Exactly one of two is taken: if the store holds the key under the number they name, the first
   one writes its value and the second changes nothing, whatever sets come between them.
   */
  lemma ExactlyOneSwap(
    cfg: Config, cache: Option<Buckets>, store: Store, first: KeyValue, between: seq<KeyValue>, second: KeyValue,
    n: int, k: Bytes, c: int)
    requires cache.Some? ==> |cache.value| == NUM_BUCKETS
    requires SwapOf(first, k, c) && SwapOf(second, k, c) && Under(store, k, c) && c < n
    requires WriteAll(cfg, cache, store, [first] + between + [second], n).Some?
    ensures Stored(store, [first], n) == store[k := ItemOf(first, n)]
    ensures WriteAll(cfg, cache, store, [first] + between + [second], n).value.1 == Stored(store, [first] + between, n)
  {
    hide Stored, SetStore, IsSwap, WriteAll;
    var kvs := [first] + between + [second];
    var m := |between| + 1;
    WriteAllStores(cfg, cache, store, kvs, n);
    NothingStored(store, kvs, n);
    SecondSwapRefused(store, kvs, n, 0, m, k, c);
    assert kvs[..m + 1] == kvs && kvs[..m] == [first] + between;
    StoredNext(store, kvs, 0, n);
    SwapStep(store, first, n, k, c);
    assert kvs[..1] == [first];
  }

  lemma NothingStored(store: Store, kvs: seq<KeyValue>, n: int)
    ensures Stored(store, kvs[..0], n) == store
  {
  }

  /** The store holds a key under 7: a swap that names 5 is refused, one that names 7 is taken. */
  lemma StaleSwapRefused(cfg: Config, number: int)
    ensures var store := map[[107] := Item([111], 0, 7)];
      var stale := EmptyKv.(key := Some([107]), val := Some([110]), cas := Some(5));
      var right := EmptyKv.(key := Some([107]), val := Some([110]), cas := Some(7));
      && SetKey(cfg, None, store, stale, number) == Some((None, store))
      && SetKey(cfg, None, store, right, number) == Some((None, map[[107] := Item([110], 0, number)]))
  {
    var store := map[[107] := Item([111], 0, 7)];
    assert store[[107] := Item([110], 0, number)] == map[[107] := Item([110], 0, number)];
  }
}
