/**
 How a worker serves a batch of GET packets: each distinct key is fetched once and its answer is
 merged into every slot that asked for it.
 */
module Batch {
  import opened Wire
  import opened Messages
  import opened MemClient

  // One empty entry per distinct key of the packets.
  function Wanted(packets: seq<Instruction>): Request {
    map k | k in AllKeys(packets) :: EmptyKv
  }

  function AllKeys(packets: seq<Instruction>): set<Bytes> {
    set i, j | 0 <= i < |packets| && 0 <= j < |packets[i].getKeys| :: packets[i].getKeys[j].Key()
  }

  predicate Covers(answers: Request, packet: Instruction) {
    forall j :: 0 <= j < |packet.getKeys| ==> packet.getKeys[j].Key() in answers
  }

  // Every slot takes over what is present in the answer for its key.
  function Answered(packet: Instruction, answers: Request): Instruction
    requires Covers(answers, packet)
  {
    packet.(getKeys := seq(|packet.getKeys|, j requires 0 <= j < |packet.getKeys| =>
      MergeKv(packet.getKeys[j], answers[packet.getKeys[j].Key()])))
  }

  /** The key map the worker builds from its batch. */
  method CollectKeys(packets: seq<Instruction>) returns (wanted: Request)
    ensures wanted == Wanted(packets)
  {
    wanted := map[];
    var i := 0;
    while i < |packets|
      invariant 0 <= i <= |packets|
      invariant wanted == Wanted(packets[..i])
    {
      var j := 0;
      var keys := packets[i].getKeys;
      while j < |keys|
        invariant 0 <= j <= |keys|
        invariant wanted.Keys == AllKeys(packets[..i]) + set x | 0 <= x < j :: keys[x].Key()
        invariant forall k :: k in wanted ==> wanted[k] == EmptyKv
      {
        if keys[j].Key() !in wanted {
          wanted := wanted[keys[j].Key() := EmptyKv];
        }
        j := j + 1;
      }
      KeysOfNext(packets, i);
      i := i + 1;
    }
    assert packets[..i] == packets;
  }

  lemma KeysOfNext(packets: seq<Instruction>, i: nat)
    requires i < |packets|
    ensures AllKeys(packets[..i + 1]) ==
      AllKeys(packets[..i]) + set x | 0 <= x < |packets[i].getKeys| :: packets[i].getKeys[x].Key()
  {
    var now, next := packets[..i], packets[..i + 1];
    assert forall n :: 0 <= n < i ==> now[n] == next[n];
    assert next[i] == packets[i];
  }

  /** The fan-out: slot by slot, in place. */
  method FanOut(packet: Instruction, answers: Request) returns (answered: Instruction)
    requires Covers(answers, packet)
    ensures answered == Answered(packet, answers)
  {
    answered := packet;
    var j := 0;
    while j < |packet.getKeys|
      invariant 0 <= j <= |packet.getKeys|
      invariant answered == packet.(getKeys := Answered(packet, answers).getKeys[..j] + packet.getKeys[j..])
    {
      var kv := answered.getKeys[j];
      answered := answered.(getKeys := answered.getKeys[j := MergeKv(kv, answers[kv.Key()])]);
      j := j + 1;
    }
  }

  /**
   A packet served in a batch and the same packet served alone, through any caches that agree with
   the store, get the same value and flags in every slot, repeated and missing keys included.
   */
  lemma BatchServesLikeAlone(
    cfg: Config, store: Store, packets: seq<Instruction>, i: nat,
    cache: Option<Buckets>, keys: seq<Bytes>, arrival: seq<Bytes>,
    cache1: Option<Buckets>, keys1: seq<Bytes>, arrival1: seq<Bytes>)
    requires i < |packets|
    requires CacheAgrees(cfg, cache, store) && CacheAgrees(cfg, cache1, store)
    requires Enumerates(keys, Wanted(packets)) && Enumerates(keys1, Wanted([packets[i]]))
    requires cache.Some? ==> |cache.value| == NUM_BUCKETS
    requires cache1.Some? ==> |cache1.value| == NUM_BUCKETS
    requires ReadThrough(cfg, cache, store, Wanted(packets), keys, arrival).Some?
    requires ReadThrough(cfg, cache1, store, Wanted([packets[i]]), keys1, arrival1).Some?
    ensures var (_, batch) := ReadThrough(cfg, cache, store, Wanted(packets), keys, arrival).value;
      var (_, alone) := ReadThrough(cfg, cache1, store, Wanted([packets[i]]), keys1, arrival1).value;
      && Covers(batch, packets[i]) && Covers(alone, packets[i])
      && (forall j :: 0 <= j < |packets[i].getKeys| ==>
            SameAnswer(Answered(packets[i], batch).getKeys[j], Answered(packets[i], alone).getKeys[j]))
  {
    hide CacheAgrees, ReadThrough;
    GetKeysTransparent(cfg, cache, store, Wanted(packets), keys, arrival);
    GetKeysTransparent(cfg, cache1, store, Wanted([packets[i]]), keys1, arrival1);
    forall j | 0 <= j < |packets[i].getKeys|
      ensures packets[i].getKeys[j].Key() in Wanted(packets)
      ensures packets[i].getKeys[j].Key() in Wanted([packets[i]])
    {
      assert [packets[i]][0] == packets[i];
    }
  }
}
