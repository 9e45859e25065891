/**
 The router over one cache and one store: runs in which the calls into the client do not overlap, as
 with a single worker, so that each of them finds what the one before left behind.
 */
module RouterCoherence {
  import opened Wire
  import opened Messages
  import opened WorkQueue
  import opened Router
  import opened RouterLocking
  import opened RouterAccounting
  import opened RouterReplies
  import opened MemClient
  import opened Seqs
  import Batch

  datatype Memory = Memory(cache: Option<Buckets>, store: Store) {
    predicate Shaped() {
      cache.Some? ==> |cache.value| == NUM_BUCKETS
    }
  }

  predicate AllPlain(kvs: seq<KeyValue>) {
    forall kv :: kv in kvs ==> Plain(kv)
  }

  // The read for a batch, from what is there.
  ghost function AfterFetch(cfg: Config, m: Memory, f: Fetched): (r: Option<Memory>)
    requires m.Shaped()
    ensures r.Some? ==> r.value.Shaped()
  {
    if f.cfg != cfg || f.cache != m.cache || f.store != m.store || !GoodFetch(f) then None
    else
      var wanted := Batch.Wanted(Instructions(f.batch));
      ReadKeepsKeys(cfg, m.cache, m.store, wanted, f.keys, f.arrival);
      Some(Memory(ReadThrough(cfg, m.cache, m.store, wanted, f.keys, f.arrival).value.0, m.store))
  }

  // A SET of plain entries.
  function AfterSet(cfg: Config, m: Memory, kvs: seq<KeyValue>, newCas: int): (r: Option<Memory>)
    requires m.Shaped()
    ensures r.Some? ==> r.value.Shaped()
  {
    if !AllPlain(kvs) then None
    else
      match WriteAll(cfg, m.cache, m.store, kvs, newCas)
      case None => None
      case Some((cache', store')) => Some(Memory(cache', store'))
  }

  // None: an increment, a set that is not plain, a second server list, or a read of something else.
  ghost function After(cfg: Config, m: Memory, cas: nat -> int, s: State, a: Action): (r: Option<Memory>)
    requires m.Shaped()
    ensures r.Some? ==> r.value.Shaped()
  {
    match a
    case Fetch(_, f) => AfterFetch(cfg, m, f)
    case Serve(w, _) =>
      if w < |s.workers| && s.workers[w].Serving? && s.workers[w].batch != [] && s.workers[w].batch[0].GetType() == SET
      then AfterSet(cfg, m, s.workers[w].batch[0].instruction.setKeys, cas(|s.applied|))
      else None
    case Restart(_, _) => if s.serverList.Some? then None else Some(m)
    case _ => Some(m)
  }

  /** What cache and store have become at the end of the run; memcached numbers its items by `cas`. */
  ghost function Track(cfg: Config, start: Memory, cas: nat -> int, actions: seq<Action>): (r: Option<Memory>)
    requires start.Shaped()
    ensures r.Some? ==> r.value.Shaped()
    decreases |actions|
  {
    if actions == [] then Some(start)
    else
      var before := actions[..|actions| - 1];
      match Track(cfg, start, cas, before)
      case None => None
      case Some(m) =>
        if Run(before).None? then None else After(cfg, m, cas, Run(before).value, actions[|actions| - 1])
  }

  /** The store once these SETs have been applied, as a map written in their order. */
  function StoreAfter(store: Store, cas: nat -> int, applied: seq<Packet>): Store {
    if applied == [] then store
    else
      var n := |applied| - 1;
      Written(StoreAfter(store, cas, applied[..n]), applied[n].instruction.setKeys, cas(n))
  }

  // ---------------------------------------------------------------- the invariant

  /** The cache agrees with the store, which holds what the SETs applied have left in it. */
  ghost predicate Coherent(cfg: Config, store: Store, cas: nat -> int, s: State, m: Memory) {
    CacheAgrees(cfg, m.cache, m.store) && m.store == StoreAfter(store, cas, s.applied)
  }

  lemma FetchCoherent(cfg: Config, store: Store, cas: nat -> int, s: State, m: Memory, w: nat, f: Fetched)
    requires m.Shaped() && Coherent(cfg, store, cas, s, m) && w < |s.workers| && DoFetch(s, w, f).Some?
    requires AfterFetch(cfg, m, f).Some?
    ensures Coherent(cfg, store, cas, DoFetch(s, w, f).value, AfterFetch(cfg, m, f).value)
  {
    hide StoreAfter, CacheAgrees, ReadThrough;
    GetKeysTransparent(cfg, m.cache, m.store, Batch.Wanted(Instructions(f.batch)), f.keys, f.arrival);
  }

  lemma SetCoherent(cfg: Config, store: Store, cas: nat -> int, s: State, m: Memory, p: Packet, s': State)
    requires m.Shaped() && Coherent(cfg, store, cas, s, m) && s'.applied == s.applied + [p]
    requires AfterSet(cfg, m, p.instruction.setKeys, cas(|s.applied|)).Some?
    ensures Coherent(cfg, store, cas, s', AfterSet(cfg, m, p.instruction.setKeys, cas(|s.applied|)).value)
  {
    hide CacheAgrees, WriteAll, Plain;
    PlainSetsAgree(cfg, m.cache, m.store, p.instruction.setKeys, cas(|s.applied|));
    assert s'.applied[..|s.applied|] == s.applied;
  }

  lemma ReceiptLeavesMemory(s: State, a: Action)
    requires (a.ReceiveRouter? || a.ReceiveAsync?) && Next(s, a).Some?
    ensures Next(s, a).value.applied == s.applied && Next(s, a).value.fetches == s.fetches
  {
    hide Matching, Decodes, Push;
    var p := Arrived(s, a.ReceiveAsync?, a.frames, a.instruction);
    var s1 := Log(s, p, a.frames);
    var s2 := s1.(direct := s.direct + [Reply(p, [], None)]);
    if Push(s1, p, a.wake).Some? { PushFrame(s1, p, a.wake); }
    if Push(s2, p, a.wake).Some? { PushFrame(s2, p, a.wake); }
  }

  lemma AnswerLeavesMemory(s: State, w: nat, payload: Bytes)
    requires w < |s.workers| && DoAnswer(s, w, payload).Some?
    ensures var s' := DoAnswer(s, w, payload).value; s'.applied == s.applied && s'.fetches == s.fetches
  {
    hide Encodes, Batch.Covers, Batch.Answered;
  }

  // Other steps neither fetch nor apply.
  lemma OthersLeaveMemory(s: State, a: Action)
    requires Next(s, a).Some? && !a.Serve? && !a.Fetch?
    ensures Next(s, a).value.applied == s.applied && Next(s, a).value.fetches == s.fetches
  {
    hide NotifyOne, BatchSize, DoReceiveRouter, DoReceiveAsync, DoServe, DoFetch, DoAnswer;
    match a
    case ReceiveRouter(_, _, _, _) => ReceiptLeavesMemory(s, a);
    case ReceiveAsync(_, _, _) => ReceiptLeavesMemory(s, a);
    case Answer(w, payload) => AnswerLeavesMemory(s, w, payload);
    case _ =>
  }

  lemma ServeApplies(s: State, w: nat, payload: Bytes)
    requires w < |s.workers| && DoServe(s, w, payload).Some? && s.workers[w].batch[0].GetType() == SET
    ensures DoServe(s, w, payload).value.applied == s.applied + [s.workers[w].batch[0]]
    ensures DoServe(s, w, payload).value.fetches == s.fetches
  {
  }

  lemma NextCoherent(cfg: Config, store: Store, cas: nat -> int, s: State, m: Memory, a: Action)
    requires m.Shaped() && Coherent(cfg, store, cas, s, m) && Next(s, a).Some? && After(cfg, m, cas, s, a).Some?
    ensures Coherent(cfg, store, cas, Next(s, a).value, After(cfg, m, cas, s, a).value)
  {
    if a.Fetch? {
      hide DoFetch, AfterFetch, Coherent;
      FetchCoherent(cfg, store, cas, s, m, a.w, a.fetched);
    } else if a.Serve? {
      hide DoServe, AfterSet, Coherent;
      ServeApplies(s, a.w, a.payload);
      SetCoherent(cfg, store, cas, s, m, s.workers[a.w].batch[0], Next(s, a).value);
    } else {
      hide Next, CacheAgrees, StoreAfter;
      OthersLeaveMemory(s, a);
    }
  }

  lemma {:induction false} RunCoherent(cfg: Config, start: Memory, cas: nat -> int, actions: seq<Action>)
    requires start.Shaped() && CacheAgrees(cfg, start.cache, start.store)
    requires Run(actions).Some? && Track(cfg, start, cas, actions).Some?
    ensures Coherent(cfg, start.store, cas, Run(actions).value, Track(cfg, start, cas, actions).value)
    decreases |actions|
  {
    if actions != [] {
      hide Next, After, Coherent, CacheAgrees;
      var before := actions[..|actions| - 1];
      RunCoherent(cfg, start, cas, before);
      var s, m := Run(before).value, Track(cfg, start, cas, before).value;
      NextCoherent(cfg, start.store, cas, s, m, actions[|actions| - 1]);
    }
  }

  // ---------------------------------------------------------------- the moment of a fetch

  // Step n of the run is this fetch.
  ghost predicate FetchedAt(actions: seq<Action>, n: nat, f: Fetched) {
    n < |actions| && actions[n].Fetch? && actions[n].fetched == f && Run(actions[..n]).Some?
  }

  lemma FetchStep(s: State, w: nat, f: Fetched)
    requires w < |s.workers| && DoFetch(s, w, f).Some?
    ensures DoFetch(s, w, f).value.fetches == s.fetches + [f] && DoFetch(s, w, f).value.applied == s.applied
    ensures s.workers[w].Serving? && s.workers[w].batch == f.batch && AllGets(f.batch)
  {
    hide GoodFetch, AllGets;
  }

  lemma ServeStepGrows(s: State, w: nat, payload: Bytes)
    requires w < |s.workers| && DoServe(s, w, payload).Some?
    ensures s.applied <= DoServe(s, w, payload).value.applied && DoServe(s, w, payload).value.fetches == s.fetches
  {
  }

  lemma HistoryGrows(s: State, a: Action)
    requires Next(s, a).Some?
    ensures s.applied <= Next(s, a).value.applied
    ensures Next(s, a).value.fetches == if a.Fetch? then s.fetches + [a.fetched] else s.fetches
  {
    hide DoServe, DoFetch;
    if a.Fetch? {
      FetchStep(s, a.w, a.fetched);
    } else if a.Serve? {
      ServeStepGrows(s, a.w, a.payload);
    } else {
      OthersLeaveMemory(s, a);
    }
  }

  /** Every fetch on record was a step of the run, and nothing applied before it was ever taken back. */
  lemma {:induction false} FetchMoment(actions: seq<Action>, f: Fetched) returns (n: nat)
    requires Run(actions).Some? && f in Run(actions).value.fetches
    ensures FetchedAt(actions, n, f)
    ensures Run(actions[..n]).value.applied <= Run(actions).value.applied
    decreases |actions|
  {
    hide Next;
    var before, a := actions[..|actions| - 1], actions[|actions| - 1];
    var s := Run(before).value;
    HistoryGrows(s, a);
    if f in s.fetches {
      n := FetchMoment(before, f);
      assert before[..n] == actions[..n];
    } else {
      n := |actions| - 1;
    }
  }

  lemma {:induction false} TrackedPrefix(cfg: Config, start: Memory, cas: nat -> int, actions: seq<Action>, n: nat)
    requires start.Shaped() && Track(cfg, start, cas, actions).Some? && n <= |actions|
    ensures Track(cfg, start, cas, actions[..n]).Some?
    decreases |actions|
  {
    if n < |actions| {
      hide After, Run;
      var before := actions[..|actions| - 1];
      TrackedPrefix(cfg, start, cas, before, n);
      assert before[..n] == actions[..n];
    } else {
      assert actions[..n] == actions;
    }
  }

  // A tracked fetch read the memory as it was.
  lemma TrackedFetch(cfg: Config, start: Memory, cas: nat -> int, actions: seq<Action>, n: nat, f: Fetched)
    requires start.Shaped() && Track(cfg, start, cas, actions).Some? && FetchedAt(actions, n, f)
    ensures Track(cfg, start, cas, actions[..n]).Some?
    ensures var m := Track(cfg, start, cas, actions[..n]).value;
      f.cfg == cfg && f.cache == m.cache && f.store == m.store
  {
    hide Run, GoodFetch;
    TrackedPrefix(cfg, start, cas, actions, n);
    TrackedPrefix(cfg, start, cas, actions, n + 1);
    assert actions[..n + 1][..n] == actions[..n];
  }

  /** It read, through an agreeing cache, what the SETs applied up to then had left in the store. */
  lemma FetchReads(cfg: Config, start: Memory, cas: nat -> int, actions: seq<Action>, n: nat, f: Fetched)
    requires start.Shaped() && CacheAgrees(cfg, start.cache, start.store)
    requires Track(cfg, start, cas, actions).Some? && FetchedAt(actions, n, f)
    ensures CacheAgrees(f.cfg, f.cache, f.store)
    ensures f.store == StoreAfter(start.store, cas, Run(actions[..n]).value.applied)
  {
    hide Run, Track, CacheAgrees, StoreAfter;
    TrackedFetch(cfg, start, cas, actions, n, f);
    RunCoherent(cfg, start, cas, actions[..n]);
  }

  // ---------------------------------------------------------------- replies

  // The cache as the router starts: empty, or none.
  function Fresh(cached: bool, store: Store): (m: Memory)
    ensures m.Shaped()
  {
    Memory(if cached then Some(EmptyCache()) else None, store)
  }

  lemma FreshAgrees(cfg: Config, cached: bool, store: Store)
    ensures CacheAgrees(cfg, Fresh(cached, store).cache, store)
  {
    if cached {
      EmptyCacheAgrees(cfg, store);
    }
  }

  /** The reply carries its request answered with what this fetch found. */
  ghost predicate CarriesAnswer(r: Response, f: Fetched) {
    && r.origin in f.batch && Batch.Covers(f.answers, r.origin.instruction) && r.frames != []
    && var answer := Batch.Answered(r.origin.instruction, f.answers);
       Sendable(answer) ==> ParseInstruction(r.frames[|r.frames| - 1]) == Parsed(answer)
  }

  /**
   In every run of GETs and plain SETs whose client calls do not overlap, started with an empty cache
   or none: the reply to a GET carries the answers of one fetch, a step n of the run made for a batch
   the GET was in, and they hold in every slot the value and flags that the SETs applied up to step n
   had left in the store, whatever was cached and evicted.
   */
  lemma RepliesAreCoherent(
    cfg: Config, cached: bool, store: Store, cas: nat -> int, actions: seq<Action>, r: Response)
    returns (n: nat, f: Fetched)
    requires Run(actions).Some? && Track(cfg, Fresh(cached, store), cas, actions).Some?
    requires r in Run(actions).value.pipe || r in Run(actions).value.forwarded
    requires r.origin.instruction.getKeys != []
    ensures FetchedAt(actions, n, f) && Run(actions[..n]).value.applied <= Run(actions).value.applied
    ensures f in Run(actions).value.fetches && CarriesAnswer(r, f)
    ensures AnswersFrom(
      StoreAfter(store, cas, Run(actions[..n]).value.applied),
      r.origin.instruction, Batch.Answered(r.origin.instruction, f.answers))
  {
    hide Run, Track, CacheAgrees, AnswersFrom, StoreAfter, GoodFetch, Batch.Answered;
    hide ParseInstruction, ValidInstruction, SerializeInstruction;
    f := GetRepliesFromStore(actions, r);
    n := FetchMoment(actions, f);
    FreshAgrees(cfg, cached, store);
    FetchReads(cfg, Fresh(cached, store), cas, actions, n, f);
  }

  // ---------------------------------------------------------------- one worker

  // Told from the fields: it sets keys and asks for none.
  predicate IsSet(ask: Instruction) {
    ask.getKeys == [] && ask.setKeys != []
  }

  function Sets(ps: seq<Packet>): seq<Packet> {
    if ps == [] then []
    else Sets(ps[..|ps| - 1]) + if IsSet(ps[|ps| - 1].instruction) then [ps[|ps| - 1]] else []
  }

  lemma SetsNext(ps: seq<Packet>, p: Packet)
    ensures Sets(ps + [p]) == if IsSet(p.instruction) then Sets(ps) + [p] else Sets(ps)
  {
    assert (ps + [p])[..|ps|] == ps;
  }

  predicate OneWorker(a: Action) {
    a.Restart? ==> a.numThreads <= 1
  }

  predicate OneWorkerOnly(actions: seq<Action>) {
    forall i :: 0 <= i < |actions| ==> OneWorker(actions[i])
  }

  // What the only worker still has to do.
  function InHand(s: State): seq<Packet> {
    if s.workers == [] then [] else BatchOf(s.workers[0])
  }

  /** All that was taken from the queue has been served but what the worker has in hand. */
  predicate InOrder(s: State, served: seq<Packet>) {
    |s.workers| <= 1 && Flatten(s.popped) == served + InHand(s) && s.applied == Sets(served)
  }

  lemma ServeInOrder(s: State, w: nat, payload: Bytes, served: seq<Packet>) returns (served': seq<Packet>)
    requires InOrder(s, served) && w < |s.workers| && DoServe(s, w, payload).Some?
    ensures InOrder(DoServe(s, w, payload).value, served')
  {
    hide Sets, Flatten;
    var p := s.workers[0].batch[0];
    served' := served + [p];
    SetsNext(served, p);
  }

  lemma AnswerInOrder(s: State, w: nat, payload: Bytes, served: seq<Packet>) returns (served': seq<Packet>)
    requires InOrder(s, served) && BatchInv(s) && w < |s.workers| && DoAnswer(s, w, payload).Some?
    ensures InOrder(DoAnswer(s, w, payload).value, served')
  {
    hide Sets, Flatten, Encodes, Batch.Covers;
    assert Servable(s.workers[0]);
    var p := s.workers[0].batch[0];
    served' := served + [p];
    SetsNext(served, p);
  }

  lemma FetchInOrder(s: State, w: nat, f: Fetched, served: seq<Packet>)
    requires InOrder(s, served) && w < |s.workers| && DoFetch(s, w, f).Some?
    ensures InOrder(DoFetch(s, w, f).value, served)
  {
    hide Sets, Flatten, GoodFetch, AllGets;
  }

  lemma PopInOrder(s: State, w: nat, wake: nat, served: seq<Packet>)
    requires InOrder(s, served) && w < |s.workers| && DoPop(s, w, wake).Some?
    ensures InOrder(DoPop(s, w, wake).value, served)
  {
    hide Sets, Flatten, BatchSize;
    if !s.queueDone && s.queue != [] {
      var batch := s.queue[..BatchSize(s.queue)];
      TakeOne(s.popped, batch);
      assert served + [] == served;
    }
  }

  lemma TakeOne(batches: seq<seq<Packet>>, batch: seq<Packet>)
    ensures Flatten(batches + [batch]) == Flatten(batches) + batch
  {
    assert (batches + [batch])[..|batches|] == batches;
  }

  lemma PushInOrder(s: State, p: Packet, wake: nat, served: seq<Packet>)
    requires InOrder(s, served) && Push(s, p, wake).Some?
    ensures InOrder(Push(s, p, wake).value, served)
  {
    hide Sets, Flatten;
  }

  lemma ReceiptInOrder(s: State, a: Action, served: seq<Packet>)
    requires InOrder(s, served) && (a.ReceiveRouter? || a.ReceiveAsync?) && Next(s, a).Some?
    ensures InOrder(Next(s, a).value, served)
  {
    hide Sets, Flatten, Matching, Decodes, Push;
    var p := Arrived(s, a.ReceiveAsync?, a.frames, a.instruction);
    var s1 := Log(s, p, a.frames);
    var s2 := s1.(direct := s.direct + [Reply(p, [], None)]);
    if Push(s1, p, a.wake).Some? { PushInOrder(s1, p, a.wake, served); }
    if Push(s2, p, a.wake).Some? { PushInOrder(s2, p, a.wake, served); }
  }

  lemma OthersInOrder(s: State, a: Action, served: seq<Packet>)
    requires InOrder(s, served) && OneWorker(a) && Next(s, a).Some?
    requires !a.ReceiveRouter? && !a.ReceiveAsync? && !a.Serve? && !a.Answer? && !a.Fetch? && !a.Pop?
    ensures InOrder(Next(s, a).value, served)
  {
    hide Sets, Flatten, DoReceiveRouter, DoReceiveAsync, DoPop, DoServe, DoFetch, DoAnswer;
  }

  lemma NextInOrder(s: State, a: Action, served: seq<Packet>) returns (served': seq<Packet>)
    requires InOrder(s, served) && BatchInv(s) && OneWorker(a) && Next(s, a).Some?
    ensures InOrder(Next(s, a).value, served')
  {
    served' := served;
    if a.ReceiveRouter? || a.ReceiveAsync? {
      hide Next;
      ReceiptInOrder(s, a, served);
    } else if a.Serve? {
      hide DoServe, InOrder;
      served' := ServeInOrder(s, a.w, a.payload, served);
    } else if a.Answer? {
      hide DoAnswer, InOrder;
      served' := AnswerInOrder(s, a.w, a.payload, served);
    } else if a.Fetch? {
      hide DoFetch, InOrder;
      FetchInOrder(s, a.w, a.fetched, served);
    } else if a.Pop? {
      hide DoPop, InOrder;
      PopInOrder(s, a.w, a.wake, served);
    } else {
      hide Next, InOrder;
      OthersInOrder(s, a, served);
    }
  }

  lemma {:induction false} RunInOrder(actions: seq<Action>) returns (served: seq<Packet>)
    requires Run(actions).Some? && OneWorkerOnly(actions)
    ensures InOrder(Run(actions).value, served)
    decreases |actions|
  {
    if actions == [] {
      served := [];
    } else {
      hide Next, InOrder, BatchInv;
      var before := actions[..|actions| - 1];
      served := RunInOrder(before);
      BatchesServable(before);
      served := NextInOrder(Run(before).value, actions[|actions| - 1], served);
    }
  }

  // ---------------------------------------------------------------- a GET sees the SETs before it

  lemma {:induction false} SetsOfQueued(ps: seq<Packet>)
    requires forall i :: 0 <= i < |ps| && ps[i].async ==> ps[i].GetType() == SET
    ensures Sets(QueuedPart(ps)) == Sets(ps)
    decreases |ps|
  {
    if ps != [] {
      var rest, p := ps[..|ps| - 1], ps[|ps| - 1];
      SetsOfQueued(rest);
      SetsNext(QueuedPart(rest), p);
      assert QueuedPart(ps) == if IsQueued(p) then QueuedPart(rest) + [p] else QueuedPart(rest);
    }
  }

  // What stands in front of p among the queued packets is what was queued before p came.
  lemma {:induction false} QueuedBefore(ps: seq<Packet>, x: seq<Packet>, p: Packet, y: seq<Packet>)
    requires forall i :: 0 <= i < |ps| ==> ps[i].id == i
    requires QueuedPart(ps) == x + [p] + y
    ensures p.id < |ps| && x == QueuedPart(ps[..p.id])
    decreases |ps|
  {
    var rest, last := ps[..|ps| - 1], ps[|ps| - 1];
    if IsQueued(last) && y == [] {
      assert x + [p] == QueuedPart(rest) + [last];
      assert x == (x + [p])[..|x|] && p == (x + [p])[|x|];
    } else {
      var y' := if IsQueued(last) then y[..|y| - 1] else y;
      if IsQueued(last) {
        assert x + [p] + y == (x + [p] + y') + [y[|y| - 1]];
        assert QueuedPart(rest) == (QueuedPart(rest) + [last])[..|QueuedPart(rest)|];
      }
      QueuedBefore(rest, x, p, y');
      assert rest[..p.id] == ps[..p.id];
    }
  }

  lemma {:induction false} NoSetsAmongGets(x: seq<Packet>, gets: seq<Packet>)
    requires AllGets(gets)
    ensures Sets(x + gets) == Sets(x)
    decreases |gets|
  {
    if gets == [] {
      assert x + gets == x;
    } else {
      var rest, p := gets[..|gets| - 1], gets[|gets| - 1];
      NoSetsAmongGets(x, rest);
      assert x + gets == (x + rest) + [p];
      SetsNext(x + rest, p);
    }
  }

  // The packets as the queue has seen them.
  predicate Queueing(s: State) {
    && s.pushed == QueuedPart(s.received) && s.pushed == Flatten(s.popped) + s.queue
    && (forall i :: 0 <= i < |s.received| ==> s.received[i].id == i)
    && (forall i :: 0 <= i < |s.received| && s.received[i].async ==> s.received[i].GetType() == SET)
  }

  lemma RunQueueing(actions: seq<Action>)
    requires Run(actions).Some?
    ensures Queueing(Run(actions).value)
  {
    hide Run;
    RunAccounted(actions);
    QueueIsFifo(actions);
    QueueFacts(Run(actions).value);
  }

  lemma QueueFacts(s: State)
    requires Accounted(s) && FifoInv(s)
    ensures Queueing(s)
  {
    hide QueuedPart, DirectPart, InBatches, Origins, WellAddressed, Flatten;
  }

  /** When the only worker fetches for its batch, the SETs applied are those received before any GET in it. */
  lemma AppliedBefore(s: State, served: seq<Packet>, w: nat, f: Fetched, p: Packet)
    requires InOrder(s, served) && Queueing(s) && w < |s.workers| && DoFetch(s, w, f).Some? && p in f.batch
    ensures p.id < |s.received| && s.applied == Sets(s.received[..p.id])
  {
    FetchStep(s, w, f);
    var j :| 0 <= j < |f.batch| && f.batch[j] == p;
    OneInHand(s, served);
    hide Sets, Flatten, QueuedPart, DoFetch, InHand;
    Around(served, f.batch, s.queue, j);
    QueuedBefore(s.received, served + f.batch[..j], p, f.batch[j + 1..] + s.queue);
    NoSetsAmongGets(served, f.batch[..j]);
    SetsOfQueued(s.received[..p.id]);
  }

  lemma OneInHand(s: State, served: seq<Packet>)
    requires InOrder(s, served)
    ensures forall w :: 0 <= w < |s.workers| && s.workers[w].Serving? ==> InHand(s) == s.workers[w].batch
  {
    hide Sets, Flatten;
  }

  lemma Around(a: seq<Packet>, b: seq<Packet>, c: seq<Packet>, j: nat)
    requires j < |b|
    ensures a + b + c == (a + b[..j]) + [b[j]] + (b[j + 1..] + c)
  {
  }

  lemma ReceivedGrow(s: State, a: Action)
    requires Next(s, a).Some?
    ensures s.received <= Next(s, a).value.received
  {
    hide Next;
    if a.ReceiveRouter? || a.ReceiveAsync? {
      ReceiptKind(s, a);
    } else {
      NothingNew(s, a);
    }
  }

  lemma {:induction false} ReceivedPrefix(actions: seq<Action>, n: nat)
    requires Run(actions).Some? && n <= |actions|
    ensures Run(actions[..n]).Some? && Run(actions[..n]).value.received <= Run(actions).value.received
    decreases |actions|
  {
    hide Next;
    if n < |actions| {
      var before := actions[..|actions| - 1];
      ReceivedPrefix(before, n);
      assert before[..n] == actions[..n];
      ReceivedGrow(Run(before).value, actions[|actions| - 1]);
    } else {
      assert actions[..n] == actions;
    }
  }

  lemma FetchPossible(actions: seq<Action>, n: nat, f: Fetched)
    requires Run(actions).Some? && FetchedAt(actions, n, f)
    ensures var s := Run(actions[..n]).value; actions[n].w < |s.workers| && DoFetch(s, actions[n].w, f).Some?
  {
    hide DoFetch;
    ReceivedPrefix(actions, n + 1);
    assert actions[..n + 1][..n] == actions[..n];
  }

  /**
   With one worker, in every such run: a GET is answered with what all the SETs received before it, in
   the order of their arrival and no others, have left in the store.
   */
  lemma GetSeesEarlierSets(
    cfg: Config, cached: bool, store: Store, cas: nat -> int, actions: seq<Action>, r: Response)
    returns (f: Fetched)
    requires Run(actions).Some? && Track(cfg, Fresh(cached, store), cas, actions).Some? && OneWorkerOnly(actions)
    requires r in Run(actions).value.pipe || r in Run(actions).value.forwarded
    requires r.origin.instruction.getKeys != []
    ensures var s := Run(actions).value;
      && f in s.fetches && CarriesAnswer(r, f)
      && r.origin.id < |s.received| && s.received[r.origin.id] == r.origin
      && AnswersFrom(
           StoreAfter(store, cas, Sets(s.received[..r.origin.id])),
           r.origin.instruction, Batch.Answered(r.origin.instruction, f.answers))
  {
    hide Run, Track, CacheAgrees, AnswersFrom, StoreAfter, GoodFetch, Batch.Answered, CarriesAnswer;
    hide InOrder, Queueing, DoFetch;
    var n;
    n, f := RepliesAreCoherent(cfg, cached, store, cas, actions, r);
    EveryReplySentBack(actions, r);
    Carried(r, f);
    ReceivedPrefix(actions, n);
    var t := Run(actions[..n]).value;
    var served := RunInOrder(actions[..n]);
    RunQueueing(actions[..n]);
    FetchPossible(actions, n, f);
    AppliedBefore(t, served, actions[n].w, f, r.origin);
    assert t.received[..r.origin.id] == Run(actions).value.received[..r.origin.id];
  }

  lemma Carried(r: Response, f: Fetched)
    requires CarriesAnswer(r, f)
    ensures r.origin in f.batch && Batch.Covers(f.answers, r.origin.instruction)
  {
  }
}
